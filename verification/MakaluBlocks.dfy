/** Makalu's block allocator: the state, its operations as functions of the state, and what must
    hold of it.

    Addresses are page numbers (HBLKSIZE bytes each); page 0 is null. `hd` is the header index: the
    first page of a block has a header, the other pages of a block in use have a forwarding count,
    the other pages of a free block have nothing.
*/
module MakaluBlocks {

  const HBLKSIZE := 4096
  const UNIQUE_THRESHOLD := 32
  const HUGE_THRESHOLD := 256
  const FL_COMPRESSION := 8
  const N_HBLK_FLS := 60
  const MAX_JUMP := 4095
  const TOP_PAGE := 0x8_0000_0000_0000       // no address reaches 2^63

  /** The forwarding count of the page at distance i from the start of its block. */
  function Count(i: int): int { if i > MAX_JUMP then MAX_JUMP else i }

  /** hb_sz is the object size of a block in use and the block size of a free one, in bytes. */
  datatype Hdr = Nil | Fwd(k: int) | Hd(sz: int, free: bool, next: int, prev: int)

  datatype Heap = Heap(
    hd: int -> Hdr,
    fl: int -> int,              // MAK_hblkfreelist
    bytes: int -> int,           // MAK_free_bytes
    total: int,                  // MAK_large_free_bytes
    // auxiliary from here on
    lists: int -> seq<int>,      // the blocks on each free list
    start: int -> int)           // the block a page belongs to, 0 if none

  function Upd<B>(f: int -> B, a: int, b: B): int -> B { x => if x == a then b else f(x) }

  function Blocks(sz: int): int { (sz + HBLKSIZE - 1) / HBLKSIZE }

  /** The length of a block in pages. */
  function Len(d: Hdr): int { if d.Hd? then Blocks(d.sz) else 0 }

  predicate FreeAt(h: Heap, p: int) { h.hd(p).Hd? && h.hd(p).free }

  function FlIndex(n: int): int {
    if n <= UNIQUE_THRESHOLD then n
    else if n >= HUGE_THRESHOLD then N_HBLK_FLS
    else (n - UNIQUE_THRESHOLD) / FL_COMPRESSION + UNIQUE_THRESHOLD
  }

  /** The most pages a block can have on the list of those with n pages, unless that is the last list. */
  function LongestWith(n: int): int {
    if n < UNIQUE_THRESHOLD then n else n - n % FL_COMPRESSION + FL_COMPRESSION - 1
  }

  /** Larger blocks are on the same or on later lists; below UNIQUE_THRESHOLD a list has one size, then
      FL_COMPRESSION sizes, and the last list has the rest. */
  lemma FlIndexMonotone(m: int, n: int)
    requires 1 <= m <= n
    ensures 1 <= FlIndex(m) <= FlIndex(n) <= N_HBLK_FLS
    ensures FlIndex(m) == FlIndex(n) < UNIQUE_THRESHOLD ==> m == n
    ensures FlIndex(m) == FlIndex(n) < N_HBLK_FLS ==> n - m < FL_COMPRESSION
    ensures FlIndex(m) < FlIndex(n) <==> m < HUGE_THRESHOLD && n > LongestWith(m)
  {
  }

  // ---------- the operations on free lists ----------

  function SetNext(d: Hdr, v: int): Hdr { if d.Hd? then d.(next := v) else d }
  function SetPrev(d: Hdr, v: int): Hdr { if d.Hd? then d.(prev := v) else d }
  function SetSize(d: Hdr, v: int): Hdr { if d.Hd? then d.(sz := v) else d }
  function NextOf(d: Hdr): int { if d.Hd? then d.next else 0 }
  function PrevOf(d: Hdr): int { if d.Hd? then d.prev else 0 }
  function SizeOf(d: Hdr): int { if d.Hd? then d.sz else 0 }

  ghost function Without(q: seq<int>, p: int): seq<int> {
    if q == [] then [] else if q[0] == p then q[1..] else [q[0]] + Without(q[1..], p)
  }

  /** MAK_remove_from_fl for the block at p. */
  ghost function Removed(h: Heap, p: int): Heap {
    var d := h.hd(p);
    var i := FlIndex(Len(d));
    var hd1 := if PrevOf(d) == 0 then h.hd else Upd(h.hd, PrevOf(d), SetNext(h.hd(PrevOf(d)), NextOf(d)));
    var hd2 := if NextOf(d) == 0 then hd1 else Upd(hd1, NextOf(d), SetPrev(hd1(NextOf(d)), PrevOf(d)));
    h.(hd := hd2,
    fl := if PrevOf(d) == 0 then Upd(h.fl, i, NextOf(d)) else h.fl,
    bytes := Upd(h.bytes, i, h.bytes(i) - SizeOf(d)),
    lists := Upd(h.lists, i, Without(h.lists(i), p)))
  }

  /** MAK_add_to_fl. */
  ghost function Added(h: Heap, p: int): Heap {
    var d := h.hd(p);
    var i := FlIndex(Len(d));
    var second := h.fl(i);
    var hd1 := Upd(h.hd, p, Hd(SizeOf(d), true, second, 0));
    h.(hd := if second == 0 then hd1 else Upd(hd1, second, SetPrev(hd1(second), p)),
    fl := Upd(h.fl, i, p),
    bytes := Upd(h.bytes, i, h.bytes(i) + SizeOf(d)),
    lists := Upd(h.lists, i, [p] + h.lists(i)))
  }

  // ---------- what must hold ----------

  ghost predicate NoDup(q: seq<int>) { forall i, j :: 0 <= i < j < |q| ==> q[i] != q[j] }

  ghost function At(q: seq<int>, i: int): int { if 0 <= i < |q| then q[i] else 0 }

  /** The i-th element of a free list is linked to its neighbours, both ways. */
  ghost predicate NodeAt(hd: int -> Hdr, q: seq<int>, i: int) {
    0 <= i < |q| ==>
      q[i] != 0 && hd(q[i]).Hd? && hd(q[i]).next == At(q, i + 1) && hd(q[i]).prev == At(q, i - 1)
  }

  ghost predicate DList(hd: int -> Hdr, head: int, q: seq<int>) {
    NoDup(q) && head == At(q, 0) && forall i :: NodeAt(hd, q, i)
  }

  ghost function Sum(hd: int -> Hdr, q: seq<int>): int
    decreases |q|
  {
    if q == [] then 0 else SizeOf(hd(q[0])) + Sum(hd, q[1..])
  }

  ghost function Total(bytes: int -> int, n: int): int
    decreases n
  {
    if n < 0 then 0 else bytes(n) + Total(bytes, n - 1)
  }

  /** Free list i holds exactly the free blocks of its sizes, except those in hand. */
  ghost predicate ListAt(h: Heap, out: set<int>, i: int) {
    && DList(h.hd, h.fl(i), h.lists(i))
    && h.bytes(i) == Sum(h.hd, h.lists(i))
    && forall p :: p in h.lists(i) <==> FreeAt(h, p) && p !in out && i == FlIndex(Len(h.hd(p)))
  }

  ghost predicate ListsOk(h: Heap, out: set<int>) { forall i :: ListAt(h, out, i) }

  /** Page p lies in exactly the block `start` names, and its index entry says how to get there. */
  ghost predicate TileAt(h: Heap, out: set<int>, p: int) {
    var q := h.start(p);
    && (q == 0 ==> h.hd(p) == Nil)
    && (q != 0 ==>
          && 1 <= q <= p < TOP_PAGE && h.hd(q).Hd? && h.hd(q).sz >= 1 && p < q + Len(h.hd(q))
          && (p != q ==> if h.hd(q).free || q in out then h.hd(p) == Nil else h.hd(p).Fwd? && 1 <= h.hd(p).k <= p - q))
    && (h.hd(p).Hd? ==>
          && q == p && (h.hd(p).free || p in out ==> h.hd(p).sz % HBLKSIZE == 0)
          && forall e :: p <= e < p + Len(h.hd(p)) ==> h.start(e) == p)
  }

  /** The heap is tiled by blocks. */
  ghost predicate Tiled(h: Heap, out: set<int>) { forall p :: TileAt(h, out, p) }

  /** Two free blocks, neither in hand, are never adjacent. */
  ghost predicate ApartAt(h: Heap, out: set<int>, p: int) {
    FreeAt(h, p) && p !in out ==> var e := p + Len(h.hd(p)); e in out || !FreeAt(h, e)
  }

  ghost predicate Apart(h: Heap, out: set<int>) { forall p :: ApartAt(h, out, p) }

  ghost predicate GoodAt(h: Heap, out: set<int>, p: int) {
    TileAt(h, out, p) && ListAt(h, out, p) && ApartAt(h, out, p)
  }

  /** Tiled, with right lists, and no two free blocks adjacent; the blocks in `out` are in hand. */
  ghost predicate Good(h: Heap, out: set<int>) { forall p :: GoodAt(h, out, p) }

  lemma Parts(h: Heap, out: set<int>)
    requires Good(h, out)
    ensures Tiled(h, out) && ListsOk(h, out) && Apart(h, out)
  {
    forall p ensures TileAt(h, out, p) && ListAt(h, out, p) && ApartAt(h, out, p) { assert GoodAt(h, out, p); }
  }

  lemma MakeGood(h: Heap, out: set<int>)
    requires Tiled(h, out) && ListsOk(h, out) && Apart(h, out)
    ensures Good(h, out)
  {
    forall p ensures GoodAt(h, out, p) { assert TileAt(h, out, p) && ListAt(h, out, p) && ApartAt(h, out, p); }
  }

  /** Between operations nothing is in hand and the byte counters add up. */
  ghost predicate Valid(h: Heap) { Good(h, {}) && Counted(h, h.total) }

  /** The counters of all lists, of which there are N_HBLK_FLS + 1, add up to x. */
  ghost predicate Counted(h: Heap, x: int) { forall n :: n >= N_HBLK_FLS ==> Total(h.bytes, n) == x }

  // ---------- sequences ----------

  lemma {:induction false} WithoutIs(q: seq<int>, i: int)
    requires NoDup(q) && 0 <= i < |q|
    ensures Without(q, q[i]) == q[..i] + q[i + 1..]
    decreases |q|
  {
    if i == 0 {
      assert q[..0] + q[1..] == q[1..];
    } else {
      var r := q[1..];
      assert q[0] != q[i] && r[i - 1] == q[i];
      WithoutIs(r, i - 1);
      WithoutLater(q, i);
    }
  }

  lemma WithoutLater(q: seq<int>, i: int)
    requires 0 < i < |q|
    ensures [q[0]] + (q[1..][..i - 1] + q[1..][i..]) == q[..i] + q[i + 1..]
  {
    assert q[..i] == [q[0]] + q[1..][..i - 1];
    assert q[i + 1..] == q[1..][i..];
  }

  lemma {:induction false} SumSame(hd: int -> Hdr, hd': int -> Hdr, q: seq<int>)
    requires forall p :: p in q ==> SizeOf(hd'(p)) == SizeOf(hd(p))
    ensures Sum(hd', q) == Sum(hd, q)
    decreases |q|
  {
    if q != [] {
      var p := q[0];
      assert p in q;
      SumSame(hd, hd', q[1..]);
    }
  }

  lemma {:induction false} SumWithout(hd: int -> Hdr, q: seq<int>, i: int)
    requires 0 <= i < |q|
    ensures Sum(hd, q) == Sum(hd, q[..i] + q[i + 1..]) + SizeOf(hd(q[i]))
    decreases i
  {
    var w := q[..i] + q[i + 1..];
    if i == 0 {
      assert w == q[1..];
    } else {
      SumWithout(hd, q[1..], i - 1);
      assert w[1..] == q[1..][..i - 1] + q[1..][i..] && w[0] == q[0];
    }
  }

  lemma {:induction false} TotalUpd(bytes: int -> int, i: int, v: int, n: int)
    ensures Total(Upd(bytes, i, v), n) == Total(bytes, n) + (if 0 <= i <= n then v - bytes(i) else 0)
    decreases n
  {
    if n >= 0 { TotalUpd(bytes, i, v, n - 1); }
  }
}
