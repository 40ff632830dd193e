/** What the sweep of Ralloc's recovery must rebuild from a crashed heap and a set of marked
    blocks, independently of how it goes about it.

    Addresses are offsets from the superblock region, whose base is aligned to SBSIZE.
*/
module RecoverySpec {
  import opened AllocatorState
  import opened AllocatorSteps
  import opened AllocatorInvariant
  import opened SizeClasses

  /** What a crash leaves behind. Of a descriptor only heap, maxcount, the superblock field (`home`)
      and block_size are meant to survive; the transient fields hold anything. `span` is block_size
      in superblocks and matters for large allocations. */
  datatype Crashed = Crashed(desc: int -> Desc, home: int -> int, blockSize: int -> int,
                             link: Block -> Link, frontier: int)

  function SbOf(a: int): int { a / SBSIZE }

  /** The descriptor was in use and describes the superblock at its own index. */
  predicate Usable(k: Crashed, d: int) { k.desc(d).heap.HeapOf? && k.home(d) == d }

  ghost predicate HasMark(marked: seq<int>, d: int) { exists a :: a in marked && SbOf(a) == d }

  ghost predicate LiveBig(k: Crashed, marked: seq<int>, d: int) {
    Usable(k, d) && k.desc(d).heap.sc == 0 && HasMark(marked, d)
  }

  ghost predicate LiveSmall(k: Crashed, marked: seq<int>, d: int) {
    Usable(k, d) && k.desc(d).heap.sc != 0 && HasMark(marked, d)
  }

  ghost predicate Covers(k: Crashed, marked: seq<int>, lo: int, d: int) {
    LiveBig(k, marked, lo) && lo <= d < lo + k.desc(lo).span
  }

  function BlockAddr(k: Crashed, d: int, i: int): int { d * SBSIZE + i * k.blockSize(d) }

  predicate Marked(k: Crashed, marked: seq<int>, d: int, i: int) { BlockAddr(k, d, i) in marked }

  // ---------- what recovery may assume ----------

  ghost predicate BigOk(k: Crashed, marked: seq<int>, d: int) {
    var n := k.desc(d).span;
    && n >= 1 && k.blockSize(d) == n * SBSIZE && d + n <= k.frontier && k.desc(d).maxcount == 1
    && forall e :: d < e < d + n ==> !HasMark(marked, e)
  }

  ghost predicate IsStart(k: Crashed, d: int, a: int) {
    exists i :: 0 <= i < k.desc(d).maxcount && a == BlockAddr(k, d, i)
  }

  ghost predicate SmallOk(c: Config, k: Crashed, marked: seq<int>, d: int) {
    && k.desc(d).heap.HeapOf? && SmallClass(c, k.desc(d).heap.sc)
    && k.desc(d).maxcount == c.maxcount(k.desc(d).heap.sc)
    && k.blockSize(d) >= 1 && k.desc(d).maxcount * k.blockSize(d) <= SBSIZE
    && forall a :: a in marked && SbOf(a) == d ==> IsStart(k, d, a)
  }

  predicate Increasing(q: seq<int>) { forall i, j :: 0 <= i < j < |q| ==> q[i] < q[j] }

  /** The persisted fields of live superblocks are intact, every mark in a small one is the start of
      one of its blocks, and no mark points past the first superblock of a large allocation.
      Marks into superblocks that were not in use are allowed. */
  ghost predicate Sweepable(c: Config, k: Crashed, marked: seq<int>) {
    forall x :: SweepableAt(c, k, marked, x)
  }

  /** For superblock x and for address x. */
  ghost predicate SweepableAt(c: Config, k: Crashed, marked: seq<int>, x: int) {
    && GoodConfig(c) && k.frontier >= 1 && Increasing(marked)
    && (x in marked ==> 1 <= SbOf(x) < k.frontier)
    && (LiveBig(k, marked, x) ==> BigOk(k, marked, x))
    && (LiveSmall(k, marked, x) ==> SmallOk(c, k, marked, x))
  }

  lemma SweepableParts(c: Config, k: Crashed, marked: seq<int>)
    requires Sweepable(c, k, marked)
    ensures GoodConfig(c) && k.frontier >= 1 && Increasing(marked)
    ensures forall a :: a in marked ==> 1 <= SbOf(a) < k.frontier
    ensures forall d :: LiveBig(k, marked, d) ==> BigOk(k, marked, d)
    ensures forall d :: LiveSmall(k, marked, d) ==> SmallOk(c, k, marked, d)
  {
    assert SweepableAt(c, k, marked, 0);
    forall x ensures (x in marked ==> 1 <= SbOf(x) < k.frontier) && (LiveBig(k, marked, x) ==> BigOk(k, marked, x))
                     && (LiveSmall(k, marked, x) ==> SmallOk(c, k, marked, x)) {
      assert SweepableAt(c, k, marked, x);
    }
  }

  // ---------- which marks the sweep meets ----------

  /** The iterator of marks after those of superblock d. */
  ghost function Eat(marked: seq<int>, pos: int, d: int): (r: int)
    ensures pos <= r && (pos <= |marked| ==> r <= |marked|)
    decreases |marked| - pos
  {
    if 0 <= pos < |marked| && SbOf(marked[pos]) == d then Eat(marked, pos + 1, d) else pos
  }

  /** How far the sweep moves from superblock d, having met marks there or not. */
  ghost function Stride(k: Crashed, d: int, met: bool): int {
    if met && Usable(k, d) && k.desc(d).heap.sc == 0 then k.desc(d).span else 1
  }

  /** Where the iterator ends when the sweep goes on from superblock d. */
  ghost function Final(k: Crashed, marked: seq<int>, pos: int, d: int): (r: int)
    ensures pos <= r && (pos <= |marked| ==> r <= |marked|)
    decreases k.frontier - d
  {
    if d >= k.frontier then pos else
    var p := Eat(marked, pos, d);
    var n := Stride(k, d, p > pos);
    if n < 1 then p else Final(k, marked, p, d + n)
  }

  /** The marks that the sweep meets; RecoveryCursor says when these are all. */
  ghost function Met(k: Crashed, marked: seq<int>): seq<int> { marked[..Final(k, marked, 0, 1)] }

  lemma {:induction false} EatIs(marked: seq<int>, pos: int, d: int)
    requires 0 <= pos <= |marked|
    ensures var r := Eat(marked, pos, d);
            && pos <= r <= |marked| && (forall i :: pos <= i < r ==> SbOf(marked[i]) == d)
            && (r < |marked| ==> SbOf(marked[r]) != d)
    decreases |marked| - pos
  {
    if pos < |marked| && SbOf(marked[pos]) == d { EatIs(marked, pos + 1, d); }
  }

  // ---------- what it must rebuild ----------

  /** The unmarked blocks among the first n, highest first. */
  ghost function FreeBelow(k: Crashed, marked: seq<int>, d: int, n: int): seq<int>
    decreases n
  {
    if n <= 0 then [] else
    (if Marked(k, marked, d, n - 1) then [] else [n - 1]) + FreeBelow(k, marked, d, n - 1)
  }

  ghost function ChainOf(k: Crashed, marked: seq<int>, d: int): seq<int> {
    if LiveSmall(k, marked, d) then FreeBelow(k, marked, d, k.desc(d).maxcount) else []
  }

  ghost function PlaceOf(k: Crashed, marked: seq<int>, d: int): Place {
    if d < 0 || k.frontier <= d then Unborn
    else if d == 0 then Skipped
    else if LiveSmall(k, marked, d) then
      (if ChainOf(k, marked, d) == [] then Active else Listed(k.desc(d).heap.sc))
    else if lo :| Covers(k, marked, lo, d) then Big(lo, k.desc(lo).span)
    else Avail
  }

  ghost function OwnerOf(k: Crashed, marked: seq<int>, b: Block): Owner {
    if LiveSmall(k, marked, b.sb) && 0 <= b.idx < k.desc(b.sb).maxcount then
      (if Marked(k, marked, b.sb, b.idx) then App else Chained)
    else Unused
  }

  /** The superblocks below d at place p, highest first. */
  ghost function Picked(place: int -> Place, p: Place, d: int): seq<int>
    decreases d
  {
    if d <= 1 then [] else
    (if place(d - 1) == p then [d - 1] else []) + Picked(place, p, d - 1)
  }

  ghost function PlaceMap(k: Crashed, marked: seq<int>): int -> Place { d => PlaceOf(k, marked, d) }

  /** The shared state rebuilt from the four concrete parts; the auxiliary parts are as specified. */
  ghost function Rebuilt(k: Crashed, marked: seq<int>, desc: int -> Desc, link: Block -> Link,
                         heads: int -> Head, avail: Head): Mem {
    Mem(desc, link,
        sc => Stack(heads(sc), Picked(PlaceMap(k, marked), Listed(sc), k.frontier)),
        Stack(avail, Picked(PlaceMap(k, marked), Avail, k.frontier)),
        k.frontier,
        b => OwnerOf(k, marked, b), d => PlaceOf(k, marked, d), d => ChainOf(k, marked, d), d => 0, d => 0)
  }

  /** Superblock d of m is as specified. */
  ghost predicate RebuiltAt(k: Crashed, marked: seq<int>, m: Mem, d: int) {
    && m.frontier == k.frontier && m.place(d) == PlaceOf(k, marked, d) && m.chain(d) == ChainOf(k, marked, d)
    && m.emptied(d) == 0 && m.retired(d) == 0
    && forall i :: m.owner(Block(d, i)) == OwnerOf(k, marked, Block(d, i))
  }

  const EmptyThread := Thread(sc => Bin(Nil, 0, []), Idle)

  /** The machine after recovery: rebuilt memory, no thread inside a call, all caches empty. */
  ghost function Restarted(c: Config, m: Mem): State { State(c, m, t => EmptyThread) }

  // ---------- chains ----------

  lemma {:induction false} FreeBelowIs(k: Crashed, marked: seq<int>, d: int, n: int)
    ensures forall i :: i in FreeBelow(k, marked, d, n) <==> 0 <= i < n && !Marked(k, marked, d, i)
    ensures NoDup(FreeBelow(k, marked, d, n))
    ensures n >= 0 ==> |FreeBelow(k, marked, d, n)| <= n
    ensures (exists i :: 0 <= i < n && Marked(k, marked, d, i)) ==> |FreeBelow(k, marked, d, n)| < n
    decreases n
  {
    if n > 0 { FreeBelowIs(k, marked, d, n - 1); }
  }

  lemma {:induction false} PickedIs(place: int -> Place, p: Place, d: int)
    ensures forall e :: e in Picked(place, p, d) <==> 1 <= e < d && place(e) == p
    decreases d
  {
    if d > 1 { PickedIs(place, p, d - 1); }
  }

  /** A superblock belongs to at most one live large allocation. */
  lemma CoverUnique(c: Config, k: Crashed, marked: seq<int>, lo: int, lo': int, d: int)
    requires Sweepable(c, k, marked) && Covers(k, marked, lo, d) && Covers(k, marked, lo', d)
    ensures lo == lo'
  {
    SweepableParts(c, k, marked);
    assert BigOk(k, marked, lo) && BigOk(k, marked, lo');
  }

  lemma CoveredIsBig(c: Config, k: Crashed, marked: seq<int>, lo: int, d: int)
    requires Sweepable(c, k, marked) && Covers(k, marked, lo, d)
    ensures PlaceOf(k, marked, d) == Big(lo, k.desc(lo).span) && 1 <= lo <= d < k.frontier
  {
    SweepableParts(c, k, marked);
    assert BigOk(k, marked, lo);
    assert 1 <= lo by { var a :| a in marked && SbOf(a) == lo; }
    assert !LiveSmall(k, marked, d);
    forall x | Covers(k, marked, x, d) ensures x == lo { CoverUnique(c, k, marked, lo, x, d); }
  }

  // ---------- the rebuilt state satisfies the invariant ----------

  /** The descriptor that the sweep leaves for superblock e: what persists is kept where e is in use and
      blank where it is not; the transient parts are set anew. */
  ghost predicate DescDone(k: Crashed, marked: seq<int>, desc: int -> Desc, e: int) {
    var D, chain := desc(e), ChainOf(k, marked, e);
    match PlaceOf(k, marked, e)
    case Listed(_) =>
      chain != [] && D == Reset(k.desc(e), D.nextPartial, Anchor(chain[0], |chain|, Partial))
    case Active => D == Reset(k.desc(e), Null, Anchor(k.desc(e).maxcount, 0, Full))
    case Big(lo, n) => e == lo ==> D == Reset(k.desc(e), Null, Anchor(0, 0, Full)) && D.span == n
    case _ => D == FreshDesc.(nextFree := D.nextFree)
  }

  function Reset(D: Desc, nextPartial: Ptr, anchor: Anchor): Desc {
    D.(nextFree := Null, nextPartial := nextPartial, anchor := anchor)
  }

  ghost predicate LinkDone(k: Crashed, marked: seq<int>, link: Block -> Link, e: int) {
    LinkedIn(link, e, ChainOf(k, marked, e))
  }

  ghost predicate ListsDoneAt(k: Crashed, marked: seq<int>, desc: int -> Desc, heads: int -> Head, avail: Ptr,
                              d: int, sc: int) {
    && Lists(avail, Picked(PlaceMap(k, marked), Avail, d), FreeNext(desc))
    && Lists(heads(sc).ptr, Picked(PlaceMap(k, marked), Listed(sc), d), PartialNext(desc))
  }

  /** The lists hold the superblocks below d, highest first. */
  ghost predicate ListsDone(k: Crashed, marked: seq<int>, desc: int -> Desc, heads: int -> Head, avail: Ptr, d: int) {
    forall sc :: ListsDoneAt(k, marked, desc, heads, avail, d, sc)
  }

  ghost predicate SweptAt(k: Crashed, marked: seq<int>, desc: int -> Desc, link: Block -> Link,
                          heads: int -> Head, avail: Ptr, d: int, e: int) {
    && (1 <= e < d ==> DescDone(k, marked, desc, e) && LinkDone(k, marked, link, e))
    && ListsDone(k, marked, desc, heads, avail, d)
  }

  /** Everything below d is rebuilt. */
  ghost predicate Swept(k: Crashed, marked: seq<int>, desc: int -> Desc, link: Block -> Link,
                        heads: int -> Head, avail: Ptr, d: int) {
    forall e :: SweptAt(k, marked, desc, link, heads, avail, d, e)
  }

  lemma SweptParts(k: Crashed, marked: seq<int>, desc: int -> Desc, link: Block -> Link,
                   heads: int -> Head, avail: Ptr, d: int)
    requires Swept(k, marked, desc, link, heads, avail, d)
    ensures (forall e :: 1 <= e < d ==> DescDone(k, marked, desc, e))
    ensures (forall e :: 1 <= e < d ==> LinkDone(k, marked, link, e))
    ensures ListsDone(k, marked, desc, heads, avail, d)
  {
    assert SweptAt(k, marked, desc, link, heads, avail, d, 0);
    forall e | 1 <= e < d ensures DescDone(k, marked, desc, e) && LinkDone(k, marked, link, e) {
      assert SweptAt(k, marked, desc, link, heads, avail, d, e);
    }
  }

  /** A live small superblock keeps at least one block, so its chain is shorter than the superblock. */
  lemma LiveChain(c: Config, k: Crashed, marked: seq<int>, d: int)
    requires Sweepable(c, k, marked) && LiveSmall(k, marked, d)
    ensures SmallOk(c, k, marked, d)
    ensures var q, mx := ChainOf(k, marked, d), k.desc(d).maxcount;
            && NoDup(q) && |q| < mx && (forall i :: i in q <==> 0 <= i < mx && !Marked(k, marked, d, i))
  {
    SweepableParts(c, k, marked);
    var mx := k.desc(d).maxcount;
    FreeBelowIs(k, marked, d, mx);
    var a :| a in marked && SbOf(a) == d;
    assert IsStart(k, d, a);
    var i :| 0 <= i < mx && a == BlockAddr(k, d, i);
    assert Marked(k, marked, d, i);
  }

  lemma RebuiltSb(c: Config, k: Crashed, marked: seq<int>, m: Mem, d: int)
    requires Sweepable(c, k, marked) && RebuiltAt(k, marked, m, d)
    requires 1 <= d < k.frontier ==> DescDone(k, marked, m.desc, d) && LinkDone(k, marked, m.link, d)
    ensures SbInv(c, m, d)
  {
    SweepableParts(c, k, marked);
    if LiveSmall(k, marked, d) {
      LiveChain(c, k, marked, d);
      assert 1 <= d < k.frontier by { var a :| a in marked && SbOf(a) == d; }
      RebuiltUsed(c, k, marked, m, d);
    }
  }

  lemma RebuiltUsed(c: Config, k: Crashed, marked: seq<int>, m: Mem, d: int)
    requires LiveSmall(k, marked, d) && SmallOk(c, k, marked, d) && RebuiltAt(k, marked, m, d)
    requires 1 <= d < k.frontier && DescDone(k, marked, m.desc, d) && LinkDone(k, marked, m.link, d)
    requires var q, mx := ChainOf(k, marked, d), k.desc(d).maxcount;
             && NoDup(q) && |q| < mx && (forall i :: i in q <==> 0 <= i < mx && !Marked(k, marked, d, i))
    ensures SbInv(c, m, d)
  {
    RebuiltOwners(k, marked, m, d);
    RebuiltAnchor(c, k, marked, m, d);
  }

  lemma RebuiltOwners(k: Crashed, marked: seq<int>, m: Mem, d: int)
    requires LiveSmall(k, marked, d) && RebuiltAt(k, marked, m, d)
    requires forall i :: i in ChainOf(k, marked, d) <==> 0 <= i < k.desc(d).maxcount && !Marked(k, marked, d, i)
    ensures forall i :: m.owner(Block(d, i)) != Unused <==> 0 <= i < k.desc(d).maxcount
    ensures forall i :: m.owner(Block(d, i)) == Chained <==> i in m.chain(d)
  {
  }

  lemma RebuiltAnchor(c: Config, k: Crashed, marked: seq<int>, m: Mem, d: int)
    requires LiveSmall(k, marked, d) && SmallOk(c, k, marked, d) && RebuiltAt(k, marked, m, d)
    requires 1 <= d < k.frontier && DescDone(k, marked, m.desc, d) && |ChainOf(k, marked, d)| < k.desc(d).maxcount
    ensures InUse(m.place(d)) && m.desc(d).heap == k.desc(d).heap && m.desc(d).maxcount == k.desc(d).maxcount
    ensures AnchorInv(m.desc(d).anchor, m.place(d), m.chain(d), m.desc(d).maxcount) && m.desc(d).anchor.state != Empty
    ensures m.place(d).Listed? ==> m.place(d).sc == m.desc(d).heap.sc
  {
  }

  lemma RebuiltBig(c: Config, k: Crashed, marked: seq<int>, m: Mem, d: int)
    requires Sweepable(c, k, marked) && m.place(d) == PlaceOf(k, marked, d)
    requires forall e :: m.place(e) == PlaceOf(k, marked, e)
    requires forall e :: 1 <= e < k.frontier ==> DescDone(k, marked, m.desc, e)
    ensures BigInv(m, d)
  {
    if m.place(d).Big? {
      var lo :| Covers(k, marked, lo, d);
      var n := k.desc(lo).span;
      CoveredIsBig(c, k, marked, lo, d);
      forall e | lo <= e < lo + n ensures m.place(e) == Big(lo, n) { CoveredIsBig(c, k, marked, lo, e); }
      assert m.place(lo) == Big(lo, n);
      assert DescDone(k, marked, m.desc, lo);
      SweepableParts(c, k, marked);
      assert BigOk(k, marked, lo);
    }
  }

  lemma RebuiltStacks(k: Crashed, marked: seq<int>, m: Mem)
    requires forall d :: m.place(d) == PlaceOf(k, marked, d)
    requires m.availSb.lst == Picked(PlaceMap(k, marked), Avail, k.frontier)
    requires forall sc :: m.partialList(sc).lst == Picked(PlaceMap(k, marked), Listed(sc), k.frontier)
    requires Lists(m.availSb.head.ptr, m.availSb.lst, FreeNext(m.desc))
    requires forall sc :: Lists(m.partialList(sc).head.ptr, m.partialList(sc).lst, PartialNext(m.desc))
    ensures StacksInv(m)
  {
    forall sc ensures Exactly(m.partialList(sc).lst, m.place, Listed(sc)) {
      PickedIs(PlaceMap(k, marked), Listed(sc), k.frontier);
    }
    PickedIs(PlaceMap(k, marked), Avail, k.frontier);
    forall sc ensures ListInv(m.partialList(sc), PartialNext(m.desc)) {
      assert Lists(m.partialList(sc).head.ptr, m.partialList(sc).lst, PartialNext(m.desc));
    }
  }

  lemma RebuiltShared(c: Config, k: Crashed, marked: seq<int>, desc: int -> Desc, link: Block -> Link,
                      heads: int -> Head, avail: Head)
    requires Sweepable(c, k, marked) && Swept(k, marked, desc, link, heads, avail.ptr, k.frontier)
    ensures SharedInv(c, Rebuilt(k, marked, desc, link, heads, avail))
  {
    SweepableParts(c, k, marked);
    var m := Rebuilt(k, marked, desc, link, heads, avail);
    SweptParts(k, marked, desc, link, heads, avail.ptr, k.frontier);
    forall sc ensures Lists(m.partialList(sc).head.ptr, m.partialList(sc).lst, PartialNext(m.desc)) {
      assert ListsDoneAt(k, marked, desc, heads, avail.ptr, k.frontier, sc);
    }
    assert ListsDoneAt(k, marked, desc, heads, avail.ptr, k.frontier, 0);
    RebuiltStacks(k, marked, m);
    forall d ensures SbInv(c, m, d) && BigInv(m, d) {
      assert RebuiltAt(k, marked, m, d);
      RebuiltSb(c, k, marked, m, d);
      RebuiltBig(c, k, marked, m, d);
    }
    MakeShared(c, m);
  }

  /** A heap rebuilt as specified satisfies the allocator's invariant, with empty caches. */
  lemma RebuiltInv(c: Config, k: Crashed, marked: seq<int>, desc: int -> Desc, link: Block -> Link,
                   heads: int -> Head, avail: Head)
    requires Sweepable(c, k, marked) && Swept(k, marked, desc, link, heads, avail.ptr, k.frontier)
    ensures Inv(Restarted(c, Rebuilt(k, marked, desc, link, heads, avail)))
  {
    var m := Rebuilt(k, marked, desc, link, heads, avail);
    RebuiltShared(c, k, marked, desc, link, heads, avail);
    NoOneHolds(k, marked, m);
    forall t ensures ThreadInv(c, m, t, EmptyThread) { MakeThread(c, m, t, EmptyThread); }
  }

  lemma NoOneHolds(k: Crashed, marked: seq<int>, m: Mem)
    requires forall d :: m.place(d) == PlaceOf(k, marked, d)
    requires forall b :: m.owner(b) == OwnerOf(k, marked, b)
    ensures forall d :: !m.place(d).HeldUsed? && !m.place(d).HeldFree?
    ensures forall b :: m.owner(b) == App || m.owner(b) == Chained || m.owner(b) == Unused
  {
  }
}
