/** Freeing with coalescing, as a function of the state: it keeps the heap tiled, leaves no two free
    blocks adjacent, and keeps lists and counters right.
*/
module MakaluFree {
  import opened MakaluBlocks
  import opened MakaluLists
  import opened MakaluCoalesce

  /** A free block, not in hand, that ends where page p begins. */
  ghost predicate EndsAt(h: Heap, out: set<int>, p: int, q: int) {
    FreeAt(h, q) && q !in out && q + Len(h.hd(q)) == p
  }

  /** What a caller sees of the block at a page. */
  datatype View = NoBlock | FreeBlock(pages: int) | UsedBlock(size: int)

  ghost function ViewAt(h: Heap, p: int): View {
    if !h.hd(p).Hd? then NoBlock else if h.hd(p).free then FreeBlock(Len(h.hd(p))) else UsedBlock(h.hd(p).sz)
  }

  /** One block of n pages at lo is free; all outside is as before; what it covers was the
      block at p, of len pages, and free neighbours. */
  ghost predicate Freed(h: Heap, h': Heap, p: int, len: int, lo: int, n: int) {
    && lo <= p && p + len <= lo + n
    && ViewAt(h', lo) == FreeBlock(n)
    && (forall e :: lo < e < lo + n ==> ViewAt(h', e) == NoBlock)
    && (forall e :: e < lo || lo + n <= e ==> ViewAt(h', e) == ViewAt(h, e))
    && (lo < p ==> ViewAt(h, lo) == FreeBlock(p - lo))
    && (p + len < lo + n ==> ViewAt(h, p + len) == FreeBlock(lo + n - p - len))
  }

  // ---------- the block before a page ----------

  lemma EndsAtOwns(h: Heap, out: set<int>, p: int, x: int)
    requires Tiled(h, out) && EndsAt(h, out, p, x)
    ensures h.start(p - 1) == x && x != 0
  {
    assert TileAt(h, out, x);
  }

  lemma BlockBefore(h: Heap, out: set<int>, p: int)
    requires Tiled(h, out) && (h.start(p) == 0 || h.start(p) == p) && p >= 1
    ensures var q := h.start(p - 1); q != 0 ==> h.hd(q).Hd? && q < p && q + Len(h.hd(q)) == p
  {
    var q := h.start(p - 1);
    assert TileAt(h, out, p - 1);
    if q != 0 {
      assert TileAt(h, out, q);
      assert p < q + Len(h.hd(q)) ==> h.start(p) == q;
    }
  }

  lemma FoundHeader(h: Heap, out: set<int>, p: int, q: int)
    requires Tiled(h, out) && (h.start(p) == 0 || h.start(p) == p) && p >= 1 && out <= {p}
    requires h.hd(q).Hd? && h.start(q) == h.start(p - 1)
    ensures if h.hd(q).free then q != 0 && EndsAt(h, out, p, q) else forall x :: !EndsAt(h, out, p, x)
  {
    assert TileAt(h, out, q);
    BlockBefore(h, out, p);
    forall x | EndsAt(h, out, p, x) ensures x == q { EndsAtOwns(h, out, p, x); }
  }

  lemma FoundNil(h: Heap, out: set<int>, p: int, x: int, q: int)
    requires Tiled(h, out) && (h.start(p) == 0 || h.start(p) == p) && p >= 1 && out <= {p}
    requires h.hd(x) == Nil && h.start(x) == h.start(p - 1)
    requires (q == 0 || (q < p && h.hd(q).Hd?)) && q >= 0 && forall e :: q < e < p ==> !h.hd(e).Hd?
    ensures if q != 0 && h.hd(q).free && q * HBLKSIZE + h.hd(q).sz == p * HBLKSIZE then EndsAt(h, out, p, q)
            else forall y :: !EndsAt(h, out, p, y)
  {
    BlockBefore(h, out, p);
    if q != 0 && h.hd(q).free { assert TileAt(h, out, q); BlocksSum(h.hd(q).sz, 0); }
    forall y | EndsAt(h, out, p, y) ensures q != 0 && h.hd(q).free && q * HBLKSIZE + h.hd(q).sz == p * HBLKSIZE {
      EndsAtOwns(h, out, p, y);
      assert TileAt(h, out, y);
      InteriorNotFree(h, out, y);
      BlocksSum(h.hd(y).sz, 0);
      assert y == q;
    }
  }

  // ---------- merging with the neighbours ----------

  lemma ViewShape(h: Heap, h': Heap)
    requires Shape(h.hd, h'.hd)
    ensures forall e :: ViewAt(h', e) == ViewAt(h, e)
    ensures forall e ::
              Len(h'.hd(e)) == Len(h.hd(e)) && FreeAt(h', e) == FreeAt(h, e) && SizeOf(h'.hd(e)) == SizeOf(h.hd(e))
  {
    forall e ensures ViewAt(h', e) == ViewAt(h, e) && Len(h'.hd(e)) == Len(h.hd(e)) && FreeAt(h', e) == FreeAt(h, e)
                     && SizeOf(h'.hd(e)) == SizeOf(h.hd(e)) {
      assert ShapeOf(h'.hd(e)) == ShapeOf(h.hd(e));
    }
  }

  ghost function AbsorbNext(h: Heap, x: int): Heap {
    var next := x + Len(h.hd(x));
    if FreeAt(h, next) then Merged(Removed(h, next), x, next) else h
  }

  ghost function AbsorbPrev(h: Heap, p: int, prev: int): Heap {
    if prev == 0 then h else Merged(Removed(h, prev), prev, p)
  }

  /** No free block follows x, none precedes it. */
  ghost predicate NoNext(h: Heap, x: int) { !FreeAt(h, x + Len(h.hd(x))) }
  ghost predicate NoPrev(h: Heap, x: int) { forall q :: !EndsAt(h, {x}, x, q) }

  /** Free blocks of `gained` bytes have left the lists. */
  ghost predicate Grown(h: Heap, h': Heap, gained: int) {
    h'.total == h.total && forall c :: Counted(h, c) ==> Counted(h', c - gained)
  }

  lemma BlockFacts(h: Heap, out: set<int>, p: int)
    requires Good(h, out) && h.hd(p).Hd?
    ensures p >= 1 && Len(h.hd(p)) >= 1 && h.start(p) == p
    ensures h.hd(p).free || p in out ==> Len(h.hd(p)) * HBLKSIZE == h.hd(p).sz
  {
    assert GoodAt(h, out, p);
    if h.hd(p).free || p in out { BlocksSum(h.hd(p).sz, 0); }
  }

  ghost predicate InHand(h: Heap, x: int) { Good(h, {x}) && h.hd(x).Hd? && x >= 1 }

  /** h' is h with the free successor of x, if there is one, made part of x. */
  ghost predicate TookNext(h: Heap, h': Heap, x: int) {
    var next := x + Len(h.hd(x));
    var n := if FreeAt(h, next) then Len(h.hd(next)) else 0;
    && InHand(h', x) && Len(h'.hd(x)) == Len(h.hd(x)) + n && NoNext(h', x) && Grown(h, h', n * HBLKSIZE)
    && forall e :: e != x ==> ViewAt(h', e) == if n > 0 && e == next then NoBlock else ViewAt(h, e)
  }

  lemma AbsorbNextOk(h: Heap, x: int)
    requires InHand(h, x)
    ensures TookNext(h, AbsorbNext(h, x), x)
  {
    var next := x + Len(h.hd(x));
    BlockFacts(h, {x}, x);
    if FreeAt(h, next) {
      BlockFacts(h, {x}, next);
      RemovedOk(h, {x}, next);
      assert {x} + {next} == {x, next};
      MergedNext(h, Removed(h, next), x, next);
    }
  }

  lemma MergedNext(h: Heap, h1: Heap, x: int, next: int)
    requires InHand(h, x) && FreeAt(h, next) && next == x + Len(h.hd(x)) && x < next
    requires Good(h1, {x, next}) && Shape(h.hd, h1.hd) && Grown(h, h1, h.hd(next).sz)
    ensures TookNext(h, Merged(h1, x, next), x)
  {
    ViewShape(h, h1);
    BlockFacts(h, {x}, next);
    assert ShapeOf(h1.hd(x)) == ShapeOf(h.hd(x)) && ShapeOf(h1.hd(next)) == ShapeOf(h.hd(next));
    MergedOk(h1, x, next);
    var h' := Merged(h1, x, next);
    assert h'.hd(x + Len(h'.hd(x))) == h1.hd(next + Len(h.hd(next)));
    assert ApartAt(h, {x}, next) by { assert GoodAt(h, {x}, next); }
  }

  /** h' is h with block p made part of the free block before it, if there is one; x is the result. */
  ghost predicate TookPrev(h: Heap, h': Heap, p: int, prev: int) {
    var x := Lo(p, prev);
    && InHand(h', x) && x + Len(h'.hd(x)) == p + Len(h.hd(p)) && x <= p && NoPrev(h', x)
    && Grown(h, h', (p - x) * HBLKSIZE)
    && forall e :: e != x ==> ViewAt(h', e) == if e == p then NoBlock else ViewAt(h, e)
  }

  ghost predicate PrevFound(h: Heap, p: int, prev: int) {
    if prev == 0 then NoPrev(h, p) else EndsAt(h, {p}, p, prev)
  }

  lemma AbsorbPrevOk(h: Heap, p: int, prev: int)
    requires InHand(h, p) && PrevFound(h, p, prev)
    ensures TookPrev(h, AbsorbPrev(h, p, prev), p, prev)
  {
    if prev != 0 {
      var h1 := Removed(h, prev);
      BlockFacts(h, {p}, p);
      BlockFacts(h, {p}, prev);
      RemovedOk(h, {p}, prev);
      ViewShape(h, h1);
      assert ShapeOf(h1.hd(p)) == ShapeOf(h.hd(p)) && ShapeOf(h1.hd(prev)) == ShapeOf(h.hd(prev));
      assert {p} + {prev} == {prev, p};
      MergedOk(h1, prev, p);
      PrevApart(h, p, prev);
    }
  }

  lemma PrevApart(h: Heap, p: int, prev: int)
    requires InHand(h, p) && EndsAt(h, {p}, p, prev) && Shape(h.hd, Removed(h, prev).hd)
    ensures NoPrev(AbsorbPrev(h, p, prev), prev)
  {
    var h', h1 := AbsorbPrev(h, p, prev), Removed(h, prev);
    ViewShape(h, h1);
    BlockFacts(h, {p}, prev);
    forall q ensures !EndsAt(h', {prev}, prev, q) {
      assert ApartAt(h, {p}, q) by { assert GoodAt(h, {p}, q); }
    }
  }

  // ---------- freeing and adding memory ----------

  /** Where the coalesced block begins and how long it is. */
  ghost function Lo(p: int, prev: int): int { if prev == 0 then p else prev }

  ghost function Span(h: Heap, p: int, prev: int): int {
    var next := p + Len(h.hd(p));
    next - Lo(p, prev) + (if FreeAt(h, next) then Len(h.hd(next)) else 0)
  }

  ghost function Absorbed(h: Heap, p: int, prev: int): Heap { AbsorbNext(AbsorbPrev(h, p, prev), Lo(p, prev)) }

  /** What MAK_newfreehblk and MAK_freehblk do with a block in hand. */
  ghost function Coalesced(h: Heap, p: int, prev: int): Heap { Added(Absorbed(h, p, prev), Lo(p, prev)) }

  /** h' is h with p and its free neighbours made one block, in hand. */
  ghost predicate TookBoth(h: Heap, h': Heap, p: int, prev: int) {
    var x, n := Lo(p, prev), Span(h, p, prev);
    && InHand(h', x) && Len(h'.hd(x)) == n && NoNext(h', x) && NoPrev(h', x)
    && Grown(h, h', (n - Len(h.hd(p))) * HBLKSIZE)
    && forall e :: e < x || x + n <= e ==> ViewAt(h', e) == ViewAt(h, e)
  }

  lemma TakeBoth(h: Heap, h1: Heap, h2: Heap, p: int, prev: int)
    requires InHand(h, p) && PrevFound(h, p, prev) && TookPrev(h, h1, p, prev) && TookNext(h1, h2, Lo(p, prev))
    ensures TookBoth(h, h2, p, prev)
  {
    var x, next := Lo(p, prev), p + Len(h.hd(p));
    BlockFacts(h, {p}, p);
    assert ViewAt(h1, next) == ViewAt(h, next);
    if FreeAt(h, next) { BlockFacts(h, {p}, next); }
    NoPrevKept(h1, h2, x);
    GrownTwice(h, h1, h2, (p - x) * HBLKSIZE, (if FreeAt(h, next) then Len(h.hd(next)) else 0) * HBLKSIZE);
  }

  lemma GrownTwice(h: Heap, h1: Heap, h2: Heap, a: int, b: int)
    requires Grown(h, h1, a) && Grown(h1, h2, b)
    ensures Grown(h, h2, a + b)
  {
    forall c | Counted(h, c) ensures Counted(h2, c - (a + b)) { assert Counted(h1, c - a); }
  }

  lemma NoPrevKept(h: Heap, h': Heap, x: int)
    requires InHand(h, x) && NoPrev(h, x) && TookNext(h, h', x)
    ensures NoPrev(h', x)
  {
    forall q ensures !EndsAt(h', {x}, x, q) {
      assert !EndsAt(h, {x}, x, q);
      assert q != x ==> ViewAt(h', q) == NoBlock || ViewAt(h', q) == ViewAt(h, q);
    }
  }

  /** Block p and its free neighbours become one free block; the rest is as before. */
  lemma CoalescedOk(h: Heap, p: int, prev: int)
    requires InHand(h, p) && PrevFound(h, p, prev)
    ensures Good(Coalesced(h, p, prev), {}) && Coalesced(h, p, prev).total == h.total
    ensures forall c :: Counted(h, c) ==> Counted(Coalesced(h, p, prev), c + Len(h.hd(p)) * HBLKSIZE)
    ensures Freed(h, Coalesced(h, p, prev), p, Len(h.hd(p)), Lo(p, prev), Span(h, p, prev))
  {
    AbsorbPrevOk(h, p, prev);
    AbsorbNextOk(AbsorbPrev(h, p, prev), Lo(p, prev));
    TakeBoth(h, AbsorbPrev(h, p, prev), Absorbed(h, p, prev), p, prev);
    PutOnList(h, Absorbed(h, p, prev), p, prev);
  }

  lemma PutOnList(h: Heap, h2: Heap, p: int, prev: int)
    requires InHand(h, p) && PrevFound(h, p, prev) && TookBoth(h, h2, p, prev)
    ensures var h' := Added(h2, Lo(p, prev));
            && Good(h', {}) && h'.total == h.total
            && (forall c :: Counted(h, c) ==> Counted(h', c + Len(h.hd(p)) * HBLKSIZE))
            && Freed(h, h', p, Len(h.hd(p)), Lo(p, prev), Span(h, p, prev))
  {
    var x, h' := Lo(p, prev), Added(h2, Lo(p, prev));
    forall e | FreeAt(h2, e) && e != x ensures e + Len(h2.hd(e)) != x { assert !EndsAt(h2, {x}, x, e); }
    AddedOk(h2, x);
    AddedView(h2, x);
    BlockFacts(h2, {x}, x);
    forall c | Counted(h, c) ensures Counted(h', c + Len(h.hd(p)) * HBLKSIZE) {
      assert Counted(h2, c - (Span(h, p, prev) - Len(h.hd(p))) * HBLKSIZE);
    }
    Parts(h', {});
    InteriorView(h', x);
    FreedFrom(h, h', p, prev);
  }

  lemma FreedFrom(h: Heap, h': Heap, p: int, prev: int)
    requires InHand(h, p) && PrevFound(h, p, prev)
    requires var x, n := Lo(p, prev), Span(h, p, prev);
             && ViewAt(h', x) == FreeBlock(n) && (forall e :: x < e < x + n ==> ViewAt(h', e) == NoBlock)
             && forall e :: e < x || x + n <= e ==> ViewAt(h', e) == ViewAt(h, e)
    ensures Freed(h, h', p, Len(h.hd(p)), Lo(p, prev), Span(h, p, prev))
  {
    BlockFacts(h, {p}, p);
    if prev != 0 { BlockFacts(h, {p}, prev); }
    var next := p + Len(h.hd(p));
    if FreeAt(h, next) { BlockFacts(h, {p}, next); }
  }

  lemma AddedView(h: Heap, x: int)
    requires h.hd(x).Hd? && Shape(Upd(h.hd, x, h.hd(x).(free := true)), Added(h, x).hd)
    ensures ViewAt(Added(h, x), x) == FreeBlock(Len(h.hd(x)))
    ensures forall e :: e != x ==> ViewAt(Added(h, x), e) == ViewAt(h, e)
  {
    var hd1 := Upd(h.hd, x, h.hd(x).(free := true));
    forall e ensures ViewAt(Added(h, x), e) == if e == x then FreeBlock(Len(h.hd(x))) else ViewAt(h, e) {
      assert ShapeOf(Added(h, x).hd(e)) == ShapeOf(hd1(e));
    }
  }

  lemma InteriorView(h: Heap, x: int)
    requires Tiled(h, {}) && h.hd(x).Hd?
    ensures forall e :: x < e < x + Len(h.hd(x)) ==> ViewAt(h, e) == NoBlock
  {
    InteriorNotFree(h, {}, x);
  }
}
