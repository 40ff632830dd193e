/** The sweep of Ralloc's recovery: one pass over the superblocks and, in step with it, over the
    marked addresses in increasing order.
*/
module RecoverySweep {
  import opened AllocatorState
  import opened AllocatorSteps
  import opened AllocatorInvariant
  import opened AllocatorFrames
  import opened Arith
  import opened SizeClasses
  import opened RecoverySpec

  // ---------- one superblock ----------

  /** A free chain under construction. */
  ghost predicate ChainIs(link: Block -> Link, d: int, q: seq<int>, head: Link, count: int) {
    && LinkedIn(link, d, q) && count == |q|
    && head == if q == [] then Nil else At(Block(d, q[0]))
  }

  ghost predicate OnlySb(link: Block -> Link, link': Block -> Link, d: int) {
    forall b: Block :: b.sb != d ==> link'(b) == link(b)
  }

  /** Nothing but unmarked blocks of superblock d is written to. */
  ghost predicate OnlyFree(k: Crashed, marked: seq<int>, link: Block -> Link, link': Block -> Link, d: int) {
    forall b: Block :: link'(b) != link(b) ==> b.sb == d && !Marked(k, marked, d, b.idx)
  }

  lemma ChainPush(link: Block -> Link, d: int, q: seq<int>, head: Link, count: int, x: int)
    requires ChainIs(link, d, q, head, count) && x !in q
    ensures ChainIs(Upd(link, Block(d, x), head), d, [x] + q, At(Block(d, x)), count + 1)
  {
    var link', q' := Upd(link, Block(d, x), head), [x] + q;
    forall i, j | 0 <= i && j == i + 1 && j < |q'| ensures link'(Block(d, q'[i])) == At(Block(d, q'[j])) {
      if i > 0 {
        var i0, j0 := i - 1, j - 1;
        assert q'[i] == q[i0] && q'[j] == q[j0];
      }
    }
  }

  /** Pushing the unmarked block x, found at its address. */
  lemma PushFree(k: Crashed, marked: seq<int>, d: int, x: int, link: Block -> Link, head: Link, count: int)
    requires k.blockSize(d) >= 1 && 0 <= x && !Marked(k, marked, d, x)
    requires ChainIs(link, d, FreeBelow(k, marked, d, x), head, count)
    ensures (BlockAddr(k, d, x) - d * SBSIZE) / k.blockSize(d) == x
    ensures BlockAddr(k, d, x) + k.blockSize(d) == BlockAddr(k, d, x + 1)
    ensures ChainIs(Upd(link, Block(d, x), head), d, FreeBelow(k, marked, d, x + 1), At(Block(d, x)), count + 1)
  {
    var bs := k.blockSize(d);
    DivUnique(x * bs, bs, x, 0);
    Distrib(x, 1, bs);
    FreeBelowIs(k, marked, d, x);
    ChainPush(link, d, FreeBelow(k, marked, d, x), head, count, x);
  }

  lemma AddrLess(k: Crashed, d: int, x: int, y: int)
    requires k.blockSize(d) >= 1
    ensures BlockAddr(k, d, x) < BlockAddr(k, d, y) <==> x < y
  {
    MulLess(x, y, k.blockSize(d));
  }

  /** The blocks from address `from` up to `to`, none of them marked, are pushed on the chain. */
  method ThreadFree(k: Crashed, ghost marked: seq<int>, d: int, from: int, to: int,
                    link0: Block -> Link, head0: Link, count0: int, ghost i: int, ghost j: int)
    returns (link: Block -> Link, head: Link, count: int)
    requires k.blockSize(d) >= 1 && 0 <= i <= j && from == BlockAddr(k, d, i) && to == BlockAddr(k, d, j)
    requires forall x :: i <= x < j ==> !Marked(k, marked, d, x)
    requires ChainIs(link0, d, FreeBelow(k, marked, d, i), head0, count0)
    ensures ChainIs(link, d, FreeBelow(k, marked, d, j), head, count)
    ensures OnlyFree(k, marked, link0, link, d)
  {
    link, head, count := link0, head0, count0;
    var bs := k.blockSize(d);
    var freeBlock := from;
    ghost var x := i;
    AddrLess(k, d, i, j);
    while freeBlock < to
      invariant i <= x <= j && freeBlock == BlockAddr(k, d, x) && (freeBlock < to <==> x < j)
      invariant ChainIs(link, d, FreeBelow(k, marked, d, x), head, count)
      invariant OnlyFree(k, marked, link0, link, d)
      decreases j - x
    {
      var idx := (freeBlock - d * SBSIZE) / bs;
      PushFree(k, marked, d, x, link, head, count);
      AddrLess(k, d, x + 1, j);
      link := Upd(link, Block(d, idx), head);
      head := At(Block(d, idx));
      count := count + 1;
      freeBlock := freeBlock + bs;
      x := x + 1;
    }
  }

  /** Marks before pos lie below superblock d, the others at or above it. */
  ghost predicate Cursor(marked: seq<int>, pos: int, d: int) {
    && 0 <= pos <= |marked|
    && (forall i :: 0 <= i < pos ==> SbOf(marked[i]) < d)
    && (forall i :: pos <= i < |marked| ==> SbOf(marked[i]) >= d)
  }

  /** How far the scan of a small superblock has come: `last` is block i of it, the unmarked
      blocks below i are chained. */
  ghost predicate Scanned(k: Crashed, marked: seq<int>, d: int, link: Block -> Link,
                          last: int, head: Link, count: int, i: int) {
    && 0 <= i <= k.desc(d).maxcount && last == BlockAddr(k, d, i)
    && ChainIs(link, d, FreeBelow(k, marked, d, i), head, count)
  }

  /** The blocks from i on up to the next mark are unmarked. */
  lemma NoneBetween(k: Crashed, marked: seq<int>, d: int, pos: int, i: int, j: int)
    requires Increasing(marked) && k.blockSize(d) >= 1 && 0 <= pos <= |marked|
    requires forall p :: 0 <= p < pos ==> marked[p] < BlockAddr(k, d, i)
    requires pos < |marked| ==> BlockAddr(k, d, j) <= marked[pos]
    ensures forall x :: i <= x < j ==> !Marked(k, marked, d, x)
  {
    forall x | i <= x < j ensures !Marked(k, marked, d, x) {
      MulLess(x, i, k.blockSize(d));
      MulLess(x, j, k.blockSize(d));
    }
  }

  lemma SbOfMonotone(a: int, b: int)
    requires a <= b
    ensures SbOf(a) <= SbOf(b)
  {
  }

  /** Once the marks of superblock d are behind it, the cursor is at the next superblock. */
  lemma CursorPast(marked: seq<int>, pos0: int, pos: int, d: int)
    requires Increasing(marked) && Cursor(marked, pos0, d) && pos0 <= pos <= |marked|
    requires forall p :: pos0 <= p < pos ==> SbOf(marked[p]) == d
    requires pos < |marked| ==> SbOf(marked[pos]) != d
    ensures Cursor(marked, pos, d + 1)
    ensures HasMark(marked, d) <==> pos0 < pos
  {
    forall p | pos <= p < |marked| ensures SbOf(marked[p]) >= d + 1 {
      SbOfMonotone(marked[pos], marked[p]);
    }
    if pos0 < pos { assert marked[pos0] in marked; }
  }

  lemma LastRun(k: Crashed, marked: seq<int>, d: int, pos: int, i: int)
    requires Increasing(marked) && k.blockSize(d) >= 1 && 0 <= i <= k.desc(d).maxcount
    requires k.desc(d).maxcount * k.blockSize(d) <= SBSIZE && Cursor(marked, pos, d + 1)
    requires forall p :: 0 <= p < pos ==> marked[p] < BlockAddr(k, d, i)
    ensures forall x :: i <= x < k.desc(d).maxcount ==> !Marked(k, marked, d, x)
  {
    NoneBetween(k, marked, d, pos, i, k.desc(d).maxcount);
  }

  /** The marks before pos lie below `last`; if that is not the start, the last one is just below it. */
  ghost predicate Behind(k: Crashed, marked: seq<int>, d: int, pos: int, last: int, i: int) {
    && 0 <= pos <= |marked| && (forall p :: 0 <= p < pos ==> marked[p] < last)
    && (i == 0 || (pos > 0 && marked[pos - 1] == BlockAddr(k, d, i - 1)))
  }

  /** The blocks up to the next mark of a small superblock are free, the marked one is passed. */
  method ScanMark(k: Crashed, ghost marked: seq<int>, ghost pos: int, a: int, d: int, link0: Block -> Link, last0: int,
                  head0: Link, count0: int, ghost i0: int)
    returns (link: Block -> Link, last: int, head: Link, count: int, ghost i: int)
    requires Increasing(marked) && 0 <= pos < |marked| && a == marked[pos] && k.blockSize(d) >= 1 && IsStart(k, d, a)
    requires Scanned(k, marked, d, link0, last0, head0, count0, i0) && Behind(k, marked, d, pos, last0, i0)
    ensures Scanned(k, marked, d, link, last, head, count, i) && Behind(k, marked, d, pos + 1, last, i)
    ensures OnlyFree(k, marked, link0, link, d)
  {
    ghost var j :| 0 <= j < k.desc(d).maxcount && a == BlockAddr(k, d, j);
    AddrLess(k, d, i0 - 1, j);
    NoneBetween(k, marked, d, pos, i0, j);
    link, head, count := ThreadFree(k, marked, d, last0, a, link0, head0, count0, i0, j);
    last := a + k.blockSize(d);
    i := j + 1;
    MarkedLast(k, marked, d, j);
  }

  /** A marked block adds nothing to the chain. */
  lemma MarkedLast(k: Crashed, marked: seq<int>, d: int, j: int)
    requires j >= 0 && Marked(k, marked, d, j)
    ensures FreeBelow(k, marked, d, j + 1) == FreeBelow(k, marked, d, j)
    ensures BlockAddr(k, d, j) + k.blockSize(d) == BlockAddr(k, d, j + 1)
  {
    Distrib(j, 1, k.blockSize(d));
  }

  /** The marks of superblock d, out of all: they decide whether it is live and, in a small one, which
      blocks up to the last mark are free. `marked` are the marks the sweep will have met at its end. */
  method SweepMarks(ghost c: Config, k: Crashed, all: seq<int>, ghost marked: seq<int>, pos0: int, d: int,
                    link0: Block -> Link)
    returns (pos: int, state: SbState, link: Block -> Link, last: int, head: Link, count: int, ghost i: int)
    requires Sweepable(c, k, marked) && 1 <= d < k.frontier && Cursor(marked, pos0, d)
    requires marked <= all && Eat(all, pos0, d) <= |marked|
    ensures pos == Eat(all, pos0, d)
    ensures Cursor(marked, pos, d + 1) && OnlyFree(k, marked, link0, link, d) && (HasMark(marked, d) <==> pos0 < pos)
    ensures !LiveSmall(k, marked, d) ==> link == link0
    ensures state == Empty <==> !LiveBig(k, marked, d) && !LiveSmall(k, marked, d)
    ensures LiveSmall(k, marked, d) ==>
              && Scanned(k, marked, d, link, last, head, count, i)
              && forall x :: i <= x < k.desc(d).maxcount ==> !Marked(k, marked, d, x)
  {
    SweepableParts(c, k, marked);
    pos, state, link, last, head, count, i := pos0, Empty, link0, d * SBSIZE, Nil, 0, 0;
    while pos < |all| && SbOf(all[pos]) == d
      invariant pos0 <= pos <= |marked| && Eat(all, pos, d) == Eat(all, pos0, d)
      invariant forall p :: pos0 <= p < pos ==> SbOf(marked[p]) == d
      invariant OnlyFree(k, marked, link0, link, d) && (!LiveSmall(k, marked, d) ==> link == link0)
      invariant state == Empty <==> !Usable(k, d) || pos == pos0
      invariant LiveSmall(k, marked, d) ==>
                  Scanned(k, marked, d, link, last, head, count, i) && Behind(k, marked, d, pos, last, i)
    {
      var a := all[pos];
      assert a == marked[pos];
      assert a in marked && HasMark(marked, d);
      if Usable(k, d) {
        if k.desc(d).heap.sc == 0 {
          state := Full;
        } else {
          state := Partial;
          assert LiveSmall(k, marked, d) && SmallOk(c, k, marked, d) && IsStart(k, d, a);
          link, last, head, count, i := ScanMark(k, marked, pos, a, d, link, last, head, count, i);
        }
      }
      pos := pos + 1;
    }
    MarksDone(c, k, marked, pos0, pos, d, last, i);
  }

  lemma MarksDone(c: Config, k: Crashed, marked: seq<int>, pos0: int, pos: int, d: int, last: int, i: int)
    requires Sweepable(c, k, marked) && Cursor(marked, pos0, d) && pos0 <= pos <= |marked|
    requires forall p :: pos0 <= p < pos ==> SbOf(marked[p]) == d
    requires pos < |marked| ==> SbOf(marked[pos]) != d
    requires LiveSmall(k, marked, d) ==>
               0 <= i <= k.desc(d).maxcount && last == BlockAddr(k, d, i) && Behind(k, marked, d, pos, last, i)
    ensures Cursor(marked, pos, d + 1) && (HasMark(marked, d) <==> pos0 < pos)
    ensures LiveSmall(k, marked, d) ==> forall x :: i <= x < k.desc(d).maxcount ==> !Marked(k, marked, d, x)
  {
    SweepableParts(c, k, marked);
    CursorPast(marked, pos0, pos, d);
    if LiveSmall(k, marked, d) {
      assert SmallOk(c, k, marked, d);
      LastRun(k, marked, d, pos, i);
    }
  }

  // ---------- from superblock to superblock ----------

  /** No live large allocation reaches across the start of superblock d. */
  ghost predicate Boundary(k: Crashed, marked: seq<int>, d: int) {
    forall lo :: LiveBig(k, marked, lo) && lo < d ==> lo + k.desc(lo).span <= d
  }

  lemma PlaceAtBoundary(c: Config, k: Crashed, marked: seq<int>, d: int)
    requires Sweepable(c, k, marked) && Boundary(k, marked, d) && 1 <= d < k.frontier
    ensures !LiveBig(k, marked, d) && !LiveSmall(k, marked, d) ==> PlaceOf(k, marked, d) == Avail
    ensures !LiveBig(k, marked, d) ==> Boundary(k, marked, d + 1)
    ensures LiveBig(k, marked, d) ==> Boundary(k, marked, d + k.desc(d).span)
  {
    SweepableParts(c, k, marked);
    if LiveBig(k, marked, d) {
      var n := k.desc(d).span;
      forall lo | LiveBig(k, marked, lo) && lo < d + n ensures lo + k.desc(lo).span <= d + n {
        assert BigOk(k, marked, d) && HasMark(marked, lo);
      }
    }
  }

  lemma {:induction false} PickedSkip(place: int -> Place, p: Place, d: int, d': int)
    requires 1 <= d <= d' && forall e :: d <= e < d' ==> place(e) != p
    ensures Picked(place, p, d') == Picked(place, p, d)
    decreases d'
  {
    if d < d' { PickedSkip(place, p, d, d' - 1); }
  }

  /** A list of superblocks below d is unaffected by what happens from d on. */
  lemma ListBelow(place: int -> Place, p: Place, d: int, head: Ptr, next: int -> Ptr, next': int -> Ptr)
    requires Lists(head, Picked(place, p, d), next) && forall e :: e < d ==> next'(e) == next(e)
    ensures Lists(head, Picked(place, p, d), next')
  {
    PickedIs(place, p, d);
    ListsFrom(head, Picked(place, p, d), next, next');
  }

  lemma ListNext(place: int -> Place, p: Place, d: int, head: Ptr, head': Ptr, next: int -> Ptr, next': int -> Ptr)
    requires d >= 1 && Lists(head, Picked(place, p, d), next) && forall e :: e < d ==> next'(e) == next(e)
    requires if place(d) == p then head' == To(d) && next'(d) == head else head' == head
    ensures Lists(head', Picked(place, p, d + 1), next')
  {
    ListBelow(place, p, d, head, next, next');
    PickedIs(place, p, d);
    if place(d) == p {
      assert Picked(place, p, d + 1) == [d] + Picked(place, p, d);
      assert Picked(place, p, d + 1)[1..] == Picked(place, p, d);
    } else {
      assert Picked(place, p, d + 1) == Picked(place, p, d);
    }
  }

  /** What the sweep writes for one superblock that is not large. */
  ghost predicate WroteOne(k: Crashed, marked: seq<int>, d: int, desc: int -> Desc, desc': int -> Desc,
                           heads: int -> Head, heads': int -> Head, avail: Ptr, avail': Ptr) {
    && (forall e :: e != d ==> desc'(e) == desc(e))
    && DescDone(k, marked, desc', d)
    && (if PlaceOf(k, marked, d) == Avail then avail' == To(d) && desc'(d).nextFree == avail else avail' == avail)
    && forall sc :: if PlaceOf(k, marked, d) == Listed(sc) then
                      heads'(sc).ptr == To(d) && desc'(d).nextPartial == heads(sc).ptr
                    else heads'(sc) == heads(sc)
  }

  /** What is rebuilt below d is not touched by what happens at d. */
  lemma DoneKept(k: Crashed, marked: seq<int>, d: int, desc: int -> Desc, desc': int -> Desc,
                 link: Block -> Link, link': Block -> Link, e: int)
    requires DescDone(k, marked, desc, e) && LinkDone(k, marked, link, e) && desc'(e) == desc(e)
    requires OnlySb(link, link', d) && e != d
    ensures DescDone(k, marked, desc', e) && LinkDone(k, marked, link', e)
  {
  }

  lemma MakeSwept(k: Crashed, marked: seq<int>, desc: int -> Desc, link: Block -> Link,
                  heads: int -> Head, avail: Ptr, d: int)
    requires forall e :: 1 <= e < d ==> DoneAt(k, marked, desc, link, e)
    requires ListsDone(k, marked, desc, heads, avail, d)
    ensures Swept(k, marked, desc, link, heads, avail, d)
  {
    forall e ensures SweptAt(k, marked, desc, link, heads, avail, d, e) {
      assert 1 <= e < d ==> DoneAt(k, marked, desc, link, e);
    }
  }

  lemma ListsOneAt(k: Crashed, marked: seq<int>, d: int, desc: int -> Desc, desc': int -> Desc,
                   heads: int -> Head, heads': int -> Head, avail: Ptr, avail': Ptr, sc: int)
    requires d >= 1 && ListsDoneAt(k, marked, desc, heads, avail, d, sc) && forall e :: e < d ==> desc'(e) == desc(e)
    requires if PlaceOf(k, marked, d) == Avail then avail' == To(d) && desc'(d).nextFree == avail else avail' == avail
    requires if PlaceOf(k, marked, d) == Listed(sc) then heads'(sc).ptr == To(d)
             && desc'(d).nextPartial == heads(sc).ptr
             else heads'(sc).ptr == heads(sc).ptr
    ensures ListsDoneAt(k, marked, desc', heads', avail', d + 1, sc)
  {
    ListNext(PlaceMap(k, marked), Avail, d, avail, avail', FreeNext(desc), FreeNext(desc'));
    ListNext(PlaceMap(k, marked), Listed(sc), d, heads(sc).ptr, heads'(sc).ptr, PartialNext(desc), PartialNext(desc'));
  }

  lemma ListsOne(k: Crashed, marked: seq<int>, d: int, desc: int -> Desc, desc': int -> Desc,
                 heads: int -> Head, heads': int -> Head, avail: Ptr, avail': Ptr)
    requires d >= 1 && ListsDone(k, marked, desc, heads, avail, d)
    requires WroteOne(k, marked, d, desc, desc', heads, heads', avail, avail')
    ensures ListsDone(k, marked, desc', heads', avail', d + 1)
  {
    var d' := d + 1;
    forall sc ensures ListsDoneAt(k, marked, desc', heads', avail', d', sc) {
      assert ListsDoneAt(k, marked, desc, heads, avail, d, sc);
      ListsOneAt(k, marked, d, desc, desc', heads, heads', avail, avail', sc);
    }
  }

  lemma DoneOne(k: Crashed, marked: seq<int>, d: int, desc: int -> Desc, desc': int -> Desc, link: Block -> Link,
                link': Block -> Link, heads: int -> Head, heads': int -> Head, avail: Ptr, avail': Ptr)
    requires d >= 1 && Swept(k, marked, desc, link, heads, avail, d)
    requires WroteOne(k, marked, d, desc, desc', heads, heads', avail, avail')
    requires OnlySb(link, link', d) && LinkDone(k, marked, link', d)
    ensures Swept(k, marked, desc', link', heads', avail', d + 1)
  {
    SweptParts(k, marked, desc, link, heads, avail, d);
    forall e | 1 <= e < d + 1 ensures DoneAt(k, marked, desc', link', e) {
      if e < d { DoneKept(k, marked, d, desc, desc', link, link', e); }
    }
    ListsOne(k, marked, d, desc, desc', heads, heads', avail, avail');
    MakeSwept(k, marked, desc', link', heads', avail', d + 1);
  }

  ghost predicate InBig(k: Crashed, marked: seq<int>, d: int, n: int, e: int) {
    PlaceOf(k, marked, e) == Big(d, n) && !LiveSmall(k, marked, e)
  }

  lemma BigRange(c: Config, k: Crashed, marked: seq<int>, d: int)
    requires Sweepable(c, k, marked) && LiveBig(k, marked, d)
    ensures k.desc(d).span >= 1
    ensures forall e :: d <= e < d + k.desc(d).span ==> InBig(k, marked, d, k.desc(d).span, e)
  {
    SweepableParts(c, k, marked);
    assert BigOk(k, marked, d);
    forall e | d <= e < d + k.desc(d).span ensures InBig(k, marked, d, k.desc(d).span, e) {
      assert Covers(k, marked, d, e);
      CoveredIsBig(c, k, marked, d, e);
    }
  }

  lemma ListsBig(k: Crashed, marked: seq<int>, d: int, n: int, d': int, desc: int -> Desc, desc': int -> Desc,
                 heads: int -> Head, avail: Ptr)
    requires 1 <= d <= d' && ListsDone(k, marked, desc, heads, avail, d)
    requires forall e :: e < d ==> desc'(e) == desc(e)
    requires forall e :: d <= e < d' ==> InBig(k, marked, d, n, e)
    ensures ListsDone(k, marked, desc', heads, avail, d')
  {
    forall e | d <= e < d' ensures PlaceOf(k, marked, e).Big? { assert InBig(k, marked, d, n, e); }
    assert ListsDoneAt(k, marked, desc, heads, avail, d, 0);
    PickedSkip(PlaceMap(k, marked), Avail, d, d');
    ListBelow(PlaceMap(k, marked), Avail, d, avail, FreeNext(desc), FreeNext(desc'));
    forall sc ensures ListsDoneAt(k, marked, desc', heads, avail, d', sc) {
      assert ListsDoneAt(k, marked, desc, heads, avail, d, sc);
      PickedSkip(PlaceMap(k, marked), Listed(sc), d, d');
      ListBelow(PlaceMap(k, marked), Listed(sc), d, heads(sc).ptr, PartialNext(desc), PartialNext(desc'));
    }
  }

  /** What the sweep writes for a live large allocation. */
  ghost predicate WroteBig(k: Crashed, d: int, desc: int -> Desc, desc': int -> Desc) {
    && (forall e :: e != d ==> desc'(e) == desc(e))
    && desc'(d) == Reset(k.desc(d), Null, Anchor(0, 0, Full))
  }

  lemma DoneBig(c: Config, k: Crashed, marked: seq<int>, d: int, desc: int -> Desc, desc': int -> Desc,
                link: Block -> Link, link': Block -> Link, heads: int -> Head, avail: Ptr)
    requires Sweepable(c, k, marked) && LiveBig(k, marked, d)
    requires d >= 1 && Swept(k, marked, desc, link, heads, avail, d)
    requires WroteBig(k, d, desc, desc') && OnlySb(link, link', d)
    ensures Swept(k, marked, desc', link', heads, avail, d + k.desc(d).span)
  {
    BigRange(c, k, marked, d);
    DoneRange(k, marked, d, k.desc(d).span, desc, desc', link, link', heads, avail);
  }

  lemma DoneInBig(k: Crashed, marked: seq<int>, d: int, n: int, desc': int -> Desc, link': Block -> Link, e: int)
    requires InBig(k, marked, d, n, e) && n == k.desc(d).span
    requires desc'(d) == Reset(k.desc(d), Null, Anchor(0, 0, Full))
    ensures DescDone(k, marked, desc', e) && LinkDone(k, marked, link', e)
  {
  }

  ghost predicate DoneAt(k: Crashed, marked: seq<int>, desc: int -> Desc, link: Block -> Link, e: int) {
    DescDone(k, marked, desc, e) && LinkDone(k, marked, link, e)
  }

  lemma DoneInRange(k: Crashed, marked: seq<int>, d: int, n: int, desc: int -> Desc, desc': int -> Desc,
                    link: Block -> Link, link': Block -> Link, heads: int -> Head, avail: Ptr, e: int)
    requires SweptAt(k, marked, desc, link, heads, avail, d, e) && d <= e ==> InBig(k, marked, d, n, e)
    requires SweptAt(k, marked, desc, link, heads, avail, d, e) && 1 <= e < d + n && n == k.desc(d).span
    requires WroteBig(k, d, desc, desc') && OnlySb(link, link', d)
    ensures DoneAt(k, marked, desc', link', e)
  {
    if e < d {
      DoneKept(k, marked, d, desc, desc', link, link', e);
    } else {
      DoneInBig(k, marked, d, n, desc', link', e);
    }
  }

  lemma DoneRange(k: Crashed, marked: seq<int>, d: int, n: int, desc: int -> Desc, desc': int -> Desc,
                  link: Block -> Link, link': Block -> Link, heads: int -> Head, avail: Ptr)
    requires n >= 1 && n == k.desc(d).span
    requires forall e :: d <= e < d + n ==> InBig(k, marked, d, n, e)
    requires d >= 1 && Swept(k, marked, desc, link, heads, avail, d)
    requires WroteBig(k, d, desc, desc') && OnlySb(link, link', d)
    ensures Swept(k, marked, desc', link', heads, avail, d + n)
  {
    forall e | 1 <= e < d + n ensures DoneAt(k, marked, desc', link', e) {
      assert SweptAt(k, marked, desc, link, heads, avail, d, e);
      DoneInRange(k, marked, d, n, desc, desc', link, link', heads, avail, e);
    }
    assert ListsDone(k, marked, desc, heads, avail, d) by { assert SweptAt(k, marked, desc, link, heads, avail, d, 0); }
    ListsBig(k, marked, d, n, d + n, desc, desc', heads, avail);
    MakeSwept(k, marked, desc', link', heads, avail, d + n);
  }

  lemma CursorSkip(c: Config, k: Crashed, marked: seq<int>, pos: int, d: int)
    requires Sweepable(c, k, marked) && LiveBig(k, marked, d) && Cursor(marked, pos, d + 1)
    ensures Cursor(marked, pos, d + k.desc(d).span)
  {
    SweepableParts(c, k, marked);
    assert BigOk(k, marked, d);
    forall p | pos <= p < |marked| ensures SbOf(marked[p]) >= d + k.desc(d).span {
      var a := marked[p];
      assert a in marked;
      assert HasMark(marked, SbOf(a));
    }
  }

  // ---------- the sweep ----------

  /** The free blocks after the last mark, and then the descriptor and its list. */
  method FinishSmall(ghost c: Config, k: Crashed, ghost marked: seq<int>, d: int, desc0: int -> Desc,
                     link0: Block -> Link, heads0: int -> Head, last: int, head0: Link, count0: int, ghost i: int)
    returns (desc: int -> Desc, link: Block -> Link, heads: int -> Head)
    requires Sweepable(c, k, marked) && LiveSmall(k, marked, d) && 1 <= d < k.frontier && desc0(d) == k.desc(d)
    requires Scanned(k, marked, d, link0, last, head0, count0, i)
    requires forall x :: i <= x < k.desc(d).maxcount ==> !Marked(k, marked, d, x)
    ensures WroteOne(k, marked, d, desc0, desc, heads0, heads, Null, Null)
    ensures OnlyFree(k, marked, link0, link, d) && LinkDone(k, marked, link, d)
  {
    SweepableParts(c, k, marked);
    LiveChain(c, k, marked, d);
    var bs, mx := k.blockSize(d), desc0(d).maxcount;
    var head, count;
    link, head, count := ThreadFree(k, marked, d, last, d * SBSIZE + mx * bs, link0, head0, count0, i, mx);
    desc, heads := desc0, heads0;
    if count == 0 {
      desc := Upd(desc, d, desc(d).(nextFree := Null, nextPartial := Null, anchor := Anchor(mx, 0, Full)));
    } else {
      var sc := desc(d).heap.sc;
      desc := Upd(desc, d, desc(d).(nextFree := Null, nextPartial := heads(sc).ptr));
      heads := Upd(heads, sc, Head(To(d), heads(sc).cnt + 1));
      desc := Upd(desc, d, desc(d).(anchor := Anchor(head.b.idx, count, Partial)));
    }
  }

  ghost predicate ProgressAt(k: Crashed, marked: seq<int>, pos: int, d: int, desc: int -> Desc, link: Block -> Link,
                             heads: int -> Head, avail: Ptr, e: int) {
    && 1 <= d <= k.frontier && Boundary(k, marked, d) && Cursor(marked, pos, d)
    && (e >= d ==> desc(e) == k.desc(e))
    && SweptAt(k, marked, desc, link, heads, avail, d, e)
  }

  /** How far the sweep has come when it turns to superblock d: the marks below d are behind it,
      everything below d is rebuilt and nothing from d on is touched. */
  ghost predicate Progress(k: Crashed, marked: seq<int>, pos: int, d: int, desc: int -> Desc, link: Block -> Link,
                           heads: int -> Head, avail: Ptr) {
    forall e :: ProgressAt(k, marked, pos, d, desc, link, heads, avail, e)
  }

  lemma ProgressParts(k: Crashed, marked: seq<int>, pos: int, d: int, desc: int -> Desc, link: Block -> Link,
                      heads: int -> Head, avail: Ptr)
    requires Progress(k, marked, pos, d, desc, link, heads, avail)
    ensures 1 <= d <= k.frontier && Boundary(k, marked, d) && Cursor(marked, pos, d)
    ensures forall e :: e >= d ==> desc(e) == k.desc(e)
    ensures Swept(k, marked, desc, link, heads, avail, d)
  {
    assert ProgressAt(k, marked, pos, d, desc, link, heads, avail, 0);
    forall e ensures SweptAt(k, marked, desc, link, heads, avail, d, e) && (e >= d ==> desc(e) == k.desc(e)) {
      assert ProgressAt(k, marked, pos, d, desc, link, heads, avail, e);
    }
  }

  lemma ProgressHere(k: Crashed, marked: seq<int>, pos: int, d: int, desc: int -> Desc, link: Block -> Link,
                     heads: int -> Head, avail: Ptr)
    requires Progress(k, marked, pos, d, desc, link, heads, avail)
    ensures d >= 1 && Cursor(marked, pos, d) && desc(d) == k.desc(d)
  {
    assert ProgressAt(k, marked, pos, d, desc, link, heads, avail, d);
  }

  lemma MakeProgress(k: Crashed, marked: seq<int>, pos: int, d: int, desc: int -> Desc, link: Block -> Link,
                     heads: int -> Head, avail: Ptr)
    requires 1 <= d <= k.frontier && Boundary(k, marked, d) && Cursor(marked, pos, d)
    requires forall e :: e >= d ==> desc(e) == k.desc(e)
    requires Swept(k, marked, desc, link, heads, avail, d)
    ensures Progress(k, marked, pos, d, desc, link, heads, avail)
  {
    forall e ensures ProgressAt(k, marked, pos, d, desc, link, heads, avail, e) {
      assert SweptAt(k, marked, desc, link, heads, avail, d, e);
    }
  }

  /** A superblock without marks joins avail_sb. */
  lemma ProgressFree(c: Config, k: Crashed, marked: seq<int>, pos0: int, pos: int, d: int, desc: int -> Desc,
                     link: Block -> Link, link': Block -> Link, heads: int -> Head, avail: Ptr)
    requires Sweepable(c, k, marked) && Progress(k, marked, pos0, d, desc, link, heads, avail) && d < k.frontier
    requires Cursor(marked, pos, d + 1)
    requires !LiveBig(k, marked, d) && !LiveSmall(k, marked, d) && OnlySb(link, link', d)
    ensures Progress(k, marked, pos, d + 1, Upd(desc, d, FreshDesc.(nextFree := avail)), link', heads, To(d))
  {
    ProgressParts(k, marked, pos0, d, desc, link, heads, avail);
    PlaceAtBoundary(c, k, marked, d);
    var desc' := Upd(desc, d, FreshDesc.(nextFree := avail));
    DoneOne(k, marked, d, desc, desc', link, link', heads, heads, avail, To(d));
    MakeProgress(k, marked, pos, d + 1, desc', link', heads, To(d));
  }

  lemma BigStride(c: Config, k: Crashed, marked: seq<int>, d: int)
    requires Sweepable(c, k, marked) && LiveBig(k, marked, d)
    ensures k.blockSize(d) / SBSIZE == k.desc(d).span && 1 <= k.desc(d).span <= k.frontier - d
  {
    SweepableParts(c, k, marked);
    assert BigOk(k, marked, d);
    DivUnique(k.blockSize(d), SBSIZE, k.desc(d).span, 0);
  }

  lemma ProgressBig(c: Config, k: Crashed, marked: seq<int>, pos0: int, pos: int, d: int, desc: int -> Desc,
                    desc': int -> Desc, link: Block -> Link, link': Block -> Link, heads: int -> Head, avail: Ptr)
    requires Sweepable(c, k, marked) && Progress(k, marked, pos0, d, desc, link, heads, avail) && d < k.frontier
    requires Cursor(marked, pos, d + 1)
    requires LiveBig(k, marked, d) && OnlySb(link, link', d) && WroteBig(k, d, desc, desc')
    ensures k.blockSize(d) / SBSIZE == k.desc(d).span && 1 <= k.desc(d).span <= k.frontier - d
    ensures Progress(k, marked, pos, d + k.desc(d).span, desc', link', heads, avail)
  {
    ProgressParts(k, marked, pos0, d, desc, link, heads, avail);
    BigStride(c, k, marked, d);
    PlaceAtBoundary(c, k, marked, d);
    DoneBig(c, k, marked, d, desc, desc', link, link', heads, avail);
    CursorSkip(c, k, marked, pos, d);
    MakeProgress(k, marked, pos, d + k.desc(d).span, desc', link', heads, avail);
  }

  lemma ProgressSmall(c: Config, k: Crashed, marked: seq<int>, pos0: int, pos: int, d: int, desc: int -> Desc,
                      desc': int -> Desc, link: Block -> Link, link': Block -> Link, heads: int -> Head,
                      heads': int -> Head, avail: Ptr)
    requires Sweepable(c, k, marked) && Progress(k, marked, pos0, d, desc, link, heads, avail) && d < k.frontier
    requires Cursor(marked, pos, d + 1)
    requires LiveSmall(k, marked, d) && OnlySb(link, link', d) && LinkDone(k, marked, link', d)
    requires WroteOne(k, marked, d, desc, desc', heads, heads', Null, Null)
    ensures Progress(k, marked, pos, d + 1, desc', link', heads', avail)
  {
    ProgressParts(k, marked, pos0, d, desc, link, heads, avail);
    PlaceAtBoundary(c, k, marked, d);
    DoneOne(k, marked, d, desc, desc', link, link', heads, heads', avail, avail);
    MakeProgress(k, marked, pos, d + 1, desc', link', heads', avail);
  }

  lemma ProgressEnd(c: Config, k: Crashed, marked: seq<int>, pos: int, desc: int -> Desc, link: Block -> Link,
                    heads: int -> Head, avail: Head)
    requires Sweepable(c, k, marked) && Progress(k, marked, pos, k.frontier, desc, link, heads, avail.ptr)
    ensures pos == |marked| && Swept(k, marked, desc, link, heads, avail.ptr, k.frontier)
    ensures Inv(Restarted(c, Rebuilt(k, marked, desc, link, heads, avail)))
  {
    SweepableParts(c, k, marked);
    ProgressParts(k, marked, pos, k.frontier, desc, link, heads, avail.ptr);
    var i := if pos < |marked| then pos else 0;
    assert |marked| > 0 ==> marked[i] in marked;
    RebuiltInv(c, k, marked, desc, link, heads, avail);
  }

  /** Going on from the next superblock, the iterator ends where it ended going on from this one. */
  lemma FinalStep(c: Config, k: Crashed, all: seq<int>, marked: seq<int>, pos0: int, pos: int, d: int)
    requires Sweepable(c, k, marked) && d < k.frontier && pos == Eat(all, pos0, d)
    requires HasMark(marked, d) <==> pos0 < pos
    ensures LiveBig(k, marked, d) ==> Final(k, all, pos0, d) == Final(k, all, pos, d + k.desc(d).span)
    ensures !LiveBig(k, marked, d) ==> Final(k, all, pos0, d) == Final(k, all, pos, d + 1)
  {
    if LiveBig(k, marked, d) { BigStride(c, k, marked, d); }
  }

  /** Only blocks that were found free are written to: unmarked ones of live small superblocks. */
  ghost predicate Untouched(k: Crashed, marked: seq<int>, link: Block -> Link, link': Block -> Link) {
    forall b: Block :: link'(b) != link(b) ==> LiveSmall(k, marked, b.sb) && !Marked(k, marked, b.sb, b.idx)
  }

  lemma WrittenIsFree(k: Crashed, marked: seq<int>, link: Block -> Link, link1: Block -> Link, link2: Block -> Link,
                      d: int)
    requires OnlyFree(k, marked, link, link1, d) && OnlyFree(k, marked, link1, link2, d)
    requires LiveSmall(k, marked, d) || (link1 == link && link2 == link)
    ensures OnlySb(link, link2, d) && Untouched(k, marked, link, link2)
  {
  }

  /** One round of the sweep: superblock d, or the large allocation that starts there. */
  method SweepOne(ghost c: Config, k: Crashed, all: seq<int>, ghost marked: seq<int>, pos0: int, d0: int,
                  desc0: int -> Desc, link0: Block -> Link, heads0: int -> Head, avail0: Ptr)
    returns (pos: int, d: int, desc: int -> Desc, link: Block -> Link, heads: int -> Head, avail: Ptr)
    requires Sweepable(c, k, marked) && Progress(k, marked, pos0, d0, desc0, link0, heads0, avail0) && d0 < k.frontier
    requires marked <= all && Final(k, all, pos0, d0) == |marked|
    ensures d0 < d <= k.frontier && Progress(k, marked, pos, d, desc, link, heads, avail)
    ensures Final(k, all, pos, d) == |marked| && Untouched(k, marked, link0, link)
  {
    ProgressHere(k, marked, pos0, d0, desc0, link0, heads0, avail0);
    ghost var i;
    var state, last, head, count;
    desc, heads, avail := desc0, heads0, avail0;
    pos, state, link, last, head, count, i := SweepMarks(c, k, all, marked, pos0, d0, link0);
    FinalStep(c, k, all, marked, pos0, pos, d0);
    WrittenIsFree(k, marked, link0, link, link, d0);
    if state == Empty {
      ProgressFree(c, k, marked, pos0, pos, d0, desc0, link0, link, heads0, avail0);
      desc := Upd(desc, d0, FreshDesc.(nextFree := avail));
      avail := To(d0);
      d := d0 + 1;
    } else if desc(d0).heap.sc == 0 {
      desc := Upd(desc, d0, desc(d0).(nextFree := Null, nextPartial := Null, anchor := Anchor(0, 0, Full)));
      ProgressBig(c, k, marked, pos0, pos, d0, desc0, desc, link0, link, heads0, avail0);
      d := d0 + k.blockSize(d0) / SBSIZE;
    } else {
      ghost var link1 := link;
      desc, link, heads := FinishSmall(c, k, marked, d0, desc0, link, heads0, last, head, count, i);
      WrittenIsFree(k, marked, link0, link1, link, d0);
      ProgressSmall(c, k, marked, pos0, pos, d0, desc0, desc, link0, link, heads0, heads, avail0);
      d := d0 + 1;
    }
  }

  /** Rebuilds descriptors, free chains, partial lists and avail_sb from the marks that are met. The
      result satisfies the allocator's invariant with every cache empty. */
  method Sweep(ghost c: Config, k: Crashed, all: seq<int>)
    returns (desc: int -> Desc, link: Block -> Link, heads: int -> Head, avail: Head)
    requires Sweepable(c, k, Met(k, all))
    ensures Swept(k, Met(k, all), desc, link, heads, avail.ptr, k.frontier)
    ensures Inv(Restarted(c, Rebuilt(k, Met(k, all), desc, link, heads, avail)))
    ensures Untouched(k, Met(k, all), k.link, link)
  {
    ghost var marked := Met(k, all);
    desc, link, heads := k.desc, k.link, sc => Head(Null, 0);
    var availSb, pos, d := Null, 0, 1;
    ProgressStart(c, k, marked, heads);
    while d < k.frontier
      invariant d <= k.frontier && Progress(k, marked, pos, d, desc, link, heads, availSb)
      invariant Final(k, all, pos, d) == |marked| && Untouched(k, marked, k.link, link)
      decreases k.frontier - d
    {
      pos, d, desc, link, heads, availSb := SweepOne(c, k, all, marked, pos, d, desc, link, heads, availSb);
    }
    avail := Head(availSb, 0);
    ProgressEnd(c, k, marked, pos, desc, link, heads, avail);
  }

  lemma ProgressStart(c: Config, k: Crashed, marked: seq<int>, heads: int -> Head)
    requires Sweepable(c, k, marked) && forall sc :: heads(sc) == Head(Null, 0)
    ensures k.frontier >= 1 && Progress(k, marked, 0, 1, k.desc, k.link, heads, Null)
  {
    SweepableParts(c, k, marked);
    forall i | 0 <= i < |marked| ensures SbOf(marked[i]) >= 1 { assert marked[i] in marked; }
    forall lo | LiveBig(k, marked, lo) ensures lo >= 1 { var a :| a in marked && SbOf(a) == lo; }
    forall sc ensures ListsDoneAt(k, marked, k.desc, heads, Null, 1, sc) {}
    forall e ensures SweptAt(k, marked, k.desc, k.link, heads, Null, 1, e) {}
    MakeProgress(k, marked, 0, 1, k.desc, k.link, heads, Null);
  }
}
