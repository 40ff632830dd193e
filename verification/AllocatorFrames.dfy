/** The kinds of change a step makes to the shared state, and why each keeps the
    shared invariant and stays within what other threads rely on.
*/
module AllocatorFrames {
  import opened AllocatorState
  import opened AllocatorSteps
  import opened AllocatorInvariant

  // ---------- lists ----------

  lemma {:induction false} ListsFrom(p: Ptr, lst: seq<int>, next: int -> Ptr, next': int -> Ptr)
    requires Lists(p, lst, next) && forall d :: d in lst ==> next'(d) == next(d)
    ensures Lists(p, lst, next')
    decreases |lst|
  {
    if lst != [] {
      var d := lst[0];
      assert d in lst;
      ListsFrom(next(d), lst[1..], next, next');
    }
  }

  lemma ListSame(k: Stack, next: int -> Ptr, next': int -> Ptr)
    requires forall d :: d in k.lst ==> next'(d) == next(d)
    ensures ListRely(k, k, next, next')
    ensures ListInv(k, next) ==> ListInv(k, next')
  {
    if ListInv(k, next) { ListsFrom(k.head.ptr, k.lst, next, next'); }
  }

  /** The lists and the links of everything on them are as before. */
  ghost predicate ListsKept(m: Mem, m': Mem) {
    && m'.partialList == m.partialList && m'.availSb == m.availSb
    && (forall sc, d :: d in m.partialList(sc).lst ==> m'.desc(d).nextPartial == m.desc(d).nextPartial)
    && (forall d :: d in m.availSb.lst ==> m'.desc(d).nextFree == m.desc(d).nextFree)
    && (forall sc, d :: m'.place(d) == Listed(sc) <==> m.place(d) == Listed(sc))
    && (forall d :: m'.place(d) == Avail <==> m.place(d) == Avail)
  }

  lemma ListsFrame(m: Mem, m': Mem)
    requires StacksInv(m) && ListsKept(m, m')
    ensures StacksInv(m') && ListsRely(m, m')
  {
    forall sc ensures ListInv(m'.partialList(sc), PartialNext(m'.desc))
                      && ListRely(m.partialList(sc), m'.partialList(sc), PartialNext(m.desc), PartialNext(m'.desc)) {
      assert ListInv(m.partialList(sc), PartialNext(m.desc));
      ListSame(m.partialList(sc), PartialNext(m.desc), PartialNext(m'.desc));
    }
    ListSame(m.availSb, FreeNext(m.desc), FreeNext(m'.desc));
  }

  lemma ListPop(k: Stack, next: int -> Ptr)
    requires ListInv(k, next) && k.lst != []
    ensures var k' := Stack(Head(next(k.lst[0]), k.head.cnt), k.lst[1..]);
            ListInv(k', next) && ListRely(k, k', next, next)
            && forall d :: d in k'.lst <==> d in k.lst && d != k.lst[0]
  {
    assert k.lst == [k.lst[0]] + k.lst[1..];
  }

  lemma IotaHead(lo: int, n: int, lst: seq<int>)
    requires n >= 1
    ensures Iota(lo, n) + lst == [lo] + (Iota(lo + 1, n - 1) + lst)
    ensures forall d :: d in Iota(lo, n) + lst <==> lo <= d < lo + n || d in lst
  {
    assert Iota(lo, n) == [lo] + Iota(lo + 1, n - 1);
    forall d | lo <= d < lo + n ensures d in Iota(lo, n) { assert Iota(lo, n)[d - lo] == d; }
  }

  /** Pushing the run lo .. lo + n, whose links are in place. */
  lemma {:induction false} ListsPush(p: Ptr, lst: seq<int>, lo: int, n: int, next: int -> Ptr)
    requires Lists(p, lst, next) && n >= 1
    requires forall d :: lo <= d < lo + n - 1 ==> next(d) == To(d + 1)
    requires next(lo + n - 1) == p
    requires forall d :: lo <= d < lo + n ==> d !in lst
    ensures Lists(To(lo), Iota(lo, n) + lst, next)
    decreases n
  {
    var rest := Iota(lo + 1, n - 1) + lst;
    IotaHead(lo, n, lst);
    if n == 1 {
      assert rest == lst;
    } else {
      ListsPush(p, lst, lo + 1, n - 1, next);
      IotaHead(lo + 1, n - 1, lst);
    }
    assert (Iota(lo, n) + lst)[1..] == rest;
  }

  lemma ListPush(k: Stack, lo: int, n: int, next: int -> Ptr)
    requires ListInv(k, next) && n >= 1
    requires forall d :: lo <= d < lo + n - 1 ==> next(d) == To(d + 1)
    requires next(lo + n - 1) == k.head.ptr
    requires forall d :: lo <= d < lo + n ==> d !in k.lst
    ensures var k' := Stack(Head(To(lo), k.head.cnt + 1), Iota(lo, n) + k.lst);
            ListInv(k', next) && ListRely(k, k', next, next)
            && forall d :: d in k'.lst <==> lo <= d < lo + n || d in k.lst
  {
    ListsPush(k.head.ptr, k.lst, lo, n, next);
    IotaHead(lo, n, k.lst);
  }

  // ---------- superblocks ----------

  /** Nothing about superblock `d` that its invariant speaks of has changed, except that
      blocks may move between caches, hands and the application. */
  ghost predicate SbSame(m: Mem, m': Mem, d: int) {
    && m'.desc(d).heap == m.desc(d).heap && m'.desc(d).maxcount == m.desc(d).maxcount
    && m'.desc(d).anchor == m.desc(d).anchor
    && m'.place(d) == m.place(d) && m'.chain(d) == m.chain(d)
    && m'.emptied(d) == m.emptied(d) && m'.retired(d) == m.retired(d)
    && (0 <= d < m'.frontier <==> 0 <= d < m.frontier)
    && forall i :: (m'.owner(Block(d, i)) == Unused <==> m.owner(Block(d, i)) == Unused)
        && (m'.owner(Block(d, i)) == Chained <==> m.owner(Block(d, i)) == Chained)
        && (m.owner(Block(d, i)) == Chained ==> m'.link(Block(d, i)) == m.link(Block(d, i)))
  }

  lemma SbFrame(c: Config, m: Mem, m': Mem, d: int)
    requires SbInv(c, m, d) && SbSame(m, m', d)
    ensures SbInv(c, m', d)
  {
  }

  ghost predicate BigKept(m: Mem, m': Mem) {
    forall d :: m.place(d).Big? || m'.place(d).Big? ==> m'.place(d) == m.place(d) && m'.desc(d) == m.desc(d)
  }

  lemma BigFrame(m: Mem, m': Mem)
    requires (forall d :: BigInv(m, d)) && BigKept(m, m')
    ensures forall d :: BigInv(m', d)
  {
    forall d ensures BigInv(m', d) {
      assert BigInv(m, d);
    }
  }

  // ---------- kinds of steps ----------

  lemma RelySame(m: Mem)
    ensures forall u :: Rely(m, m, u)
  {
    forall sc ensures ListRely(m.partialList(sc), m.partialList(sc), PartialNext(m.desc), PartialNext(m.desc)) {
      ListSame(m.partialList(sc), PartialNext(m.desc), PartialNext(m.desc));
    }
    ListSame(m.availSb, FreeNext(m.desc), FreeNext(m.desc));
    forall u, sc ensures RelyAt(m, m, u, sc) {}
  }

  /** A step that only reads and moves the program counter. */
  ghost predicate OnlyMoves(c: Config, m: Mem, th: Thread, o: Out) {
    o.m == m && o.th.bins == th.bins && HoldOf(o.th.pc) == HoldOf(th.pc) && LocalInv(c, m, o.th)
  }

  lemma Moves(c: Config, m: Mem, t: int, th: Thread, o: Out)
    requires SharedInv(c, m) && ThreadInv(c, m, t, th) && OnlyMoves(c, m, th, o)
    ensures Good(c, m, t, o)
  {
    RelySame(m);
    Threads(c, m, t, th);
    MakeThread(c, m, t, o.th);
  }

  ghost predicate Movable(o: Owner, t: int) {
    o == App || Mine(o, t)
  }

  /** Blocks move between thread t and the application, and their links may be rewritten. */
  ghost predicate BlocksMoved(m: Mem, m': Mem, t: int) {
    && m' == m.(owner := m'.owner, link := m'.link)
    && forall b :: (m'.owner(b) == m.owner(b) && m'.link(b) == m.link(b))
                   || (Movable(m.owner(b), t) && Movable(m'.owner(b), t))
                   || (m'.owner(b) == m.owner(b) == Unused && m.place(b.sb) == HeldFree(t))
  }

  lemma BlocksMoveSb(c: Config, m: Mem, m': Mem, t: int, d: int)
    requires SbInv(c, m, d) && BlocksMoved(m, m', t)
    ensures SbInv(c, m', d)
  {
    SbFrame(c, m, m', d);
  }

  lemma BlocksMoveOwn(m: Mem, m': Mem, t: int, u: int)
    requires BlocksMoved(m, m', t) && u != t
    requires forall b: Block :: !InUse(m.place(b.sb)) ==> m.owner(b) == Unused
    ensures OwnRely(m, m', u)
  {
    forall d, i | m.place(d) == HeldFree(u) ensures m'.link(Block(d, i)) == m.link(Block(d, i)) {
      assert m.owner(Block(d, i)) == Unused;
    }
  }

  lemma BlocksMove(c: Config, m: Mem, m': Mem, t: int)
    requires SharedInv(c, m) && BlocksMoved(m, m', t)
    ensures SharedInv(c, m')
    ensures forall u :: u != t ==> Rely(m, m', u)
  {
    Shared(c, m);
    forall d ensures SbInv(c, m', d) { BlocksMoveSb(c, m, m', t, d); }
    BigFrame(m, m');
    ListsFrame(m, m');
    UnusedOutside(c, m);
    MakeShared(c, m');
    forall u | u != t ensures OwnRely(m, m', u) { BlocksMoveOwn(m, m', t, u); }
    MakeRely(m, m', t);
  }

  /** Descriptors in the hand of t are rewritten; of a used one only the list link. */
  ghost predicate DescsMoved(m: Mem, m': Mem, t: int) {
    && m' == m.(desc := m'.desc)
    && forall d :: m'.desc(d) == m.desc(d)
                   || m.place(d) == HeldFree(t)
                   || (m.place(d) == HeldUsed(t) && m'.desc(d) == m.desc(d).(nextPartial := m'.desc(d).nextPartial))
  }

  lemma DescsMoveSb(c: Config, m: Mem, m': Mem, t: int, d: int)
    requires SbInv(c, m, d) && DescsMoved(m, m', t)
    ensures SbInv(c, m', d)
  {
    if m.place(d) != HeldFree(t) { SbFrame(c, m, m', d); }
  }

  lemma DescsMoveOwn(m: Mem, m': Mem, t: int, u: int)
    requires DescsMoved(m, m', t) && u != t
    requires forall b: Block :: !InUse(m.place(b.sb)) ==> m.owner(b) == Unused
    ensures OwnRely(m, m', u)
  {
  }

  lemma DescsMoveLists(m: Mem, m': Mem, t: int)
    requires DescsMoved(m, m', t) && StacksInv(m)
    ensures StacksInv(m') && ListsRely(m, m')
  {
    ListsFrame(m, m');
  }

  lemma DescsMove(c: Config, m: Mem, m': Mem, t: int)
    requires SharedInv(c, m) && DescsMoved(m, m', t)
    ensures SharedInv(c, m')
    ensures forall u :: u != t ==> Rely(m, m', u)
  {
    Shared(c, m);
    forall d ensures SbInv(c, m', d) { DescsMoveSb(c, m, m', t, d); }
    BigFrame(m, m');
    DescsMoveLists(m, m', t);
    UnusedOutside(c, m);
    MakeShared(c, m');
    forall u | u != t ensures OwnRely(m, m', u) { DescsMoveOwn(m, m', t, u); }
    MakeRely(m, m', t);
  }

  lemma UnusedOutside(c: Config, m: Mem)
    requires SharedInv(c, m)
    ensures GoodConfig(c) && forall b: Block :: !InUse(m.place(b.sb)) ==> m.owner(b) == Unused
  {
    assert SharedAt(c, m, 0);
    forall b: Block | !InUse(m.place(b.sb)) ensures m.owner(b) == Unused {
      assert SharedAt(c, m, b.sb) && m.owner(Block(b.sb, b.idx)) == Unused;
    }
  }

  /** The blocks and class of a cache are as before. */
  lemma BinFrame(c: Config, m: Mem, m': Mem, t: int, sc: int, bin: Bin)
    requires BinInv(c, m, t, sc, bin)
    requires forall b :: m.owner(b) == Cached(t, sc) || m'.owner(b) == Cached(t, sc) ==>
               && m'.owner(b) == m.owner(b) && m'.link(b) == m.link(b)
               && m'.desc(b.sb).heap == m.desc(b.sb).heap
    ensures BinInv(c, m', t, sc, bin)
  {
  }
}
