/** The steps of malloc keep the invariant: popping a partial superblock, taking its blocks,
    building a new superblock, and handing out a block.
*/
module AllocatorFill {
  import opened AllocatorState
  import opened AllocatorSteps
  import opened AllocatorInvariant
  import opened AllocatorFrames
  import opened AllocatorTransfers

  /** The caches of t other than that of class sc are untouched. */
  lemma OtherBins(c: Config, m: Mem, m': Mem, t: int, sc: int, bins: int -> Bin)
    requires forall x :: x != sc ==> BinInv(c, m, t, x, bins(x))
    requires forall b: Block :: CachedElsewhere(m.owner(b), t, sc) || CachedElsewhere(m'.owner(b), t, sc) ==>
               && m'.owner(b) == m.owner(b) && m'.link(b) == m.link(b)
               && m'.desc(b.sb).heap == m.desc(b.sb).heap
    ensures forall x :: x != sc ==> BinInv(c, m', t, x, bins(x))
  {
    forall x | x != sc ensures BinInv(c, m', t, x, bins(x)) {
      assert BinInv(c, m, t, x, bins(x));
      BinFrame(c, m, m', t, x, bins(x));
    }
  }

  ghost predicate CachedElsewhere(o: Owner, t: int, sc: int) {
    o.Cached? && o.t == t && o.sc != sc
  }

  /** The caches of t are untouched. */
  lemma BinsFrame(c: Config, m: Mem, m': Mem, t: int, bins: int -> Bin)
    requires forall sc :: BinInv(c, m, t, sc, bins(sc))
    requires forall b: Block ::
               (m.owner(b).Cached? && m.owner(b).t == t) || (m'.owner(b).Cached? && m'.owner(b).t == t) ==>
               && m'.owner(b) == m.owner(b) && m'.link(b) == m.link(b)
               && m'.desc(b.sb).heap == m.desc(b.sb).heap
    ensures forall sc :: BinInv(c, m', t, sc, bins(sc))
  {
    forall sc ensures BinInv(c, m', t, sc, bins(sc)) {
      assert BinInv(c, m, t, sc, bins(sc));
      BinFrame(c, m, m', t, sc, bins(sc));
    }
  }

  // ---------- loads, and attempts that fail ----------

  ghost predicate PopQuiet(m: Mem, sc: int, pc: FillPc, spurious: bool) {
    match pc
    case PopLoad => true
    case PopRead(_) => true
    case PopCas(seen, _) => m.partialList(sc).head != seen || spurious
    case TakeLoad(_) => true
    case TakeCas(d, cur, _) => cur.state != Empty && (m.desc(d).anchor != cur || spurious)
    case _ => false
  }

  lemma PopQuietMoves(c: Config, m: Mem, t: int, th: Thread, sc: int, pc: FillPc, spurious: bool)
    requires LocalInv(c, m, th) && th.pc == Fill(sc, pc) && PopQuiet(m, sc, pc, spurious)
    requires ListInv(m.partialList(sc), PartialNext(m.desc))
    requires pc.TakeLoad? || pc.TakeCas? ==> HasFree(m.desc(pc.d).anchor)
    ensures OnlyMoves(c, m, th, FillStep(c, m, t, th, sc, pc, spurious))
  {
  }

  /** A superblock popped from a partial list has free blocks as long as it is in hand. */
  lemma HeldHasFree(c: Config, m: Mem, t: int, th: Thread, sc: int, pc: FillPc)
    requires SharedInv(c, m) && ThreadInv(c, m, t, th) && th.pc == Fill(sc, pc)
    ensures pc.TakeLoad? || pc.TakeCas? ==> HasFree(m.desc(pc.d).anchor)
  {
    if pc.TakeLoad? || pc.TakeCas? {
      assert m.place(pc.d) == HeldUsed(t) by { assert ThreadAt(c, m, t, th, 0); }
      assert SharedAt(c, m, pc.d);
    }
  }

  ghost predicate SbQuiet(m: Mem, pc: FillPc) {
    match pc
    case SbLoad => true
    case SbRead(_) => true
    case SbCas(seen, _) => m.availSb.head != seen
    case GrowLoad(_) => true
    case GrowCheck(_, _) => true
    case GrowCas(_, fr) => m.frontier != fr
    case _ => false
  }

  lemma SbQuietMoves(c: Config, m: Mem, t: int, th: Thread, sc: int, pc: FillPc, spurious: bool)
    requires LocalInv(c, m, th) && th.pc == Fill(sc, pc) && SbQuiet(m, pc)
    requires ListInv(m.availSb, FreeNext(m.desc))
    ensures OnlyMoves(c, m, th, FillStep(c, m, t, th, sc, pc, spurious))
  {
  }

  // ---------- heap_pop_partial ----------

  /** If the CAS of a pop succeeds, the link read before it is still that of the top element. */
  lemma PopNextCurrent(k: Stack, nextOf: int -> Ptr, seen: Head, next: Ptr)
    requires ListInv(k, nextOf) && NextInv(k, nextOf, seen, next) && k.head == seen
    ensures k.lst != [] && k.lst[0] == seen.ptr.d && next == nextOf(k.lst[0])
  {
    var d := k.lst[0];
    assert d in k.lst;
  }

  lemma PopCasShared(c: Config, m: Mem, t: int, th: Thread, sc: int, seen: Head, next: Ptr)
    requires SharedInv(c, m) && NextInv(m.partialList(sc), PartialNext(m.desc), seen, next)
    requires m.partialList(sc).head == seen
    ensures var m' := StepPopCas(m, t, th, sc, seen, next, false).m;
            && SharedInv(c, m') && (forall u :: u != t ==> Rely(m, m', u))
            && m.place(seen.ptr.d) == Listed(sc) && m.desc(seen.ptr.d).heap == HeapOf(sc)
  {
    var m' := StepPopCas(m, t, th, sc, seen, next, false).m;
    var k := m.partialList(sc);
    var d := seen.ptr.d;
    assert SharedAt(c, m, d);
    assert ListInv(k, PartialNext(m.desc));
    PopNextCurrent(k, PartialNext(m.desc), seen, next);
    assert m.place(d) == Listed(sc) by {
      assert d in k.lst;
      assert Exactly(k.lst, m.place, Listed(sc));
    }
    PopPartialStacks(m, m', t, sc);
    OnePlace(c, m, m', t, d, HeldUsed(t));
    PlacesMove(c, m, m', t);
  }

  lemma PopCasThread(c: Config, m: Mem, t: int, th: Thread, sc: int, seen: Head, next: Ptr)
    requires ThreadInv(c, m, t, th) && th.pc == Fill(sc, PopCas(seen, next))
    requires m.partialList(sc).head == seen && seen.ptr.To?
    requires m.place(seen.ptr.d) == Listed(sc) && m.desc(seen.ptr.d).heap == HeapOf(sc)
    ensures var o := StepPopCas(m, t, th, sc, seen, next, false); ThreadInv(c, o.m, t, o.th)
  {
    Threads(c, m, t, th);
    var o := StepPopCas(m, t, th, sc, seen, next, false);
    BinsFrame(c, m, o.m, t, th.bins);
    MakeThread(c, o.m, t, o.th);
  }

  lemma PopCasGood(c: Config, m: Mem, t: int, th: Thread, sc: int, seen: Head, next: Ptr)
    requires SharedInv(c, m) && ThreadInv(c, m, t, th) && th.pc == Fill(sc, PopCas(seen, next))
    requires m.partialList(sc).head == seen
    ensures Good(c, m, t, StepPopCas(m, t, th, sc, seen, next, false))
  {
    Threads(c, m, t, th);
    PopCasShared(c, m, t, th, sc, seen, next);
    PopCasThread(c, m, t, th, sc, seen, next);
  }

  // ---------- malloc_from_partial ----------

  /** The popper that reads EMPTY retires the superblock. */
  lemma TakeEmptyThread(c: Config, m: Mem, t: int, th: Thread, sc: int, d: int, cur: Anchor, mx: int)
    requires ThreadInv(c, m, t, th) && th.pc == Fill(sc, TakeCas(d, cur, mx)) && cur.state == Empty
    requires forall i :: m.owner(Block(d, i)) == Chained || m.owner(Block(d, i)) == Unused
    ensures var o := StepTakeCas(m, t, th, sc, d, cur, mx, false); ThreadInv(c, o.m, t, o.th)
  {
    Threads(c, m, t, th);
    var o := StepTakeCas(m, t, th, sc, d, cur, mx, false);
    forall b: Block | b.sb == d ensures m.owner(b) == Chained || m.owner(b) == Unused { assert b == Block(d, b.idx); }
    BinsFrame(c, m, o.m, t, th.bins);
    MakeThread(c, o.m, t, o.th);
  }

  lemma TakeEmptyGood(c: Config, m: Mem, t: int, th: Thread, sc: int, d: int, cur: Anchor, mx: int)
    requires SharedInv(c, m) && ThreadInv(c, m, t, th)
    requires th.pc == Fill(sc, TakeCas(d, cur, mx)) && cur.state == Empty
    ensures Good(c, m, t, StepTakeCas(m, t, th, sc, d, cur, mx, false))
  {
    Threads(c, m, t, th);
    assert m.place(d) == HeldUsed(t);
    assert SharedAt(c, m, d);
    RetireSb(c, m, t, d);
    OneSbMove(c, m, Retire(m, t, d), d, t);
    AllChained(c, m, d);
    TakeEmptyThread(c, m, t, th, sc, d, cur, mx);
  }

  lemma TakeThread(c: Config, m: Mem, t: int, th: Thread, sc: int, d: int, cur: Anchor, mx: int)
    requires ThreadInv(c, m, t, th) && th.pc == Fill(sc, TakeCas(d, cur, mx)) && cur.state == Partial
    requires m.desc(d).anchor == cur && UsedInv(c, m, d) && !m.place(d).Active?
    ensures var o := StepTakeCas(m, t, th, sc, d, cur, mx, false); ThreadInv(c, o.m, t, o.th)
  {
    Threads(c, m, t, th);
    var o := StepTakeCas(m, t, th, sc, d, cur, mx, false);
    var q := m.chain(d);
    assert th.bins(sc).blocks == [] by { assert BinInv(c, m, t, sc, th.bins(sc)); }
    CacheOf(c, m, o.m, t, sc, d, q);
    OtherBins(c, m, o.m, t, sc, th.bins);
    MakeThread(c, o.m, t, o.th);
  }

  /** A run of linked blocks of one superblock becomes the cache. */
  lemma CacheOf(c: Config, m: Mem, m': Mem, t: int, sc: int, d: int, q: seq<int>)
    requires SmallClass(c, sc) && 0 < |q| <= c.maxcount(sc) && NoDup(q) && LinkedIn(m.link, d, q)
    requires forall b :: m.owner(b) != Cached(t, sc)
    requires m'.owner == SetBlocks(m.owner, d, q, Cached(t, sc)) && m'.link == m.link
    requires m'.desc(d).heap == HeapOf(sc)
    ensures BinInv(c, m', t, sc, Bin(At(Block(d, q[0])), |q|, BlocksOf(d, q)))
  {
    var bs := BlocksOf(d, q);
    forall i, j | 0 <= i < j < |bs| ensures bs[i] != bs[j] { assert q[i] != q[j]; }
    forall i, j | 0 <= i && j == i + 1 && j < |bs| ensures m'.link(bs[i]) == At(bs[j]) {
      assert m.link(Block(d, q[i])) == At(Block(d, q[j]));
    }
    forall b ensures b in bs <==> b.sb == d && b.idx in q {
      if b.sb == d && b.idx in q {
        var i :| 0 <= i < |q| && q[i] == b.idx;
        assert bs[i] == b;
      }
    }
  }

  lemma TakeFacts(c: Config, m: Mem, t: int, d: int)
    requires SharedInv(c, m) && m.place(d) == HeldUsed(t) && m.desc(d).anchor.state != Empty
    ensures UsedInv(c, m, d) && m.desc(d).anchor.state == Partial
  {
    assert SharedAt(c, m, d);
  }

  lemma TakeShared(c: Config, m: Mem, t: int, sc: int, d: int)
    requires SharedInv(c, m) && m.place(d) == HeldUsed(t) && m.desc(d).anchor.state == Partial
    ensures var m' := Take(m, t, sc, d, m.desc(d).maxcount);
            SharedInv(c, m') && forall u :: u != t ==> Rely(m, m', u)
  {
    assert SbInv(c, m, d) by { assert SharedAt(c, m, d); }
    TakeSb(c, m, t, sc, d);
    OneSbMove(c, m, Take(m, t, sc, d, m.desc(d).maxcount), d, t);
  }

  lemma TakeGood(c: Config, m: Mem, t: int, th: Thread, sc: int, d: int, cur: Anchor, mx: int)
    requires SharedInv(c, m) && ThreadInv(c, m, t, th)
    requires th.pc == Fill(sc, TakeCas(d, cur, mx)) && cur.state != Empty && m.desc(d).anchor == cur
    ensures Good(c, m, t, StepTakeCas(m, t, th, sc, d, cur, mx, false))
  {
    Threads(c, m, t, th);
    assert m.place(d) == HeldUsed(t);
    TakeFacts(c, m, t, d);
    TakeShared(c, m, t, sc, d);
    TakeThread(c, m, t, th, sc, d, cur, mx);
  }

  // ---------- small_sb_alloc ----------

  lemma SbCasShared(c: Config, m: Mem, t: int, th: Thread, sc: int, seen: Head, next: Ptr)
    requires SharedInv(c, m) && NextInv(m.availSb, FreeNext(m.desc), seen, next) && m.availSb.head == seen
    ensures var m' := StepSbCas(m, t, th, sc, seen, next).m;
            && SharedInv(c, m') && (forall u :: u != t ==> Rely(m, m', u))
            && m.place(seen.ptr.d) == Avail
  {
    assert SharedAt(c, m, 0);
    var m' := StepSbCas(m, t, th, sc, seen, next).m;
    PopNextCurrent(m.availSb, FreeNext(m.desc), seen, next);
    var d := seen.ptr.d;
    assert m.place(d) == Avail by { assert d in m.availSb.lst; }
    PopAvailStacks(m, m', t);
    OnePlace(c, m, m', t, d, HeldFree(t));
    PlacesMove(c, m, m', t);
  }

  lemma SbCasThread(c: Config, m: Mem, t: int, th: Thread, sc: int, seen: Head, next: Ptr)
    requires ThreadInv(c, m, t, th) && th.pc == Fill(sc, SbCas(seen, next)) && m.availSb.head == seen
    requires seen.ptr.To? && m.place(seen.ptr.d) == Avail
    ensures var o := StepSbCas(m, t, th, sc, seen, next); ThreadInv(c, o.m, t, o.th)
  {
    var o := StepSbCas(m, t, th, sc, seen, next);
    Threads(c, m, t, th);
    BinsFrame(c, m, StepSbCas(m, t, th, sc, seen, next).m, t, th.bins);
    MakeThread(c, o.m, t, o.th);
  }

  lemma SbCasGood(c: Config, m: Mem, t: int, th: Thread, sc: int, seen: Head, next: Ptr)
    requires SharedInv(c, m) && ThreadInv(c, m, t, th) && th.pc == Fill(sc, SbCas(seen, next))
    requires m.availSb.head == seen
    ensures Good(c, m, t, StepSbCas(m, t, th, sc, seen, next))
  {
    Threads(c, m, t, th);
    SbCasShared(c, m, t, th, sc, seen, next);
    SbCasThread(c, m, t, th, sc, seen, next);
  }

  /** Moving the frontier hands out superblocks nobody has seen before. */
  lemma GrowShared(c: Config, m: Mem, t: int, n: int)
    requires SharedInv(c, m) && n >= 1
    ensures SharedInv(c, Grow(m, t, n)) && forall u :: u != t ==> Rely(m, Grow(m, t, n), u)
    ensures forall d :: m.frontier <= d ==> m.place(d) == Unborn
  {
    Shared(c, m);
    var m' := Grow(m, t, n);
    forall d ensures m.place(d) == Unborn <==> d < 0 || m.frontier <= d { assert SharedAt(c, m, d); }
    forall d ensures PlaceMoved(m, m', t, d) {}
    BigFrame(m, m');
    ListsFrame(m, m');
    PlacesMove(c, m, m', t);
  }

  lemma GrowCasThread(c: Config, m: Mem, t: int, th: Thread, sc: int, seen: Head, fr: int)
    requires ThreadInv(c, m, t, th) && th.pc == Fill(sc, GrowCas(seen, fr)) && m.frontier == fr && c.grow >= 2
    requires forall d :: m.frontier <= d ==> m.place(d) == Unborn
    ensures var o := StepGrowCas(c, m, t, th, sc, seen, fr); ThreadInv(c, o.m, t, o.th)
  {
    var o := StepGrowCas(c, m, t, th, sc, seen, fr);
    Threads(c, m, t, th);
    BinsFrame(c, m, StepGrowCas(c, m, t, th, sc, seen, fr).m, t, th.bins);
    MakeThread(c, o.m, t, o.th);
  }

  lemma GrowCasGood(c: Config, m: Mem, t: int, th: Thread, sc: int, seen: Head, fr: int)
    requires SharedInv(c, m) && ThreadInv(c, m, t, th) && th.pc == Fill(sc, GrowCas(seen, fr)) && m.frontier == fr
    ensures Good(c, m, t, StepGrowCas(c, m, t, th, sc, seen, fr))
  {
    Threads(c, m, t, th);
    assert SharedAt(c, m, 0);
    GrowShared(c, m, t, c.grow);
    GrowCasThread(c, m, t, th, sc, seen, fr);
  }

  // ---------- malloc_from_newsb ----------

  lemma NewDescThread(c: Config, m: Mem, t: int, th: Thread, sc: int, d: int)
    requires ThreadInv(c, m, t, th) && (th.pc == Fill(sc, NewInit(d)) || th.pc == Fill(sc, NewDesc(d)))
    requires GoodConfig(c) && forall b: Block :: m.owner(b) != Unused ==> InUse(m.place(b.sb))
    ensures var o := FillStep(c, m, t, th, sc, th.pc.fill, false);
            ThreadInv(c, o.m, t, o.th) && DescsMoved(m, o.m, t)
  {
    var o := FillStep(c, m, t, th, sc, th.pc.fill, false);
    Threads(c, m, t, th);
    assert m.place(d) == HeldFree(t);
    BinsFrame(c, m, FillStep(c, m, t, th, sc, th.pc.fill, false).m, t, th.bins);
    MakeThread(c, o.m, t, o.th);
  }

  lemma NewDescGood(c: Config, m: Mem, t: int, th: Thread, sc: int, d: int)
    requires SharedInv(c, m) && ThreadInv(c, m, t, th)
    requires th.pc == Fill(sc, NewInit(d)) || th.pc == Fill(sc, NewDesc(d))
    ensures Good(c, m, t, FillStep(c, m, t, th, sc, th.pc.fill, false))
  {
    Threads(c, m, t, th);
    UnusedOutside(c, m);
    NewDescThread(c, m, t, th, sc, d);
    DescsMove(c, m, FillStep(c, m, t, th, sc, th.pc.fill, false).m, t);
  }

  lemma NewLinkThread(c: Config, m: Mem, t: int, th: Thread, sc: int, d: int, i: int)
    requires ThreadInv(c, m, t, th) && th.pc == Fill(sc, NewLink(d, i)) && i + 1 < c.maxcount(sc)
    requires m.owner(Block(d, i)) == Unused
    ensures var o := StepNewLink(c, m, t, th, sc, d, i);
            ThreadInv(c, o.m, t, o.th) && BlocksMoved(m, o.m, t)
  {
    Threads(c, m, t, th);
    var o := StepNewLink(c, m, t, th, sc, d, i);
    assert m.place(d) == HeldFree(t);
    BinsFrame(c, m, o.m, t, th.bins);
    MakeThread(c, o.m, t, o.th);
  }

  lemma NewLinkGood(c: Config, m: Mem, t: int, th: Thread, sc: int, d: int, i: int)
    requires SharedInv(c, m) && ThreadInv(c, m, t, th) && th.pc == Fill(sc, NewLink(d, i)) && i + 1 < c.maxcount(sc)
    ensures Good(c, m, t, StepNewLink(c, m, t, th, sc, d, i))
  {
    Threads(c, m, t, th);
    assert m.place(d) == HeldFree(t);
    assert SharedAt(c, m, d);
    NewLinkThread(c, m, t, th, sc, d, i);
    BlocksMove(c, m, StepNewLink(c, m, t, th, sc, d, i).m, t);
  }

  lemma PublishThread(c: Config, m: Mem, t: int, th: Thread, sc: int, d: int, i: int)
    requires ThreadInv(c, m, t, th) && th.pc == Fill(sc, NewLink(d, i)) && i + 1 == c.maxcount(sc)
    requires forall b: Block :: !InUse(m.place(b.sb)) ==> m.owner(b) == Unused
    ensures var o := StepNewLink(c, m, t, th, sc, d, i); ThreadInv(c, o.m, t, o.th)
  {
    Threads(c, m, t, th);
    var o := StepNewLink(c, m, t, th, sc, d, i);
    var q := Iota(0, c.maxcount(sc));
    assert th.bins(sc).blocks == [] by { assert BinInv(c, m, t, sc, th.bins(sc)); }
    assert LinkedIn(m.link, d, q);
    CacheOf(c, m, o.m, t, sc, d, q);
    assert m.place(d) == HeldFree(t);
    OtherBins(c, m, o.m, t, sc, th.bins);
    MakeThread(c, o.m, t, o.th);
  }

  lemma PublishShared(c: Config, m: Mem, t: int, sc: int, d: int)
    requires SharedInv(c, m) && m.place(d) == HeldFree(t) && SmallClass(c, sc)
    requires m.desc(d).heap == HeapOf(sc) && m.desc(d).maxcount == c.maxcount(sc)
    ensures var m' := Publish(m, t, sc, d, c.maxcount(sc));
            SharedInv(c, m') && forall u :: u != t ==> Rely(m, m', u)
  {
    assert SharedAt(c, m, d);
    PublishSb(c, m, t, sc, d);
    OneSbMove(c, m, Publish(m, t, sc, d, c.maxcount(sc)), d, t);
  }

  lemma PublishGood(c: Config, m: Mem, t: int, th: Thread, sc: int, d: int, i: int)
    requires SharedInv(c, m) && ThreadInv(c, m, t, th) && th.pc == Fill(sc, NewLink(d, i)) && i + 1 == c.maxcount(sc)
    ensures Good(c, m, t, StepNewLink(c, m, t, th, sc, d, i))
  {
    Threads(c, m, t, th);
    assert m.place(d) == HeldFree(t);
    UnusedOutside(c, m);
    PublishShared(c, m, t, sc, d);
    PublishThread(c, m, t, th, sc, d, i);
  }

  // ---------- pop_block ----------

  lemma MallocPopThread(c: Config, m: Mem, t: int, th: Thread, sc: int)
    requires ThreadInv(c, m, t, th) && th.pc == MallocPop(sc)
    ensures var o := StepMallocPop(m, th, sc); ThreadInv(c, o.m, t, o.th) && BlocksMoved(m, o.m, t)
  {
    Threads(c, m, t, th);
    var o := StepMallocPop(m, th, sc);
    var bin := th.bins(sc);
    assert BinInv(c, m, t, sc, bin);
    var b := bin.blocks[0];
    assert b in bin.blocks;
    PopBin(c, m, o.m, t, sc, bin);
    OtherBins(c, m, o.m, t, sc, th.bins);
    MakeThread(c, o.m, t, o.th);
  }

  lemma PopBin(c: Config, m: Mem, m': Mem, t: int, sc: int, bin: Bin)
    requires BinInv(c, m, t, sc, bin) && bin.blocks != []
    requires m' == m.(owner := Upd(m.owner, bin.blocks[0], App))
    ensures BinInv(c, m', t, sc, Bin(m.link(bin.blocks[0]), bin.num - 1, bin.blocks[1..]))
  {
    assert bin.blocks == [bin.blocks[0]] + bin.blocks[1..];
  }

  /** The block malloc returns was in the cache of the calling thread alone. */
  lemma MallocPopGood(c: Config, m: Mem, t: int, th: Thread, sc: int)
    requires SharedInv(c, m) && ThreadInv(c, m, t, th) && th.pc == MallocPop(sc)
    ensures Good(c, m, t, StepMallocPop(m, th, sc))
  {
    Threads(c, m, t, th);
    MallocPopThread(c, m, t, th, sc);
    BlocksMove(c, m, StepMallocPop(m, th, sc).m, t);
  }
}
