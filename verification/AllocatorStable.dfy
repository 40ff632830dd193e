/** What a thread has established about its own part of the state survives the steps of the others,
    as long as they keep to what it relies on.
*/
module AllocatorStable {
  import opened AllocatorState
  import opened AllocatorSteps
  import opened AllocatorInvariant

  lemma TagStable(k: Stack, k': Stack, next: int -> Ptr, next': int -> Ptr, seen: Head)
    requires ListRely(k, k', next, next') && TagInv(k, seen) && ListInv(k, next)
    ensures TagInv(k', seen)
  {
  }

  lemma NextStable(k: Stack, k': Stack, next: int -> Ptr, next': int -> Ptr, seen: Head, nx: Ptr)
    requires ListRely(k, k', next, next') && NextInv(k, next, seen, nx) && ListInv(k, next)
    ensures NextInv(k', next', seen, nx)
  {
  }

  lemma BinStable(c: Config, m: Mem, m': Mem, u: int, sc: int, bin: Bin)
    requires BinInv(c, m, u, sc, bin) && OwnRely(m, m', u)
    ensures BinInv(c, m', u, sc, bin)
  {
  }

  lemma HoldStable(m: Mem, m': Mem, u: int, h: Hold)
    requires HoldInv(m, u, h) && OwnRely(m, m', u)
    ensures HoldInv(m', u, h)
  {
  }

  lemma PopStable(c: Config, m: Mem, m': Mem, th: Thread)
    requires LocalInv(c, m, th) && th.pc.Fill? && (th.pc.fill.PopRead? || th.pc.fill.PopCas?) && StacksInv(m)
             && ListsRely(m, m')
    ensures LocalInv(c, m', th)
  {
    var sc, pc := th.pc.sc, th.pc.fill;
    var k, k', next, next' := m.partialList(sc), m'.partialList(sc), PartialNext(m.desc), PartialNext(m'.desc);
    if pc.PopRead? {
      TagStable(k, k', next, next', pc.seen);
    } else {
      NextStable(k, k', next, next', pc.seen, pc.next);
    }
  }

  lemma SbStable(c: Config, m: Mem, m': Mem, th: Thread)
    requires LocalInv(c, m, th) && th.pc.Fill? && ListInv(m.availSb, FreeNext(m.desc))
    requires var pc := th.pc.fill; pc.SbRead? || pc.SbCas? || pc.GrowLoad? || pc.GrowCheck? || pc.GrowCas?
    requires ListRely(m.availSb, m'.availSb, FreeNext(m.desc), FreeNext(m'.desc))
    ensures LocalInv(c, m', th)
  {
    var pc := th.pc.fill;
    TagStable(m.availSb, m'.availSb, FreeNext(m.desc), FreeNext(m'.desc), pc.seen);
    if pc.SbCas? { NextStable(m.availSb, m'.availSb, FreeNext(m.desc), FreeNext(m'.desc), pc.seen, pc.next); }
  }

  lemma HeldStable(c: Config, m: Mem, m': Mem, u: int, th: Thread)
    requires LocalInv(c, m, th) && HoldInv(m, u, HoldOf(th.pc)) && OwnRely(m, m', u) && th.pc.Fill?
    requires var pc := th.pc.fill;
             pc.PopLoad? || pc.TakeLoad? || pc.TakeCas? || pc.SbLoad? || pc.NewInit? || pc.NewDesc? || pc.NewLink?
    ensures LocalInv(c, m', th)
  {
  }

  lemma FillStable(c: Config, m: Mem, m': Mem, u: int, th: Thread)
    requires LocalInv(c, m, th) && HoldInv(m, u, HoldOf(th.pc)) && StacksInv(m) && OwnRely(m, m', u)
             && ListsRely(m, m') && th.pc.Fill?
    ensures LocalInv(c, m', th)
  {
    var pc := th.pc.fill;
    if pc.PopRead? || pc.PopCas? {
      PopStable(c, m, m', th);
    } else if pc.SbRead? || pc.SbCas? || pc.GrowLoad? || pc.GrowCheck? || pc.GrowCas? {
      SbStable(c, m, m', th);
    } else {
      HeldStable(c, m, m', u, th);
    }
  }

  lemma FlushStable(c: Config, m: Mem, m': Mem, u: int, th: Thread)
    requires LocalInv(c, m, th) && HoldInv(m, u, HoldOf(th.pc)) && OwnRely(m, m', u) && th.pc.Flush?
    ensures LocalInv(c, m', th)
  {
    var pc := th.pc.fl;
    if pc.FlLoad? || pc.FlLink? || pc.FlCas? { var i := pc.blks[0]; assert m.owner(Block(pc.d, i)) == InHand(u); }
  }

  lemma LocalStable(c: Config, m: Mem, m': Mem, u: int, th: Thread)
    requires LocalInv(c, m, th) && HoldInv(m, u, HoldOf(th.pc)) && OwnRely(m, m', u) && !th.pc.Fill? && !th.pc.Flush?
    ensures LocalInv(c, m', th)
  {
  }

  lemma ThreadStable(c: Config, m: Mem, m': Mem, u: int, th: Thread)
    requires ThreadInv(c, m, u, th) && StacksInv(m) && Rely(m, m', u)
    ensures ThreadInv(c, m', u, th)
  {
    Threads(c, m, u, th);
    assert RelyAt(m, m', u, 0);
    forall sc ensures ListRely(m.partialList(sc), m'.partialList(sc), PartialNext(m.desc), PartialNext(m'.desc)) {
      assert RelyAt(m, m', u, sc);
    }
    forall sc ensures BinInv(c, m', u, sc, th.bins(sc)) { BinStable(c, m, m', u, sc, th.bins(sc)); }
    HoldStable(m, m', u, HoldOf(th.pc));
    if th.pc.Fill? {
      FillStable(c, m, m', u, th);
    } else if th.pc.Flush? {
      FlushStable(c, m, m', u, th);
    } else {
      LocalStable(c, m, m', u, th);
    }
    MakeThread(c, m', u, th);
  }
}
