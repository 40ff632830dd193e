/** Every step of every interleaving keeps the allocator's invariant, and therefore
    every state of every run satisfies it.
*/
module AllocatorSafety {
  import opened AllocatorState
  import opened AllocatorSteps
  import opened AllocatorInvariant
  import opened AllocatorStable
  import opened AllocatorFrames
  import opened AllocatorFill
  import opened AllocatorFree
  import opened AllocatorLarge

  // ---------- one thread's next step, by the routine it is in ----------

  lemma PopGood(c: Config, m: Mem, t: int, th: Thread, sc: int, pc: FillPc, spurious: bool)
    requires SharedInv(c, m) && ThreadInv(c, m, t, th) && th.pc == Fill(sc, pc)
    requires pc.PopLoad? || pc.PopRead? || pc.PopCas? || pc.TakeLoad? || pc.TakeCas?
    ensures Good(c, m, t, FillStep(c, m, t, th, sc, pc, spurious))
  {
    if PopQuiet(m, sc, pc, spurious) {
      Shared(c, m);
      Threads(c, m, t, th);
      HeldHasFree(c, m, t, th, sc, pc);
      PopQuietMoves(c, m, t, th, sc, pc, spurious);
      Moves(c, m, t, th, FillStep(c, m, t, th, sc, pc, spurious));
    } else if pc.PopCas? {
      PopCasGood(c, m, t, th, sc, pc.seen, pc.next);
    } else if pc.cur.state == Empty {
      TakeEmptyGood(c, m, t, th, sc, pc.d, pc.cur, pc.mx);
    } else {
      TakeGood(c, m, t, th, sc, pc.d, pc.cur, pc.mx);
    }
  }

  lemma SbAllocGood(c: Config, m: Mem, t: int, th: Thread, sc: int, pc: FillPc, spurious: bool)
    requires SharedInv(c, m) && ThreadInv(c, m, t, th) && th.pc == Fill(sc, pc)
    requires pc.SbLoad? || pc.SbRead? || pc.SbCas? || pc.GrowLoad? || pc.GrowCheck? || pc.GrowCas?
    ensures Good(c, m, t, FillStep(c, m, t, th, sc, pc, spurious))
  {
    if SbQuiet(m, pc) {
      Shared(c, m);
      Threads(c, m, t, th);
      SbQuietMoves(c, m, t, th, sc, pc, spurious);
      Moves(c, m, t, th, FillStep(c, m, t, th, sc, pc, spurious));
    } else if pc.SbCas? {
      SbCasGood(c, m, t, th, sc, pc.seen, pc.next);
    } else {
      GrowCasGood(c, m, t, th, sc, pc.seen, pc.fr);
    }
  }

  lemma NewGood(c: Config, m: Mem, t: int, th: Thread, sc: int, pc: FillPc, spurious: bool)
    requires SharedInv(c, m) && ThreadInv(c, m, t, th) && th.pc == Fill(sc, pc)
    requires pc.NewInit? || pc.NewDesc? || pc.NewLink?
    ensures Good(c, m, t, FillStep(c, m, t, th, sc, pc, spurious))
  {
    if pc.NewLink? {
      Threads(c, m, t, th);
      if pc.i + 1 < c.maxcount(sc) {
        NewLinkGood(c, m, t, th, sc, pc.d, pc.i);
      } else {
        PublishGood(c, m, t, th, sc, pc.d, pc.i);
      }
    } else {
      NewDescGood(c, m, t, th, sc, pc.d);
    }
  }

  lemma OrgGood(c: Config, m: Mem, t: int, th: Thread, lo: int, n: int, k: After, pc: OrgPc, spurious: bool)
    requires SharedInv(c, m) && ThreadInv(c, m, t, th) && th.pc == Org(lo, n, k, pc)
    ensures Good(c, m, t, OrgStep(m, th, lo, n, k, pc, spurious))
  {
    if OrgQuiet(m, pc, spurious) {
      Threads(c, m, t, th);
      OrgQuietMoves(c, m, th, lo, n, k, pc, spurious);
      Moves(c, m, t, th, OrgStep(m, th, lo, n, k, pc, spurious));
    } else if pc.OrgCas? {
      OrgCasGood(c, m, t, th, lo, n, pc.seen, k);
    } else {
      OrgWriteGood(c, m, t, th, lo, n, k, pc);
    }
  }

  lemma FlushGood(c: Config, m: Mem, t: int, th: Thread, sc: int, f: FlushFor, pc: FlushPc, spurious: bool)
    requires SharedInv(c, m) && ThreadInv(c, m, t, th) && th.pc == Flush(sc, f, pc)
    ensures Good(c, m, t, FlushStep(m, t, th, sc, f, pc, spurious))
  {
    if FlushQuiet(m, th.bins(sc), pc, spurious) {
      Shared(c, m);
      Threads(c, m, t, th);
      FlushReadsOk(c, m, t, th, sc, f, pc);
      FlushQuietMoves(c, m, t, th, sc, f, pc, spurious);
      Moves(c, m, t, th, FlushStep(m, t, th, sc, f, pc, spurious));
    } else {
      assert ThreadAt(c, m, t, th, sc);
      match pc
      case FlPick => PickGood(c, m, t, th, sc, f);
      case FlLink(d, blks, cur) => FlLinkGood(c, m, t, th, sc, f, d, blks, cur);
      case FlCas(d, blks, cur, upd) =>
        if cur.state == Full && upd.state == Empty {
          SpliceRetireGood(c, m, t, th, sc, f, d, blks, cur, upd);
        } else {
          SpliceGood(c, m, t, th, sc, f, d, blks, cur, upd);
        }
      case PpLink(hs, d, seen) => PpLinkGood(c, m, t, th, sc, f, hs, d, seen);
      case PpCas(hs, d, seen) => PpCasGood(c, m, t, th, sc, f, hs, d, seen);
      case FreePush => FreePushGood(c, m, t, th, sc, f.b);
    }
  }

  lemma BigGood(c: Config, m: Mem, t: int, th: Thread, n: int, pc: BigPc)
    requires SharedInv(c, m) && ThreadInv(c, m, t, th) && th.pc == Large(n, pc)
    ensures Good(c, m, t, BigStep(c, m, t, th, n, pc))
  {
    if pc.BigInit? {
      BigInitGood(c, m, t, th, pc.lo, n);
    } else if pc.BigCas? && m.frontier == pc.fr {
      BigCasGood(c, m, t, th, n, pc.fr);
    } else {
      Threads(c, m, t, th);
      BigQuietMoves(c, m, t, th, n, pc);
      Moves(c, m, t, th, BigStep(c, m, t, th, n, pc));
    }
  }

  lemma ContinueGood(c: Config, m: Mem, t: int, th: Thread, spurious: bool)
    requires SharedInv(c, m) && ThreadInv(c, m, t, th)
    ensures Good(c, m, t, ThreadStep(c, m, t, th, spurious))
  {
    match th.pc
    case Fill(sc, pc) =>
      if pc.NewInit? || pc.NewDesc? || pc.NewLink? {
        NewGood(c, m, t, th, sc, pc, spurious);
      } else if pc.PopLoad? || pc.PopRead? || pc.PopCas? || pc.TakeLoad? || pc.TakeCas? {
        PopGood(c, m, t, th, sc, pc, spurious);
      } else {
        SbAllocGood(c, m, t, th, sc, pc, spurious);
      }
    case MallocPop(sc) => MallocPopGood(c, m, t, th, sc);
    case Org(lo, n, k, pc) => OrgGood(c, m, t, th, lo, n, k, pc, spurious);
    case Flush(sc, f, pc) => FlushGood(c, m, t, th, sc, f, pc, spurious);
    case Large(n, pc) => BigGood(c, m, t, th, n, pc);
    case _ => RelySame(m);
  }

  /** Entering a call that touches nothing shared yet. */
  lemma StartGood(c: Config, m: Mem, t: int, th: Thread, a: Action)
    requires SharedInv(c, m) && ThreadInv(c, m, t, th) && th.pc.Idle?
    requires a.Malloc? || a.FlushCache? || a.MallocBig?
    requires a.MallocBig? ==> 1 <= a.n < SPAN_LIMIT
    requires !a.MallocBig? ==> SmallClass(c, a.sc)
    ensures Good(c, m, t, Act(c, m, t, th, a))
  {
    Threads(c, m, t, th);
    if a.Malloc? { assert BinInv(c, m, t, a.sc, th.bins(a.sc)); }
    Moves(c, m, t, th, Act(c, m, t, th, a));
  }

  lemma ActGood(s: State, a: Action)
    requires SharedInv(s.cfg, s.m) && ThreadInv(s.cfg, s.m, a.t, s.th(a.t)) && Allowed(s, a)
    ensures Good(s.cfg, s.m, a.t, Act(s.cfg, s.m, a.t, s.th(a.t), a))
  {
    var c, m, t, th := s.cfg, s.m, a.t, s.th(a.t);
    match a
    case Continue(_, spurious) => ContinueGood(c, m, t, th, spurious);
    case Free(_, b) => StartFreeGood(c, m, t, th, b);
    case FreeBig(_, lo) => FreeBigGood(c, m, t, th, lo);
    case Write(_, b, v) => WriteGood(c, m, t, th, b, v);
    case _ => StartGood(c, m, t, th, a);
  }

  // ---------- the invariant over whole runs ----------

  lemma GoodParts(c: Config, m: Mem, t: int, o: Out)
    requires Good(c, m, t, o)
    ensures SharedInv(c, o.m) && ThreadInv(c, o.m, t, o.th)
    ensures forall u :: u != t ==> Rely(m, o.m, u)
  {
    var relies := Rely(m, o.m, t);
  }

  /** One step of any thread, of any kind, keeps the invariant of all threads. */
  lemma StepKeepsInv(s: State, a: Action)
    requires Inv(s) && Allowed(s, a)
    ensures Inv(Apply(s, a))
  {
    var s' := Apply(s, a);
    var o := Act(s.cfg, s.m, a.t, s.th(a.t), a);
    ActGood(s, a);
    GoodParts(s.cfg, s.m, a.t, o);
    forall u ensures ThreadInv(s'.cfg, s'.m, u, s'.th(u)) {
      assert ThreadInv(s.cfg, s.m, u, s.th(u));
      if u != a.t {
        Shared(s.cfg, s.m);
        assert Rely(s.m, o.m, u);
        ThreadStable(s.cfg, s.m, o.m, u, s.th(u));
      }
    }
  }

  /** The heap as the constructor of BaseMeta leaves it: one expansion, its superblocks
      but the first on avail_sb, empty partial lists and empty caches. */
  ghost predicate Init(s: State) {
    var m, n := s.m, s.cfg.grow;
    && GoodConfig(s.cfg)
    && m.frontier == n
    && (forall b :: m.owner(b) == Unused)
    && (forall d :: m.place(d) == if d < 0 || n <= d then Unborn else if d == 0 then Skipped else Avail)
    && (forall d :: m.emptied(d) == 0 && m.retired(d) == 0)
    && (forall d :: 1 <= d < n ==> m.desc(d) == FreshDesc.(nextFree := if d == n - 1 then Null else To(d + 1)))
    && m.availSb == Stack(Head(To(1), 1), Iota(1, n - 1))
    && (forall sc :: m.partialList(sc) == Stack(Head(Null, 0), []))
    && (forall t :: s.th(t).pc == Idle && forall sc :: s.th(t).bins(sc) == Bin(Nil, 0, []))
  }

  lemma {:induction false} IotaLists(next: int -> Ptr, lo: int, n: int)
    requires n >= 1
    requires forall d :: lo <= d < lo + n ==> next(d) == if d == lo + n - 1 then Null else To(d + 1)
    ensures Lists(To(lo), Iota(lo, n), next)
    decreases n
  {
    assert Iota(lo, n)[1..] == Iota(lo + 1, n - 1);
    if n > 1 { IotaLists(next, lo + 1, n - 1); }
  }

  lemma InitShared(s: State)
    requires Init(s)
    ensures SharedInv(s.cfg, s.m)
  {
    var m, n := s.m, s.cfg.grow;
    IotaLists(FreeNext(m.desc), 1, n - 1);
    forall d ensures d in m.availSb.lst <==> m.place(d) == Avail {
      if 1 <= d < n { assert m.availSb.lst[d - 1] == d; }
    }
    MakeShared(s.cfg, m);
  }

  lemma InitInv(s: State)
    requires Init(s)
    ensures Inv(s)
  {
    InitShared(s);
    forall t ensures ThreadInv(s.cfg, s.m, t, s.th(t)) { MakeThread(s.cfg, s.m, t, s.th(t)); }
  }

  /** The state after a run: each action is one atomic step of some thread. */
  ghost function StateAfter(s: State, acts: seq<Action>): State
    decreases |acts|
  {
    if acts == [] then s else Apply(StateAfter(s, acts[..|acts| - 1]), acts[|acts| - 1])
  }

  /** Each action of the run is one its caller may take at that moment. */
  ghost predicate Legal(s: State, acts: seq<Action>) {
    forall k :: 0 <= k < |acts| ==> Allowed(StateAfter(s, acts[..k]), acts[k])
  }

  lemma LegalPrefix(s: State, acts: seq<Action>)
    requires Legal(s, acts) && acts != []
    ensures var k := |acts| - 1; Legal(s, acts[..k]) && Allowed(StateAfter(s, acts[..k]), acts[k])
  {
    var k := |acts| - 1;
    forall j | 0 <= j < k ensures Allowed(StateAfter(s, acts[..k][..j]), acts[..k][j]) {
      assert acts[..k][..j] == acts[..j];
      assert Allowed(StateAfter(s, acts[..j]), acts[j]);
    }
  }

  lemma {:induction false} RunKeepsInv(s: State, acts: seq<Action>)
    requires Inv(s) && Legal(s, acts)
    ensures Inv(StateAfter(s, acts))
    decreases |acts|
  {
    if acts != [] {
      var k := |acts| - 1;
      LegalPrefix(s, acts);
      RunKeepsInv(s, acts[..k]);
      StepKeepsInv(StateAfter(s, acts[..k]), acts[k]);
    }
  }

  /** Every reachable state satisfies the invariant. */
  lemma ReachableInv(s: State, acts: seq<Action>)
    requires Init(s) && Legal(s, acts)
    ensures Inv(StateAfter(s, acts))
  {
    InitInv(s);
    RunKeepsInv(s, acts);
  }
}
