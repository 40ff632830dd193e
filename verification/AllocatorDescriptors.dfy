/** The descriptors of free superblocks: whatever thread put a superblock on avail_sb has erased its
    descriptor first, so that a crash leaves nothing of its last use to be taken for a superblock in use.
*/
module AllocatorDescriptors {
  import opened AllocatorState
  import opened AllocatorSteps
  import opened AllocatorInvariant
  import opened AllocatorSafety

  /** As constructed, but for its link in avail_sb. */
  ghost predicate Blank(D: Desc) { D == FreshDesc.(nextFree := D.nextFree) }

  ghost predicate FreeBlank(m: Mem) { forall d :: m.place(d) == Avail ==> Blank(m.desc(d)) }

  ghost predicate RangeBlank(m: Mem, lo: int, n: int) { forall d :: lo <= d < lo + n ==> Blank(m.desc(d)) }

  /** What organize_sb_list has erased so far, and the superblock that is about to come into use. */
  ghost predicate HandsBlank(m: Mem, pc: Pc) {
    match pc
    case Org(lo, n, _, q) => RangeBlank(m, lo, if q.OrgInit? then q.i else n)
    case Fill(_, q) => q.NewDesc? ==> Blank(m.desc(q.d))
    case _ => true
  }

  ghost predicate BlankInv(s: State) {
    FreeBlank(s.m) && forall t :: HandsBlank(s.m, s.th(t).pc)
  }

  // ---------- one step ----------

  lemma OthersBlank(c: Config, m: Mem, m': Mem, u: int, th: Thread)
    requires ThreadInv(c, m, u, th) && Rely(m, m', u) && HandsBlank(m, th.pc)
    ensures HandsBlank(m', th.pc)
  {
    Threads(c, m, u, th);
    assert OwnRely(m, m', u) by { assert RelyAt(m, m', u, 0); }
    if th.pc.Org? {
      var lo, n := th.pc.lo, th.pc.n;
      forall d | lo <= d < lo + n ensures m'.desc(d) == m.desc(d) { assert m.place(d) == HeldFree(u); }
    }
  }

  lemma FillBlank(c: Config, m: Mem, t: int, th: Thread, sc: int, pc: FillPc, spurious: bool)
    requires HoldInv(m, t, HoldOf(th.pc)) && ListInv(m.availSb, FreeNext(m.desc)) && th.pc == Fill(sc, pc)
    requires Exactly(m.availSb.lst, m.place, Avail) && FreeBlank(m) && HandsBlank(m, th.pc)
    ensures var o := FillStep(c, m, t, th, sc, pc, spurious); FreeBlank(o.m) && HandsBlank(o.m, o.th.pc)
  {
    if pc.SbCas? && m.availSb.head == pc.seen && pc.seen.ptr.To? {
      assert pc.seen.ptr.d in m.availSb.lst;
    }
  }

  lemma OrgBlank(c: Config, m: Mem, t: int, th: Thread, lo: int, n: int, k: After, pc: OrgPc, spurious: bool)
    requires HoldInv(m, t, HoldOf(th.pc)) && LocalInv(c, m, th) && th.pc == Org(lo, n, k, pc)
    requires FreeBlank(m) && HandsBlank(m, th.pc)
    ensures var o := OrgStep(m, th, lo, n, k, pc, spurious); FreeBlank(o.m) && HandsBlank(o.m, o.th.pc)
  {
  }

  lemma FlushBlank(c: Config, m: Mem, t: int, th: Thread, sc: int, f: FlushFor, pc: FlushPc, spurious: bool)
    requires HoldInv(m, t, HoldOf(th.pc)) && th.pc == Flush(sc, f, pc) && FreeBlank(m)
    requires pc.FlCas? ==> m.place(pc.d) != Avail
    ensures var o := FlushStep(m, t, th, sc, f, pc, spurious); FreeBlank(o.m) && HandsBlank(o.m, o.th.pc)
  {
  }

  lemma FlushesInUse(c: Config, m: Mem, t: int, th: Thread, sc: int, f: FlushFor, pc: FlushPc)
    requires SharedInv(c, m) && HoldInv(m, t, HoldOf(th.pc)) && LocalInv(c, m, th)
    requires th.pc == Flush(sc, f, pc) && pc.FlCas?
    ensures m.place(pc.d) != Avail
  {
    assert pc.blks[0] in pc.blks;
    assert m.owner(Block(pc.d, pc.blks[0])) == InHand(t);
    assert SbInv(c, m, pc.d) by { assert SharedAt(c, m, pc.d); }
  }

  lemma BigBlank(c: Config, m: Mem, t: int, th: Thread, n: int, pc: BigPc)
    requires HoldInv(m, t, HoldOf(th.pc)) && LocalInv(c, m, th) && th.pc == Large(n, pc) && FreeBlank(m)
    ensures var o := BigStep(c, m, t, th, n, pc); FreeBlank(o.m) && HandsBlank(o.m, o.th.pc)
  {
  }

  lemma ContinueBlank(c: Config, m: Mem, t: int, th: Thread, spurious: bool)
    requires SharedInv(c, m) && ThreadInv(c, m, t, th) && FreeBlank(m) && HandsBlank(m, th.pc)
    ensures var o := ThreadStep(c, m, t, th, spurious); FreeBlank(o.m) && HandsBlank(o.m, o.th.pc)
  {
    assert HoldInv(m, t, HoldOf(th.pc)) && LocalInv(c, m, th) by { assert ThreadAt(c, m, t, th, 0); }
    match th.pc
    case Fill(sc, pc) =>
      assert StacksInv(m) by { assert SharedAt(c, m, 0); }
      FillBlank(c, m, t, th, sc, pc, spurious);
    case Org(lo, n, k, pc) => OrgBlank(c, m, t, th, lo, n, k, pc, spurious);
    case Flush(sc, f, pc) =>
      if pc.FlCas? { FlushesInUse(c, m, t, th, sc, f, pc); }
      FlushBlank(c, m, t, th, sc, f, pc, spurious);
    case Large(n, pc) => BigBlank(c, m, t, th, n, pc);
    case _ =>
  }

  lemma ActBlank(s: State, a: Action)
    requires Inv(s) && Allowed(s, a) && BlankInv(s)
    ensures var o := Act(s.cfg, s.m, a.t, s.th(a.t), a); FreeBlank(o.m) && HandsBlank(o.m, o.th.pc)
  {
    if a.Continue? {
      assert ThreadInv(s.cfg, s.m, a.t, s.th(a.t)) && HandsBlank(s.m, s.th(a.t).pc);
      ContinueBlank(s.cfg, s.m, a.t, s.th(a.t), a.spurious);
    }
  }

  lemma StepKeepsBlank(s: State, a: Action)
    requires Inv(s) && Allowed(s, a) && BlankInv(s)
    ensures BlankInv(Apply(s, a))
  {
    var o := Act(s.cfg, s.m, a.t, s.th(a.t), a);
    ActBlank(s, a);
    ActGood(s, a);
    GoodParts(s.cfg, s.m, a.t, o);
    forall u | u != a.t ensures HandsBlank(o.m, s.th(u).pc) {
      assert ThreadInv(s.cfg, s.m, u, s.th(u)) && HandsBlank(s.m, s.th(u).pc) && Rely(s.m, o.m, u);
      OthersBlank(s.cfg, s.m, o.m, u, s.th(u));
    }
  }

  // ---------- over whole runs ----------

  lemma {:induction false} RunKeepsBlank(s: State, acts: seq<Action>)
    requires Inv(s) && BlankInv(s) && Legal(s, acts)
    ensures BlankInv(StateAfter(s, acts))
    decreases |acts|
  {
    if acts != [] {
      var k := |acts| - 1;
      LegalPrefix(s, acts);
      RunKeepsBlank(s, acts[..k]);
      RunKeepsInv(s, acts[..k]);
      StepKeepsBlank(StateAfter(s, acts[..k]), acts[k]);
    }
  }

  /** In every reachable state the descriptors of all superblocks on avail_sb are as constructed. */
  lemma FreeStaysBlank(s: State, acts: seq<Action>, d: int)
    requires Init(s) && Legal(s, acts)
    ensures var m := StateAfter(s, acts).m; d in m.availSb.lst ==> Blank(m.desc(d))
  {
    InitInv(s);
    assert BlankInv(s);
    RunKeepsBlank(s, acts);
    ReachableInv(s, acts);
    var m := StateAfter(s, acts).m;
    assert Exactly(m.availSb.lst, m.place, Avail) by { assert SharedAt(StateAfter(s, acts).cfg, m, d); }
  }
}
