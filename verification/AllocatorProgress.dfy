/** Progress: a thread that runs alone finishes its call, except in small_sb_alloc after it has read a null
    head, where it may go round for ever; and there are runs that bring it there.
*/
module AllocatorProgress {
  import opened AllocatorState
  import opened AllocatorSteps
  import opened AllocatorInvariant
  import opened AllocatorFill
  import opened AllocatorFree
  import opened AllocatorSafety

  /** One round of small_sb_alloc by thread t alone, from testing the head it has read to testing it again. */
  ghost function Round(s: State, t: int): State {
    var step := Continue(t, false);
    Apply(Apply(Apply(s, step), step), step)
  }

  /** A thread that has read a null head is back where it was, with nothing changed, exactly if avail_sb is
      not empty by now: it tests the head it read first, not the present one. */
  lemma SpinsIff(s: State, t: int, sc: int, seen: Head)
    requires s.th(t).pc == Fill(sc, SbRead(seen)) && seen.ptr == Null
    ensures Round(s, t).m == s.m && Round(s, t).cfg == s.cfg
    ensures Round(s, t).th(t) == s.th(t) <==> s.m.availSb.head.ptr != Null
  {
  }

  ghost function Rounds(s: State, t: int, n: nat): State
    decreases n
  {
    if n == 0 then s else Rounds(Round(s, t), t, n - 1)
  }

  lemma {:induction false} SpinsForever(s: State, t: int, sc: int, seen: Head, n: nat)
    requires s.th(t).pc == Fill(sc, SbRead(seen)) && seen.ptr == Null && s.m.availSb.head.ptr != Null
    ensures Rounds(s, t, n).m == s.m && Rounds(s, t, n).th(t) == s.th(t)
    decreases n
  {
    if n > 0 {
      SpinsIff(s, t, sc, seen);
      SpinsForever(Round(s, t), t, sc, seen, n - 1);
    }
  }

  // ---------- runs that lead there ----------

  ghost predicate Closed(states: iset<State>) {
    forall p, a :: p in states && Allowed(p, a) ==> Apply(p, a) in states
  }

  /** p lies in every set of states that s lies in and that allowed actions do not leave. */
  ghost predicate Reaches(s: State, p: State) { forall states :: Closed(states) && s in states ==> p in states }

  lemma OneMore(s: State, p: State, a: Action)
    requires Reaches(s, p) && Allowed(p, a)
    ensures Reaches(s, Apply(p, a))
  {
  }

  ghost predicate EndOfRun(s: State, q: State) { exists acts :: Legal(s, acts) && StateAfter(s, acts) == q }

  /** That is, a run leads from s to p. */
  lemma RunTo(s: State, p: State) returns (acts: seq<Action>)
    requires Reaches(s, p)
    ensures Legal(s, acts) && StateAfter(s, acts) == p
  {
    var states := iset q | EndOfRun(s, q);
    forall q, a | q in states && Allowed(q, a) ensures Apply(q, a) in states {
      var before :| Legal(s, before) && StateAfter(s, before) == q;
      Longer(s, before, a);
    }
    assert Legal(s, []) && StateAfter(s, []) == s;
    assert Closed(states) && s in states;
    assert p in states;
    acts :| Legal(s, acts) && StateAfter(s, acts) == p;
  }

  lemma Longer(s: State, acts: seq<Action>, a: Action)
    requires Legal(s, acts) && Allowed(StateAfter(s, acts), a)
    ensures Legal(s, acts + [a]) && StateAfter(s, acts + [a]) == Apply(StateAfter(s, acts), a)
  {
    var more := acts + [a];
    assert more[..|acts|] == acts;
    forall k | 0 <= k < |more| ensures Allowed(StateAfter(s, more[..k]), more[k]) {
      if k < |acts| { assert more[..k] == acts[..k] && Allowed(StateAfter(s, acts[..k]), acts[k]); }
    }
  }

  /** From p thread t makes its next step, which leaves o. */
  ghost predicate Next(p: State, t: int, o: Out, p': State) {
    p'.cfg == p.cfg && p'.m == o.m && p'.th(t) == o.th && forall u :: u != t ==> p'.th(u) == p.th(u)
  }

  lemma Goes(s: State, p: State, t: int, o: Out) returns (p': State)
    requires Reaches(s, p) && o == ThreadStep(p.cfg, p.m, t, p.th(t), false)
    ensures Next(p, t, o, p') && Reaches(s, p')
  {
    OneMore(s, p, Continue(t, false));
    p' := Apply(p, Continue(t, false));
  }

  /** Threads 0 to j - 1 have each taken a superblock from avail_sb, the others have done nothing. */
  ghost predicate Drained(s: State, p: State, j: int) {
    && Reaches(s, p) && p.cfg == s.cfg && p.m.frontier == s.m.frontier
    && p.m.desc == s.m.desc && p.m.partialList == s.m.partialList
    && p.m.availSb.head == Head(if j + 1 < s.cfg.grow then To(j + 1) else Null, 1)
    && forall t :: t >= j ==> p.th(t) == s.th(t)
  }

  lemma Call(s: State, p: State, a: Action) returns (p': State)
    requires Reaches(s, p) && Allowed(p, a) && !a.Continue?
    ensures Next(p, a.t, Act(p.cfg, p.m, a.t, p.th(a.t), a), p') && Reaches(s, p')
  {
    OneMore(s, p, a);
    p' := Apply(p, a);
  }

  /** A malloc as far as the first test of the head of avail_sb. */
  lemma Arrive(s: State, p: State, j: int, t: int) returns (p': State)
    requires Init(s) && SmallClass(s.cfg, 1) && Drained(s, p, j) && t >= j
    ensures Reaches(s, p') && Next(p, t, Go(p.m, p.th(t), Fill(1, SbRead(p.m.availSb.head))), p')
  {
    assert p.th(t) == s.th(t) && p.m.partialList(1).head.ptr == Null;
    var m, th, empty := p.m, p.th(t), p.m.partialList(1).head;
    var p1 := Call(s, p, Malloc(t, 1));
    var p2 := Goes(s, p1, t, Go(m, th, Fill(1, PopRead(empty))));
    var p3 := Goes(s, p2, t, Go(m, th, Fill(1, SbLoad)));
    p' := Goes(s, p3, t, Go(m, th, Fill(1, SbRead(m.availSb.head))));
  }

  lemma DrainOne(s: State, p: State, j: int) returns (p': State)
    requires Init(s) && SmallClass(s.cfg, 1) && 0 <= j && j + 1 < s.cfg.grow && Drained(s, p, j)
    ensures Drained(s, p', j + 1)
  {
    var p1 := Arrive(s, p, j, j);
    var seen, next := Head(To(j + 1), 1), s.m.desc(j + 1).nextFree;
    var p2 := Goes(s, p1, j, Go(p.m, p.th(j), Fill(1, SbCas(seen, next))));
    p' := Goes(s, p2, j, StepSbCas(p2.m, j, p2.th(j), 1, seen, next));
  }

  lemma {:induction false} Drain(s: State, j: nat) returns (p: State)
    requires Init(s) && SmallClass(s.cfg, 1) && j < s.cfg.grow
    ensures Drained(s, p, j)
  {
    if j == 0 {
      p := s;
    } else {
      p := Drain(s, j - 1);
      p := DrainOne(s, p, j - 1);
    }
  }

  /** A thread takes one fresh superblock as a large allocation. */
  lemma TakeLarge(s: State, p: State, t: int) returns (p': State)
    requires Reaches(s, p) && p.th(t).pc.Idle? && p.m.frontier + 1 <= p.cfg.limit
    ensures Reaches(s, p') && p'.th(t).pc.Idle? && p'.m.availSb == p.m.availSb
    ensures var lo := p.m.frontier; p'.m.place(lo) == Big(lo, 1) && p'.m.desc(lo).span == 1
    ensures forall u :: u != t ==> p'.th(u) == p.th(u)
  {
    var lo := p.m.frontier;
    var p1 := Call(s, p, MallocBig(t, 1));
    var p2 := Goes(s, p1, t, Go(p.m, p.th(t), Large(1, BigCas(lo))));
    var p3 := Goes(s, p2, t, Go(Grow(p.m, t, 1), p.th(t), Large(1, BigInit(lo))));
    p' := Goes(s, p3, t, StepBigInit(p3.m, p3.th(t), lo, 1));
  }

  /** It gives it back, so that avail_sb is not empty. */
  lemma GiveBack(s: State, p: State, t: int, lo: int) returns (p': State)
    requires Reaches(s, p) && p.th(t).pc.Idle? && p.m.place(lo) == Big(lo, 1) && p.m.desc(lo).span == 1
    ensures Reaches(s, p') && p'.m.availSb.head.ptr == To(lo)
    ensures forall u :: u != t ==> p'.th(u) == p.th(u)
  {
    var p1 := Call(s, p, FreeBig(t, lo));
    var p2 := Goes(s, p1, t, StepOrgInit(p1.m, p1.th(t), lo, 1, 0, Done));
    var seen := p.m.availSb.head;
    var p3 := Goes(s, p2, t, Go(p2.m, p2.th(t), Org(lo, 1, Done, OrgLink(seen))));
    var p4 := Goes(s, p3, t, StepOrgLink(p3.m, p3.th(t), lo, 1, seen, Done));
    p' := Goes(s, p4, t, StepOrgCas(p4.m, p4.th(t), lo, 1, seen, Done, false));
  }

  /** From the heap as constructed, with room for one more superblock, a legal run leads to a thread that spins. */
  lemma SpinIsReachable(s: State) returns (acts: seq<Action>, t: int, seen: Head)
    requires Init(s) && SmallClass(s.cfg, 1) && s.cfg.grow < s.cfg.limit
    ensures Legal(s, acts) && seen.ptr == Null
    ensures var p := StateAfter(s, acts); p.th(t).pc == Fill(1, SbRead(seen)) && p.m.availSb.head.ptr != Null
  {
    var n := s.cfg.grow - 1;
    var p := Drain(s, n);
    var lo := p.m.frontier;
    var q := Arrive(s, p, n, n);
    var r := TakeLarge(s, q, n + 1);
    r := GiveBack(s, r, n + 1, lo);
    t, seen := n, Head(Null, 1);
    assert r.th(n).pc == Fill(1, SbRead(seen));
    acts := RunTo(s, r);
  }

  // ---------- everywhere else a thread that runs alone finishes ----------

  /** A thread that goes round in small_sb_alloc as long as no other thread moves. */
  ghost predicate Spins(m: Mem, pc: Pc) {
    pc.Fill? && m.availSb.head.ptr != Null && match pc.fill {
      case SbRead(seen) => seen.ptr == Null
      case GrowLoad(seen) => seen.ptr == Null
      case GrowCheck(seen, _) => seen.ptr == Null
      case GrowCas(seen, fr) => seen.ptr == Null && m.frontier != fr
      case _ => false
    }
  }

  ghost predicate Over(pc: Pc) { pc.Idle? || pc.Aborted? }

  /** From SbLoad on, malloc takes at most this many steps. */
  ghost function SbLeft(c: Config, sc: int): int { c.grow + c.maxcount(sc) + 10 }

  ghost function PopLeft(c: Config, m: Mem, sc: int): int { 10 * |m.partialList(sc).lst| + SbLeft(c, sc) }

  ghost function FillLeft(c: Config, m: Mem, sc: int, pc: FillPc): int {
    var mx := c.maxcount(sc);
    match pc
    case PopLoad => PopLeft(c, m, sc) + 3
    case PopRead(seen) => if seen.ptr == Null then SbLeft(c, sc) + 1 else
      PopLeft(c, m, sc) + if seen == m.partialList(sc).head then 2 else 4
    case PopCas(seen, _) => PopLeft(c, m, sc) + if seen == m.partialList(sc).head then 1 else 3
    case TakeLoad(d) => PopLeft(c, m, sc) + 9
    case TakeCas(d, cur, _) =>
      if cur.state == Empty then PopLeft(c, m, sc) + 8 else if cur == m.desc(d).anchor then 2 else PopLeft(c, m, sc) + 9
    case SbLoad => SbLeft(c, sc)
    case SbRead(seen) =>
      if seen.ptr == Null then c.grow + mx + 9 else if seen == m.availSb.head then mx + 4 else c.grow + mx + 11
    case SbCas(seen, _) => if seen == m.availSb.head then mx + 3 else c.grow + mx + 10
    case GrowLoad(_) => c.grow + mx + 8
    case GrowCheck(_, fr) => if fr == m.frontier then c.grow + mx + 7 else c.grow + mx + 11
    case GrowCas(_, fr) => if fr == m.frontier then c.grow + mx + 6 else c.grow + mx + 10
    case NewInit(_) => mx + 3
    case NewDesc(_) => mx + 2
    case NewLink(_, i) => mx - i + 1
  }

  ghost function PickLeft(bin: Bin): int { 10 * bin.num + 2 }

  ghost function AfterLeft(c: Config, m: Mem, th: Thread, k: After): int {
    match k
    case Refill(sc) => PopLeft(c, m, sc) + 3
    case Flushing(sc, _) => PickLeft(th.bins(sc))
    case Build(sc, _) => c.maxcount(sc) + 3
    case Done => 0
  }

  ghost function OrgLeft(m: Mem, n: int, pc: OrgPc): int {
    match pc
    case OrgInit(i) => n - i + 3
    case OrgLoad => 3
    case OrgLink(seen) => if seen == m.availSb.head then 2 else 4
    case OrgCas(seen) => if seen == m.availSb.head then 1 else 3
  }

  ghost function FlushLeft(m: Mem, bin: Bin, pc: FlushPc): int {
    match pc
    case FlPick => PickLeft(bin)
    case FlLoad(_, _) => PickLeft(bin) + 7
    case FlLink(d, _, cur) => PickLeft(bin) + if cur == m.desc(d).anchor then 6 else 8
    case FlCas(d, _, cur, _) => PickLeft(bin) + if cur == m.desc(d).anchor then 5 else 7
    case PpLoad(_) => PickLeft(bin) + 3
    case PpLink(hs, _, seen) => PickLeft(bin) + if seen == m.partialList(hs).head then 2 else 4
    case PpCas(hs, _, seen) => PickLeft(bin) + if seen == m.partialList(hs).head then 1 else 3
    case FreePush => 1
  }

  ghost function BigLeft(m: Mem, pc: BigPc): int {
    match pc
    case BigLoad => 3
    case BigCas(fr) => if fr == m.frontier then 2 else 4
    case BigInit(_) => 1
  }

  /** How many steps a call still takes, at most, if no other thread moves and no weak CAS fails for no reason. */
  ghost function StepsLeft(c: Config, m: Mem, th: Thread): int {
    match th.pc
    case Idle => 0
    case Aborted => 0
    case Fill(sc, pc) => FillLeft(c, m, sc, pc)
    case MallocPop(_) => 1
    case Org(_, n, k, pc) => AfterLeft(c, m, th, k) + OrgLeft(m, n, pc)
    case Flush(sc, _, pc) => FlushLeft(m, th.bins(sc), pc)
    case Large(_, pc) => BigLeft(m, pc)
  }

  ghost predicate Advances(c: Config, m: Mem, th: Thread, o: Out) {
    && 0 <= StepsLeft(c, o.m, o.th) < StepsLeft(c, m, th)
    && !Spins(o.m, o.th.pc)
  }

  lemma PopAdvances(c: Config, m: Mem, t: int, th: Thread, sc: int, pc: FillPc)
    requires GoodConfig(c) && th.pc == Fill(sc, pc) && LocalInv(c, m, th) && StacksInv(m)
    requires pc.PopLoad? || pc.PopRead? || pc.PopCas? || pc.TakeLoad? || pc.TakeCas?
    ensures Advances(c, m, th, FillStep(c, m, t, th, sc, pc, false))
  {
    assert ListInv(m.partialList(sc), PartialNext(m.desc));
  }

  lemma SbAdvances(c: Config, m: Mem, t: int, th: Thread, sc: int, pc: FillPc)
    requires GoodConfig(c) && th.pc == Fill(sc, pc) && LocalInv(c, m, th) && !Spins(m, th.pc)
    requires pc.SbLoad? || pc.SbRead? || pc.SbCas? || pc.GrowLoad? || pc.GrowCheck? || pc.GrowCas?
    ensures Advances(c, m, th, FillStep(c, m, t, th, sc, pc, false))
  {
  }

  lemma NewAdvances(c: Config, m: Mem, t: int, th: Thread, sc: int, pc: FillPc)
    requires GoodConfig(c) && th.pc == Fill(sc, pc) && LocalInv(c, m, th)
    requires pc.NewInit? || pc.NewDesc? || pc.NewLink?
    ensures Advances(c, m, th, FillStep(c, m, t, th, sc, pc, false))
  {
  }

  lemma OrgAdvances(c: Config, m: Mem, th: Thread, lo: int, n: int, k: After, pc: OrgPc)
    requires GoodConfig(c) && th.pc == Org(lo, n, k, pc) && LocalInv(c, m, th) && forall sc :: th.bins(sc).num >= 0
    ensures Advances(c, m, th, OrgStep(m, th, lo, n, k, pc, false))
  {
  }

  lemma FlushAdvances(c: Config, m: Mem, t: int, th: Thread, sc: int, f: FlushFor, pc: FlushPc)
    requires th.pc == Flush(sc, f, pc) && LocalInv(c, m, th) && BinInv(c, m, t, sc, th.bins(sc))
    ensures Advances(c, m, th, FlushStep(m, t, th, sc, f, pc, false))
  {
    if pc.FlPick? {
      PickAdvances(c, m, t, th, sc, f);
    } else {
      var n := th.bins(sc).num;
      assert n >= 0 && (pc.FreePush? ==> f.ForFree?);
      ReturnAdvances(c, m, t, th, sc, f, pc);
    }
  }

  lemma PickAdvances(c: Config, m: Mem, t: int, th: Thread, sc: int, f: FlushFor)
    requires th.pc == Flush(sc, f, FlPick) && BinInv(c, m, t, sc, th.bins(sc))
    ensures Advances(c, m, th, StepFlPick(m, t, th, sc, f))
  {
    if th.bins(sc).num > 0 { PickRun(c, m, t, sc, th.bins(sc)); }
  }

  lemma ReturnAdvances(c: Config, m: Mem, t: int, th: Thread, sc: int, f: FlushFor, pc: FlushPc)
    requires th.pc == Flush(sc, f, pc) && !pc.FlPick? && th.bins(sc).num >= 0 && (pc.FreePush? ==> f.ForFree?)
    ensures Advances(c, m, th, FlushStep(m, t, th, sc, f, pc, false))
  {
  }

  lemma FillAdvances(c: Config, m: Mem, t: int, th: Thread, sc: int, pc: FillPc)
    requires GoodConfig(c) && th.pc == Fill(sc, pc) && LocalInv(c, m, th) && StacksInv(m) && !Spins(m, th.pc)
    ensures Advances(c, m, th, FillStep(c, m, t, th, sc, pc, false))
  {
    if pc.NewInit? || pc.NewDesc? || pc.NewLink? {
      NewAdvances(c, m, t, th, sc, pc);
    } else if pc.PopLoad? || pc.PopRead? || pc.PopCas? || pc.TakeLoad? || pc.TakeCas? {
      PopAdvances(c, m, t, th, sc, pc);
    } else {
      SbAdvances(c, m, t, th, sc, pc);
    }
  }

  lemma AloneStep(p: State, t: int)
    requires Inv(p) && !Over(p.th(t).pc) && !Spins(p.m, p.th(t).pc)
    ensures Advances(p.cfg, p.m, p.th(t), ThreadStep(p.cfg, p.m, t, p.th(t), false))
  {
    var c, m, th := p.cfg, p.m, p.th(t);
    assert GoodConfig(c) && StacksInv(m) by { assert SharedAt(c, m, 0); }
    assert ThreadInv(c, m, t, th);
    forall sc ensures BinInv(c, m, t, sc, th.bins(sc)) { assert ThreadAt(c, m, t, th, sc); }
    assert LocalInv(c, m, th) by { assert ThreadAt(c, m, t, th, 0); }
    ThreadAdvances(c, m, t, th);
  }

  lemma ThreadAdvances(c: Config, m: Mem, t: int, th: Thread)
    requires GoodConfig(c) && StacksInv(m) && LocalInv(c, m, th) && forall sc :: BinInv(c, m, t, sc, th.bins(sc))
    requires !Over(th.pc) && !Spins(m, th.pc)
    ensures Advances(c, m, th, ThreadStep(c, m, t, th, false))
  {
    match th.pc
    case Fill(sc, pc) => FillAdvances(c, m, t, th, sc, pc);
    case Org(lo, n, k, pc) =>
      forall sc ensures th.bins(sc).num >= 0 { assert BinInv(c, m, t, sc, th.bins(sc)); }
      OrgAdvances(c, m, th, lo, n, k, pc);
    case Flush(sc, f, pc) =>
      assert BinInv(c, m, t, sc, th.bins(sc));
      FlushAdvances(c, m, t, th, sc, f, pc);
    case _ =>
  }

  lemma SpinsOn(p: State, t: int)
    requires Spins(p.m, p.th(t).pc)
    ensures var o := ThreadStep(p.cfg, p.m, t, p.th(t), false); Spins(o.m, o.th.pc)
  {
  }

  /** n steps of thread t, no other thread moving. */
  ghost function Alone(p: State, t: int, n: nat): State {
    if n == 0 then p else Apply(Alone(p, t, n - 1), Continue(t, false))
  }

  lemma {:induction false} AloneFor(p: State, t: int, n: nat)
    requires Inv(p)
    ensures Inv(Alone(p, t, n))
    ensures var q := Alone(p, t, n);
            && (Spins(q.m, q.th(t).pc) <==> Spins(p.m, p.th(t).pc))
            && (!Spins(p.m, p.th(t).pc) && !Over(q.th(t).pc) ==>
                  StepsLeft(q.cfg, q.m, q.th(t)) <= StepsLeft(p.cfg, p.m, p.th(t)) - n)
  {
    if n > 0 {
      AloneFor(p, t, n - 1);
      var q := Alone(p, t, n - 1);
      StepKeepsInv(q, Continue(t, false));
      if Spins(q.m, q.th(t).pc) { SpinsOn(q, t); }
      else if !Over(q.th(t).pc) { AloneStep(q, t); }
    }
  }

  lemma LeftIsPositive(p: State, t: int)
    requires Inv(p) && !Over(p.th(t).pc) && !Spins(p.m, p.th(t).pc)
    ensures StepsLeft(p.cfg, p.m, p.th(t)) > 0
  {
    AloneStep(p, t);
  }

  /** Obstruction freedom, exactly: a thread that runs alone finishes its call if and only if it is not going
      round in small_sb_alloc, and then within a bound that it is given here. */
  lemma EndsAloneIff(p: State, t: int)
    requires Inv(p)
    ensures (exists n: nat :: Over(Alone(p, t, n).th(t).pc)) <==> !Spins(p.m, p.th(t).pc)
    ensures !Spins(p.m, p.th(t).pc) ==>
              exists n: nat :: n <= MostSteps(p, t) && Over(Alone(p, t, n).th(t).pc)
  {
    if Spins(p.m, p.th(t).pc) {
      forall n: nat ensures !Over(Alone(p, t, n).th(t).pc) { AloneFor(p, t, n); }
    } else {
      var n := MostSteps(p, t);
      AloneFor(p, t, n);
      var q := Alone(p, t, n);
      if !Over(q.th(t).pc) { LeftIsPositive(q, t); }
    }
  }

  ghost function MostSteps(p: State, t: int): nat {
    var n := StepsLeft(p.cfg, p.m, p.th(t));
    if n < 0 then 0 else n
  }
}
