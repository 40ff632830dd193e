/** What the application holds, told from its calls alone: which call was answered with which
    allocation, small or large, and what became of it.
*/
module AllocatorCalls {
  import opened AllocatorState
  import opened AllocatorSteps
  import opened AllocatorInvariant
  import opened AllocatorSafety
  import opened AllocatorOwnership
  import opened AllocatorLists

  // ---------- calls and their answers ----------

  datatype Alloc = SmallBlock(b: Block) | LargeBlock(lo: int)

  /** Allocation x, and the call it answered. */
  datatype Grant = Grant(x: Alloc, call: Action)

  /** The last call thread t has made. */
  ghost function LastCall(acts: seq<Action>, t: int): Action
    decreases |acts|
  {
    if acts == [] then Continue(t, false) else
    var a := acts[|acts| - 1];
    if a.t == t && !a.Continue? && !a.Write? then a else LastCall(acts[..|acts| - 1], t)
  }

  /** Step a answers a call of its thread with allocation x. */
  ghost predicate Answers(s: State, a: Action, x: Alloc) {
    match x
    case SmallBlock(b) => Returns(s, a, b)
    case LargeBlock(lo) => a.Continue? && s.th(a.t).pc.Large? && s.th(a.t).pc.big == BigInit(lo)
  }

  /** Action a gives x back. */
  ghost predicate GivesBack(a: Action, x: Alloc) {
    match x
    case SmallBlock(b) => a.Free? && a.b == b
    case LargeBlock(lo) => a.FreeBig? && a.lo == lo
  }

  /** Allocation x was returned in answer to `call`, along the run or before it, and has not been freed since. */
  ghost predicate Holds(s: State, had: iset<Grant>, acts: seq<Action>, x: Alloc, call: Action)
    decreases |acts|
  {
    if acts == [] then Grant(x, call) in had else
    var a, before := acts[|acts| - 1], acts[..|acts| - 1];
    if Answers(StateAfter(s, before), a, x) then call == LastCall(before, a.t)
    else Holds(s, had, before, x, call) && !GivesBack(a, x)
  }

  ghost predicate IsHeld(s: State, had: iset<Grant>, acts: seq<Action>, x: Alloc) {
    exists call :: Holds(s, had, acts, x, call)
  }

  // ---------- a call in progress is the last one ----------

  ghost predicate FlushesFor(t: int, sc: int, f: FlushFor, call: Action) {
    match f
    case ForFree(b) => call == Free(t, b)
    case ForExit => call == FlushCache(t, sc)
  }

  /** What thread t is doing, it is doing for this call. */
  ghost predicate Serving(t: int, pc: Pc, call: Action) {
    match pc
    case Idle => true
    case Aborted => true
    case Fill(sc, _) => call == Malloc(t, sc)
    case MallocPop(sc) => call == Malloc(t, sc)
    case Org(_, _, k, _) =>
      match k {
        case Refill(sc) => call == Malloc(t, sc)
        case Build(sc, _) => call == Malloc(t, sc)
        case Flushing(sc, f) => FlushesFor(t, sc, f, call)
        case Done => call.FreeBig? && call.t == t
      }
    case Flush(sc, f, _) => FlushesFor(t, sc, f, call)
    case Large(n, _) => call == MallocBig(t, n)
  }

  lemma FillServes(c: Config, m: Mem, t: int, th: Thread, sc: int, pc: FillPc, spurious: bool, call: Action)
    requires th.pc == Fill(sc, pc) && Serving(t, th.pc, call)
    ensures Serving(t, FillStep(c, m, t, th, sc, pc, spurious).th.pc, call)
  {
  }

  lemma FlushServes(m: Mem, t: int, th: Thread, sc: int, f: FlushFor, pc: FlushPc, spurious: bool, call: Action)
    requires th.pc == Flush(sc, f, pc) && Serving(t, th.pc, call)
    ensures Serving(t, FlushStep(m, t, th, sc, f, pc, spurious).th.pc, call)
  {
  }

  lemma ContinueServes(c: Config, m: Mem, t: int, th: Thread, spurious: bool, call: Action)
    requires Serving(t, th.pc, call)
    ensures Serving(t, ThreadStep(c, m, t, th, spurious).th.pc, call)
  {
    match th.pc
    case Fill(sc, pc) => FillServes(c, m, t, th, sc, pc, spurious, call);
    case Flush(sc, f, pc) => FlushServes(m, t, th, sc, f, pc, spurious, call);
    case _ =>
  }

  lemma {:induction false} ServesLastCall(s: State, acts: seq<Action>, t: int)
    requires (forall u :: s.th(u).pc.Idle?) && Legal(s, acts)
    ensures Serving(t, StateAfter(s, acts).th(t).pc, LastCall(acts, t))
    decreases |acts|
  {
    if acts != [] {
      LegalPrefix(s, acts);
      var a, before := acts[|acts| - 1], acts[..|acts| - 1];
      var p := StateAfter(s, before);
      ServesLastCall(s, before, t);
      if a.t == t && a.Continue? { ContinueServes(p.cfg, p.m, t, p.th(t), a.spurious, LastCall(before, t)); }
    }
  }

  // ---------- large allocations come and go with calls ----------

  /** No step but the last of a large malloc makes a superblock part of a large allocation. */
  lemma FillMakesNone(c: Config, m: Mem, t: int, th: Thread, sc: int, pc: FillPc, spurious: bool)
    ensures forall d :: FillStep(c, m, t, th, sc, pc, spurious).m.place(d).Big? ==> m.place(d).Big?
  {
  }

  lemma FlushMakesNone(m: Mem, t: int, th: Thread, sc: int, f: FlushFor, pc: FlushPc, spurious: bool)
    ensures forall d :: FlushStep(m, t, th, sc, f, pc, spurious).m.place(d).Big? ==> m.place(d).Big?
  {
  }

  lemma ContinueMakesNone(c: Config, m: Mem, t: int, th: Thread, spurious: bool)
    requires !(th.pc.Large? && th.pc.big.BigInit?)
    ensures forall d :: ThreadStep(c, m, t, th, spurious).m.place(d).Big? ==> m.place(d).Big?
  {
    match th.pc
    case Fill(sc, pc) => FillMakesNone(c, m, t, th, sc, pc, spurious);
    case Flush(sc, f, pc) => FlushMakesNone(m, t, th, sc, f, pc, spurious);
    case _ =>
  }

  ghost predicate IsLarge(m: Mem, lo: int, n: int) { m.place(lo) == Big(lo, n) }

  /** A large allocation appears when malloc returns it, with the size asked for, and disappears when
      it is freed. */
  lemma LargeChange(s: State, a: Action, lo: int, n: int)
    requires Inv(s) && Allowed(s, a)
    ensures IsLarge(Apply(s, a).m, lo, n) <==>
              if Answers(s, a, LargeBlock(lo)) then s.th(a.t).pc.n == n
              else IsLarge(s.m, lo, n) && !GivesBack(a, LargeBlock(lo))
  {
    var pc := s.th(a.t).pc;
    if a.FreeBig? {
      FreeBigMoves(s, a, lo);
    } else if a.Continue? && pc.Large? && pc.big.BigInit? {
      SettledStays(s, a);
      assert ThreadInv(s.cfg, s.m, a.t, s.th(a.t));
      assert pc.n >= 1 by { assert ThreadAt(s.cfg, s.m, a.t, s.th(a.t), 0); }
    } else {
      SettledStays(s, a);
      if a.Continue? { ContinueMakesNone(s.cfg, s.m, a.t, s.th(a.t), a.spurious); }
    }
  }

  // ---------- the class of a superblock in use does not change ----------

  ghost predicate ClassesKept(m: Mem, m': Mem) {
    forall d :: InUse(m.place(d)) ==> m'.desc(d).heap == m.desc(d).heap
  }

  lemma FillClasses(c: Config, m: Mem, t: int, th: Thread, sc: int, pc: FillPc, spurious: bool)
    requires ThreadInv(c, m, t, th) && th.pc == Fill(sc, pc)
    ensures ClassesKept(m, FillStep(c, m, t, th, sc, pc, spurious).m)
  {
    assert HoldInv(m, t, HoldOf(th.pc)) by { assert ThreadAt(c, m, t, th, 0); }
  }

  lemma OrgClasses(c: Config, m: Mem, t: int, th: Thread, lo: int, n: int, k: After, pc: OrgPc, spurious: bool)
    requires ThreadInv(c, m, t, th) && th.pc == Org(lo, n, k, pc)
    ensures ClassesKept(m, OrgStep(m, th, lo, n, k, pc, spurious).m)
  {
    assert HoldInv(m, t, HoldOf(th.pc)) && LocalInv(c, m, th) by { assert ThreadAt(c, m, t, th, 0); }
  }

  lemma FlushClasses(m: Mem, t: int, th: Thread, sc: int, f: FlushFor, pc: FlushPc, spurious: bool)
    ensures ClassesKept(m, FlushStep(m, t, th, sc, f, pc, spurious).m)
  {
  }

  lemma ContinueClasses(c: Config, m: Mem, t: int, th: Thread, spurious: bool)
    requires ThreadInv(c, m, t, th)
    ensures ClassesKept(m, ThreadStep(c, m, t, th, spurious).m)
  {
    match th.pc
    case Fill(sc, pc) => FillClasses(c, m, t, th, sc, pc, spurious);
    case Org(lo, n, k, pc) => OrgClasses(c, m, t, th, lo, n, k, pc, spurious);
    case Flush(sc, f, pc) => FlushClasses(m, t, th, sc, f, pc, spurious);
    case Large(n, pc) =>
      if pc.BigInit? {
        assert m.place(pc.lo) == HeldFree(t) by { assert ThreadAt(c, m, t, th, 0); }
      }
    case _ =>
  }

  // ---------- what is held ----------

  /** What the memory says the application holds. */
  ghost predicate Held(s: State, x: Alloc) {
    match x
    case SmallBlock(b) => s.m.owner(b) == App
    case LargeBlock(lo) => s.m.place(lo).Big? && s.m.place(lo).lo == lo
  }

  ghost function FirstSb(x: Alloc): int { if x.SmallBlock? then x.b.sb else x.lo }

  /** do_free finds out from the descriptor alone what it is given: the class is 0 exactly for a large
      allocation, whose superblocks it then counts, and otherwise the class of the superblock's blocks. */
  lemma FreeTellsKind(s: State, x: Alloc)
    requires Inv(s) && Held(s, x)
    ensures var D := s.m.desc(FirstSb(x));
            && D.heap.HeapOf? && (D.heap.sc == 0 <==> x.LargeBlock?)
            && (x.LargeBlock? ==> s.m.place(x.lo) == Big(x.lo, D.span))
            && (x.SmallBlock? ==> SmallClass(s.cfg, D.heap.sc) && 0 <= x.b.idx < s.cfg.maxcount(D.heap.sc))
  {
    assert SharedAt(s.cfg, s.m, FirstSb(x));
    assert x.SmallBlock? ==> x.b == Block(FirstSb(x), x.b.idx);
  }

  /** What the memory says about an allocation that answered `call`. */
  ghost predicate Serves(s: State, x: Alloc, call: Action) {
    match x
    case SmallBlock(b) => s.m.owner(b) == App && call.Malloc? && s.m.desc(b.sb).heap == HeapOf(call.sc)
    case LargeBlock(lo) => call.MallocBig? && IsLarge(s.m, lo, call.n)
  }

  ghost predicate StartsAt(s: State, had: iset<Grant>, x: Alloc, call: Action) {
    && s.m.place(0) == Skipped
    && (Grant(x, call) in had ==> Serves(s, x, call))
    && (Serves(s, x, call) ==> exists call' :: Grant(x, call') in had)
  }

  /** A run may start here, the application holding `had`: superblock 0 is skipped, no thread is inside a
      call, and the memory holds for the application exactly what it had. */
  ghost predicate Starts(s: State, had: iset<Grant>) {
    Inv(s) && (forall t :: s.th(t).pc.Idle?) && forall x, call :: StartsAt(s, had, x, call)
  }

  lemma InitStarts(s: State)
    requires Init(s)
    ensures Starts(s, iset{})
  {
    InitInv(s);
    forall x, call ensures StartsAt(s, iset{}, x, call) {}
  }

  lemma ServesNext(s: State, a: Action, x: Alloc, call: Action)
    requires Inv(s) && Allowed(s, a) && Serves(s, x, call) && !GivesBack(a, x) && !Answers(s, a, x)
    ensures Serves(Apply(s, a), x, call)
  {
    match x
    case SmallBlock(b) =>
      AppChange(s, a);
      assert ThreadInv(s.cfg, s.m, a.t, s.th(a.t));
      OwnedIsBlock(s, b);
      if a.Continue? { ContinueClasses(s.cfg, s.m, a.t, s.th(a.t), a.spurious); }
    case LargeBlock(lo) => LargeChange(s, a, lo, call.n);
  }

  lemma AnswerServes(s: State, a: Action, x: Alloc, call: Action)
    requires Inv(s) && Allowed(s, a) && Answers(s, a, x) && Serving(a.t, s.th(a.t).pc, call)
    ensures Serves(Apply(s, a), x, call)
  {
    var th := s.th(a.t);
    assert ThreadInv(s.cfg, s.m, a.t, th);
    match x
    case SmallBlock(b) =>
      AppChange(s, a);
      assert ThreadAt(s.cfg, s.m, a.t, th, th.pc.sc);
      assert b in th.bins(th.pc.sc).blocks;
    case LargeBlock(lo) => LargeChange(s, a, lo, call.n);
  }

  /** Every allocation that is held is, in memory, of the class or the number of superblocks that the
      call asked for which it answered. */
  lemma {:induction false} HeldServes(s: State, had: iset<Grant>, acts: seq<Action>, x: Alloc, call: Action)
    requires Starts(s, had) && Legal(s, acts) && Holds(s, had, acts, x, call)
    ensures Serves(StateAfter(s, acts), x, call)
    decreases |acts|
  {
    if acts == [] {
      assert StartsAt(s, had, x, call);
    } else {
      LegalPrefix(s, acts);
      var a, before := acts[|acts| - 1], acts[..|acts| - 1];
      var p := StateAfter(s, before);
      RunKeepsInv(s, before);
      if Answers(p, a, x) {
        ServesLastCall(s, before, a.t);
        AnswerServes(p, a, x, call);
      } else {
        HeldServes(s, had, before, x, call);
        ServesNext(p, a, x, call);
      }
    }
  }

  /** And nothing else is: what memory marks as the application's was returned to it by a call. */
  lemma {:induction false} ServesHeld(s: State, had: iset<Grant>, acts: seq<Action>, x: Alloc, call: Action)
    requires Starts(s, had) && Legal(s, acts) && Serves(StateAfter(s, acts), x, call)
    ensures IsHeld(s, had, acts, x)
    decreases |acts|
  {
    if acts == [] {
      assert StartsAt(s, had, x, call);
      var c :| Grant(x, c) in had;
      assert Holds(s, had, acts, x, c);
    } else {
      LegalPrefix(s, acts);
      var a, before := acts[|acts| - 1], acts[..|acts| - 1];
      var p := StateAfter(s, before);
      RunKeepsInv(s, before);
      if Answers(p, a, x) {
        assert Holds(s, had, acts, x, LastCall(before, a.t));
      } else {
        ServedBefore(p, a, x, call);
        ServesHeld(s, had, before, x, call);
        var c :| Holds(s, had, before, x, c);
        assert Holds(s, had, acts, x, c);
      }
    }
  }

  lemma ServedBefore(s: State, a: Action, x: Alloc, call: Action)
    requires Inv(s) && Allowed(s, a) && Serves(Apply(s, a), x, call) && !Answers(s, a, x)
    ensures Serves(s, x, call) && !GivesBack(a, x)
  {
    match x
    case SmallBlock(b) =>
      AppChange(s, a);
      assert ThreadInv(s.cfg, s.m, a.t, s.th(a.t));
      OwnedIsBlock(s, b);
      if a.Continue? { ContinueClasses(s.cfg, s.m, a.t, s.th(a.t), a.spurious); }
    case LargeBlock(lo) => LargeChange(s, a, lo, call.n);
  }
}
