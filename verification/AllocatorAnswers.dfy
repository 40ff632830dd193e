/** What each call gets, told from the calls: malloc returns exactly one allocation, of the kind asked for;
    what free and flush_cache leave in the thread's cache; and that malloc turns to a new superblock only
    after it has found nothing better.
*/
module AllocatorAnswers {
  import opened AllocatorState
  import opened AllocatorSteps
  import opened AllocatorInvariant
  import opened AllocatorFill
  import opened AllocatorFree
  import opened AllocatorSafety
  import opened AllocatorOwnership
  import opened AllocatorLists
  import opened AllocatorCalls

  // ---------- since the last call ----------

  ghost predicate IsCall(a: Action) { !a.Continue? && !a.Write? }

  /** What step a gives the application. */
  ghost function GivenBy(p: State, a: Action): seq<Alloc> { if x :| Answers(p, a, x) then [x] else [] }

  /** What thread t has given it since its last call. */
  ghost function Given(s: State, acts: seq<Action>, t: int): seq<Alloc>
    decreases |acts|
  {
    if acts == [] then [] else
    var before, a := acts[..|acts| - 1], acts[|acts| - 1];
    if a.t != t then Given(s, before, t)
    else if IsCall(a) then []
    else Given(s, before, t) + GivenBy(StateAfter(s, before), a)
  }

  /** The state in which thread t made its last call. */
  ghost function AtCall(s: State, acts: seq<Action>, t: int): State
    decreases |acts|
  {
    if acts == [] then s else
    var before, a := acts[..|acts| - 1], acts[|acts| - 1];
    if a.t == t && IsCall(a) then StateAfter(s, before) else AtCall(s, before, t)
  }

  /** The list was empty at a moment since then. */
  ghost predicate EmptySince(s: State, acts: seq<Action>, t: int, id: StackId)
    decreases |acts|
  {
    || StackAt(StateAfter(s, acts).m, id).lst == []
    || (&& acts != [] && !(acts[|acts| - 1].t == t && IsCall(acts[|acts| - 1]))
        && EmptySince(s, acts[..|acts| - 1], t, id))
  }

  /** The application gains exactly what an answer gives it. */
  lemma AnswerIsGain(s: State, a: Action, x: Alloc)
    requires Inv(s) && Allowed(s, a)
    ensures Answers(s, a, x) <==> !Held(s, x) && Held(Apply(s, a), x)
  {
    var th := s.th(a.t);
    assert ThreadInv(s.cfg, s.m, a.t, th);
    match x
    case SmallBlock(b) =>
      AppChange(s, a);
      if Returns(s, a, b) { assert ThreadAt(s.cfg, s.m, a.t, th, th.pc.sc); }
    case LargeBlock(lo) =>
      forall n ensures IsLarge(Apply(s, a).m, lo, n) <==>
              if Answers(s, a, x) then th.pc.n == n else IsLarge(s.m, lo, n) && !GivesBack(a, x) {
        LargeChange(s, a, lo, n);
      }
      if Answers(s, a, x) {
        assert ThreadAt(s.cfg, s.m, a.t, th, 0);
        assert IsLarge(Apply(s, a).m, lo, th.pc.n);
      }
      if Held(Apply(s, a), x) { assert IsLarge(Apply(s, a).m, lo, Apply(s, a).m.place(lo).n); }
  }

  // ---------- malloc returns one allocation ----------

  /** What a call that has returned has given, and one that has not. */
  ghost predicate Result(pc: Pc, call: Action, given: seq<Alloc>) {
    if pc.Idle? && call.Malloc? then |given| == 1 && given[0].SmallBlock?
    else if pc.Idle? && call.MallocBig? then |given| == 1 && given[0].LargeBlock?
    else given == []
  }

  lemma GivenAt(p: State, a: Action)
    requires Inv(p) && a.Continue?
    ensures var pc := p.th(a.t).pc;
            if pc.MallocPop? then exists b :: GivenBy(p, a) == [SmallBlock(b)]
            else if pc.Large? && pc.big.BigInit? then GivenBy(p, a) == [LargeBlock(pc.big.lo)]
            else GivenBy(p, a) == []
  {
    var pc := p.th(a.t).pc;
    if pc.MallocPop? {
      assert ThreadInv(p.cfg, p.m, a.t, p.th(a.t));
      assert ThreadAt(p.cfg, p.m, a.t, p.th(a.t), pc.sc);
      assert Answers(p, a, SmallBlock(p.th(a.t).bins(pc.sc).head.b));
    } else if pc.Large? && pc.big.BigInit? {
      assert Answers(p, a, LargeBlock(pc.big.lo));
    }
  }

  lemma ResultNext(p: State, a: Action, call: Action, given: seq<Alloc>)
    requires Inv(p) && a.Continue? && Serving(a.t, p.th(a.t).pc, call) && Result(p.th(a.t).pc, call, given)
    ensures Result(Apply(p, a).th(a.t).pc, call, given + GivenBy(p, a))
  {
    GivenAt(p, a);
    var pc := p.th(a.t).pc;
    if pc.Fill? { FillGoesOn(p.cfg, p.m, a.t, p.th(a.t), pc.sc, pc.fill, a.spurious); }
    if pc.MallocPop? {
      assert ThreadInv(p.cfg, p.m, a.t, p.th(a.t));
      assert ThreadAt(p.cfg, p.m, a.t, p.th(a.t), pc.sc);
    }
    assert given + [] == given;
  }

  lemma FillGoesOn(c: Config, m: Mem, t: int, th: Thread, sc: int, pc: FillPc, spurious: bool)
    requires th.pc == Fill(sc, pc)
    ensures !FillStep(c, m, t, th, sc, pc, spurious).th.pc.Idle?
  {
  }

  /** Under any interleaving a malloc that has returned has given the application exactly one allocation, small
      or large as asked for; one that has not returned, and any other call, has given it nothing. */
  lemma {:induction false} CallsAnswered(s: State, acts: seq<Action>, t: int)
    requires Inv(s) && (forall u :: s.th(u).pc.Idle?) && Legal(s, acts)
    ensures Result(StateAfter(s, acts).th(t).pc, LastCall(acts, t), Given(s, acts, t))
    decreases |acts|
  {
    if acts != [] {
      LegalPrefix(s, acts);
      var before, a := acts[..|acts| - 1], acts[|acts| - 1];
      CallsAnswered(s, before, t);
      RunKeepsInv(s, before);
      ServesLastCall(s, before, t);
      var p := StateAfter(s, before);
      if a.t == t && a.Continue? { ResultNext(p, a, LastCall(before, t), Given(s, before, t)); }
      if a.t == t && a.Write? { assert GivenBy(p, a) == [] && Given(s, before, t) + [] == Given(s, before, t); }
      if a.t == t && IsCall(a) { CallStarts(p, a); }
    }
  }

  lemma CallStarts(p: State, a: Action)
    requires Allowed(p, a) && IsCall(a)
    ensures !Apply(p, a).th(a.t).pc.Idle?
  {
  }

  /** And it is of the class, or of the number of superblocks, that the call asked for. */
  lemma AnswerFits(s: State, acts: seq<Action>, a: Action, x: Alloc)
    requires Inv(s) && (forall u :: s.th(u).pc.Idle?) && Legal(s, acts)
    requires Allowed(StateAfter(s, acts), a) && Answers(StateAfter(s, acts), a, x)
    ensures Serves(Apply(StateAfter(s, acts), a), x, LastCall(acts, a.t))
  {
    RunKeepsInv(s, acts);
    ServesLastCall(s, acts, a.t);
    AnswerServes(StateAfter(s, acts), a, x, LastCall(acts, a.t));
  }

  // ---------- what calls leave in the caches ----------

  /** The caches of the other classes stay as they were at the call. */
  ghost predicate OthersKept(bins: int -> Bin, was: int -> Bin, sc: int) { forall c :: c != sc ==> bins(c) == was(c) }

  /** What do_free pushes its block on: the cache, or nothing if it was full. */
  ghost function MadeRoom(c: Config, blocks: seq<Block>, sc: int): seq<Block> {
    if |blocks| >= c.maxcount(sc) then [] else blocks
  }

  ghost predicate InSb(blocks: seq<Block>, d: int) { forall b :: b in blocks ==> b.sb == d }

  ghost predicate FlushCaches(c: Config, cls: int, sc: int, f: FlushFor, fl: FlushPc, bins: int -> Bin,
                              was: int -> Bin) {
    && OthersKept(bins, was, sc)
    && (f.ForFree? ==> sc == cls)
    && (f.ForFree? && fl.FreePush? ==> bins(sc).blocks == MadeRoom(c, was(sc).blocks, sc))
    && (f.ForFree? && !fl.FreePush? ==> |was(sc).blocks| >= c.maxcount(sc))
  }

  /** The caches of a thread, by where it is in its call, compared with what they were when it made the call;
      cls is the class of the block that is freed. */
  ghost predicate Caches(c: Config, cls: int, pc: Pc, bins: int -> Bin, was: int -> Bin) {
    match pc
    case Idle => true
    case Aborted => true
    case Fill(sc, _) => bins == was
    case MallocPop(sc) =>
      && OthersKept(bins, was, sc)
      && if was(sc).blocks != [] then bins(sc) == was(sc) else exists d :: InSb(bins(sc).blocks, d)
    case Org(_, _, k, _) =>
      match k {
        case Flushing(sc, f) => FlushCaches(c, cls, sc, f, FlPick, bins, was)
        case _ => bins == was
      }
    case Flush(sc, f, fl) => FlushCaches(c, cls, sc, f, fl, bins, was)
    case Large(_, _) => bins == was
  }

  /** The first block is given away, of a cache that was filled or that has been filled from one superblock. */
  ghost predicate Popped(was: seq<Block>, now: seq<Block>, given: seq<Alloc>) {
    && |given| == 1 && given[0].SmallBlock?
    && if was != [] then given[0].b == was[0] && now == was[1..] else InSb(now, given[0].b.sb)
  }

  /** What a call that has returned has left. A malloc took the first block, filling the cache before if it was
      empty, from one superblock. A free put its block in front of the cache, having emptied it before if it was
      full. flush_cache left nothing. Caches of other classes were not touched. */
  ghost predicate Left(c: Config, cls: int, call: Action, given: seq<Alloc>, bins: int -> Bin, was: int -> Bin) {
    match call
    case Malloc(_, sc) =>
      && OthersKept(bins, was, sc)
      && Popped(was(sc).blocks, bins(sc).blocks, given)
    case Free(_, b) => OthersKept(bins, was, cls) && bins(cls).blocks == [b] + MadeRoom(c, was(cls).blocks, cls)
    case FlushCache(_, sc) => OthersKept(bins, was, sc) && bins(sc).blocks == []
    case _ => bins == was
  }

  ghost predicate CachesOf(c: Config, cls: int, th: Thread, call: Action, given: seq<Alloc>, was: int -> Bin) {
    if th.pc.Idle? then Left(c, cls, call, given, th.bins, was) else Caches(c, cls, th.pc, th.bins, was)
  }

  lemma FillCaches(c: Config, m: Mem, t: int, th: Thread, sc: int, pc: FillPc, spurious: bool, cls: int,
                   was: int -> Bin)
    requires ThreadInv(c, m, t, th) && th.pc == Fill(sc, pc) && Caches(c, cls, th.pc, th.bins, was)
    ensures var th' := FillStep(c, m, t, th, sc, pc, spurious).th;
            !th'.pc.Idle? && Caches(c, cls, th'.pc, th'.bins, was)
  {
    assert ThreadAt(c, m, t, th, sc);
    var th' := FillStep(c, m, t, th, sc, pc, spurious).th;
    if th'.pc.MallocPop? {
      BlocksInSb(pc.d, m.chain(pc.d));
      BlocksInSb(pc.d, Iota(0, c.maxcount(sc)));
      assert InSb(th'.bins(sc).blocks, pc.d);
    }
  }

  lemma BlocksInSb(d: int, q: seq<int>)
    ensures InSb(BlocksOf(d, q), d)
  {
  }

  lemma PopCaches(c: Config, m: Mem, t: int, th: Thread, sc: int, cls: int, given: seq<Alloc>, was: int -> Bin)
    requires ThreadInv(c, m, t, th) && th.pc == MallocPop(sc) && Caches(c, cls, th.pc, th.bins, was)
    requires th.bins(sc).head.At? ==> given == [SmallBlock(th.bins(sc).head.b)]
    ensures var th' := StepMallocPop(m, th, sc).th;
            th'.pc.Idle? && Left(c, cls, Malloc(t, sc), given, th'.bins, was)
  {
    assert ThreadAt(c, m, t, th, sc);
  }

  lemma FlushCachesNext(c: Config, m: Mem, t: int, th: Thread, sc: int, f: FlushFor, pc: FlushPc, spurious: bool,
                        cls: int, call: Action, was: int -> Bin)
    requires BinInv(c, m, t, sc, th.bins(sc)) && th.pc == Flush(sc, f, pc)
    requires FlushCaches(c, cls, sc, f, pc, th.bins, was) && FlushesFor(t, sc, f, call)
    requires pc.FreePush? ==> f.ForFree?
    ensures CachesOf(c, cls, FlushStep(m, t, th, sc, f, pc, spurious).th, call, [], was)
  {
  }

  lemma FlushOn(c: Config, m: Mem, t: int, th: Thread, spurious: bool, cls: int, call: Action, was: int -> Bin)
    requires ThreadInv(c, m, t, th) && th.pc.Flush? && Serving(t, th.pc, call) && Caches(c, cls, th.pc, th.bins, was)
    ensures CachesOf(c, cls, ThreadStep(c, m, t, th, spurious).th, call, [], was)
  {
    var sc, f, pc := th.pc.sc, th.pc.f, th.pc.fl;
    assert BinInv(c, m, t, sc, th.bins(sc)) && (pc.FreePush? ==> f.ForFree?) by { assert ThreadAt(c, m, t, th, sc); }
    FlushCachesNext(c, m, t, th, sc, f, pc, spurious, cls, call, was);
  }

  lemma OtherOn(c: Config, m: Mem, t: int, th: Thread, spurious: bool, cls: int, call: Action, given: seq<Alloc>,
                was: int -> Bin)
    requires th.pc.Idle? || th.pc.Aborted? || th.pc.Org? || th.pc.Large?
    requires Serving(t, th.pc, call) && CachesOf(c, cls, th, call, given, was)
    ensures var th' := ThreadStep(c, m, t, th, spurious).th;
            forall more :: (th.pc.Idle? ==> more == given) ==> CachesOf(c, cls, th', call, more, was)
  {
  }

  lemma CachesNext(p: State, a: Action, cls: int, call: Action, given: seq<Alloc>, was: int -> Bin)
    requires Inv(p) && a.Continue? && Serving(a.t, p.th(a.t).pc, call) && Result(p.th(a.t).pc, call, given)
    requires CachesOf(p.cfg, cls, p.th(a.t), call, given, was)
    ensures CachesOf(p.cfg, cls, Apply(p, a).th(a.t), call, given + GivenBy(p, a), was)
  {
    var c, m, t, th := p.cfg, p.m, a.t, p.th(a.t);
    assert ThreadInv(c, m, t, th);
    GivenAt(p, a);
    assert given + [] == given && [] + GivenBy(p, a) == GivenBy(p, a);
    if th.pc.Fill? {
      FillCaches(c, m, t, th, th.pc.sc, th.pc.fill, a.spurious, cls, was);
    } else if th.pc.Flush? {
      FlushOn(c, m, t, th, a.spurious, cls, call, was);
    } else if th.pc.MallocPop? {
      PopGives(p, a);
      PopCaches(c, m, t, th, th.pc.sc, cls, GivenBy(p, a), was);
    } else {
      OtherOn(c, m, t, th, a.spurious, cls, call, given, was);
    }
  }

  lemma PopGives(p: State, a: Action)
    requires Inv(p) && a.Continue? && p.th(a.t).pc.MallocPop?
    ensures var bin := p.th(a.t).bins(p.th(a.t).pc.sc); bin.head.At? && GivenBy(p, a) == [SmallBlock(bin.head.b)]
  {
    var th := p.th(a.t);
    assert ThreadInv(p.cfg, p.m, a.t, th);
    assert ThreadAt(p.cfg, p.m, a.t, th, th.pc.sc);
    assert Answers(p, a, SmallBlock(th.bins(th.pc.sc).head.b));
  }

  ghost function ClassFreed(p: State, call: Action): int {
    if call.Free? && p.m.desc(call.b.sb).heap.HeapOf? then p.m.desc(call.b.sb).heap.sc else 0
  }

  lemma CachesStart(p: State, a: Action)
    requires Inv(p) && Allowed(p, a) && IsCall(a)
    ensures CachesOf(p.cfg, ClassFreed(p, a), Apply(p, a).th(a.t), a, [], p.th(a.t).bins)
  {
    var th := p.th(a.t);
    assert ThreadInv(p.cfg, p.m, a.t, th);
    var sc := if a.Malloc? then a.sc else ClassFreed(p, a);
    assert BinInv(p.cfg, p.m, a.t, sc, th.bins(sc)) by { assert ThreadAt(p.cfg, p.m, a.t, th, sc); }
    assert a.Free? ==> p.m.desc(a.b.sb).heap.HeapOf? by { if a.Free? { FreedHasHeap(p, a.b); } }
    StartCaches(p.cfg, p.m, a.t, th, a, sc);
  }

  lemma FreedHasHeap(p: State, b: Block)
    requires SharedInv(p.cfg, p.m) && p.m.owner(b) == App
    ensures p.m.desc(b.sb).heap.HeapOf?
  {
    assert SharedAt(p.cfg, p.m, b.sb) && b == Block(b.sb, b.idx);
  }

  lemma StartCaches(c: Config, m: Mem, t: int, th: Thread, a: Action, sc: int)
    requires BinInv(c, m, t, sc, th.bins(sc)) && IsCall(a) && (a.Malloc? ==> a.sc == sc)
    requires a.Free? ==> m.desc(a.b.sb).heap == HeapOf(sc)
    ensures var th' := Act(c, m, t, th, a).th; !th'.pc.Idle? && Caches(c, sc, th'.pc, th'.bins, th.bins)
  {
  }

  lemma {:induction false} CachesFollow(s: State, acts: seq<Action>, t: int)
    requires Inv(s) && (forall u :: s.th(u).pc.Idle?) && Legal(s, acts)
    ensures var p, p0, call := StateAfter(s, acts), AtCall(s, acts, t), LastCall(acts, t);
            CachesOf(p.cfg, ClassFreed(p0, call), p.th(t), call, Given(s, acts, t), p0.th(t).bins) && p.cfg == s.cfg
    decreases |acts|
  {
    if acts != [] {
      LegalPrefix(s, acts);
      var before, a := acts[..|acts| - 1], acts[|acts| - 1];
      CachesFollow(s, before, t);
      RunKeepsInv(s, before);
      ServesLastCall(s, before, t);
      CallsAnswered(s, before, t);
      var p, p0, call := StateAfter(s, before), AtCall(s, before, t), LastCall(before, t);
      if a.t == t && a.Continue? {
        CachesNext(p, a, ClassFreed(p0, call), call, Given(s, before, t), p0.th(t).bins);
      } else if a.t == t && IsCall(a) {
        CachesStart(p, a);
      } else if a.t == t {
        assert GivenBy(p, a) == [] && Given(s, before, t) + [] == Given(s, before, t);
      }
    }
  }

  /** The same, with the caches read from memory. */
  lemma CachesLeft(s: State, acts: seq<Action>, t: int, sc: int)
    requires Inv(s) && (forall u :: s.th(u).pc.Idle?) && Legal(s, acts) && StateAfter(s, acts).th(t).pc.Idle?
    ensures var p0, call := AtCall(s, acts, t), LastCall(acts, t);
            LeftInMemory(p0, StateAfter(s, acts), t, sc, call, Given(s, acts, t))
  {
    RunKeepsInv(s, acts);
    AtCallInv(s, acts, t);
    CachesFollow(s, acts, t);
    CacheWalk(StateAfter(s, acts), t, sc);
    CacheWalk(AtCall(s, acts, t), t, sc);
  }

  ghost predicate LeftInMemory(p0: State, p: State, t: int, sc: int, call: Action, given: seq<Alloc>) {
    var was, now := CacheBlocks(p0, t, sc), CacheBlocks(p, t, sc);
    if call.Malloc? && call.sc == sc then Popped(was, now, given)
    else if call.Free? && ClassFreed(p0, call) == sc then now == [call.b] + MadeRoom(p.cfg, was, sc)
    else if call.FlushCache? && call.sc == sc then now == []
    else now == was
  }

  lemma {:induction false} AtCallInv(s: State, acts: seq<Action>, t: int)
    requires Inv(s) && Legal(s, acts)
    ensures Inv(AtCall(s, acts, t))
    decreases |acts|
  {
    if acts != [] {
      LegalPrefix(s, acts);
      AtCallInv(s, acts[..|acts| - 1], t);
      RunKeepsInv(s, acts[..|acts| - 1]);
    }
  }

  // ---------- what malloc has found before it takes a new superblock ----------

  /** Thread t has seen that no superblock of class sc is partial. */
  ghost predicate SawNonePartial(pc: Pc, sc: int) {
    match pc
    case Fill(s, q) =>
      s == sc && !q.PopLoad? && !q.PopCas? && !q.TakeLoad? && !q.TakeCas? && (q.PopRead? ==> q.seen.ptr == Null)
    case Org(_, _, k, _) => k.Build? && k.sc == sc
    case _ => false
  }

  /** It has seen that no superblock is free. */
  ghost predicate SawNoneFree(pc: Pc) {
    match pc
    case Fill(_, q) => q.GrowLoad? || q.GrowCheck? || q.GrowCas? || q.NewInit? || (q.SbRead? && q.seen.ptr == Null)
    case Org(_, _, k, _) => k.Build?
    case _ => false
  }

  lemma FillSaw(c: Config, m: Mem, t: int, th: Thread, sc: int, pc: FillPc, spurious: bool)
    requires StacksInv(m) && th.pc == Fill(sc, pc) && FillLocal(c, m, sc, pc)
    ensures var pc' := FillStep(c, m, t, th, sc, pc, spurious).th.pc;
            && (SawNonePartial(pc', sc) ==> SawNonePartial(th.pc, sc) || m.partialList(sc).lst == [])
            && (forall x :: SawNonePartial(pc', x) ==> x == sc)
            && (SawNoneFree(pc') ==> SawNoneFree(th.pc) || m.availSb.lst == [])
  {
    assert ListInv(m.partialList(sc), PartialNext(m.desc));
  }

  lemma ContinueSaw(c: Config, m: Mem, t: int, th: Thread, spurious: bool, sc: int)
    requires StacksInv(m) && LocalInv(c, m, th)
    ensures var pc' := ThreadStep(c, m, t, th, spurious).th.pc;
            && (SawNonePartial(pc', sc) ==> SawNonePartial(th.pc, sc) || m.partialList(sc).lst == [])
            && (SawNoneFree(pc') ==> SawNoneFree(th.pc) || m.availSb.lst == [])
  {
    match th.pc
    case Fill(x, pc) => FillSaw(c, m, t, th, x, pc, spurious);
    case Flush(x, f, pc) => FlushSees(m, t, th, x, f, pc, spurious, sc);
    case _ =>
  }

  lemma FlushSees(m: Mem, t: int, th: Thread, sc: int, f: FlushFor, pc: FlushPc, spurious: bool, x: int)
    ensures var pc' := FlushStep(m, t, th, sc, f, pc, spurious).th.pc;
            !SawNonePartial(pc', x) && !SawNoneFree(pc')
  {
  }

  lemma {:induction false} SawIsSo(s: State, acts: seq<Action>, t: int, sc: int)
    requires Inv(s) && (forall u :: s.th(u).pc.Idle?) && Legal(s, acts)
    ensures var pc := StateAfter(s, acts).th(t).pc;
            && (SawNonePartial(pc, sc) ==> EmptySince(s, acts, t, PartialOf(sc)))
            && (SawNoneFree(pc) ==> EmptySince(s, acts, t, AvailStack))
    decreases |acts|
  {
    if acts != [] {
      LegalPrefix(s, acts);
      var before, a := acts[..|acts| - 1], acts[|acts| - 1];
      SawIsSo(s, before, t, sc);
      RunKeepsInv(s, before);
      SawNext(StateAfter(s, before), a, t, sc);
    }
  }

  lemma SawNext(p: State, a: Action, t: int, sc: int)
    requires Inv(p) && Allowed(p, a)
    ensures var pc, pc' := p.th(t).pc, Apply(p, a).th(t).pc;
            if a.t == t && IsCall(a) then !SawNonePartial(pc', sc) && !SawNoneFree(pc')
            else
              && (SawNonePartial(pc', sc) ==> SawNonePartial(pc, sc) || StackAt(p.m, PartialOf(sc)).lst == [])
              && (SawNoneFree(pc') ==> SawNoneFree(pc) || StackAt(p.m, AvailStack).lst == [])
  {
    if a.t == t && a.Continue? {
      assert StacksInv(p.m) by { assert SharedAt(p.cfg, p.m, 0); }
      assert ThreadInv(p.cfg, p.m, t, p.th(t));
      assert LocalInv(p.cfg, p.m, p.th(t)) by { assert ThreadAt(p.cfg, p.m, t, p.th(t), 0); }
      ContinueSaw(p.cfg, p.m, t, p.th(t), a.spurious, sc);
    }
  }

  /** A superblock is put to new use for a class only if, at a moment of the call, none of that class was partial. */
  lemma NewUseOnlyIfNeeded(s: State, acts: seq<Action>, a: Action, d: int)
    requires Inv(s) && (forall u :: s.th(u).pc.Idle?) && Legal(s, acts) && Allowed(StateAfter(s, acts), a)
    requires !InUse(StateAfter(s, acts).m.place(d)) && InUse(Apply(StateAfter(s, acts), a).m.place(d))
    ensures var heap := Apply(StateAfter(s, acts), a).m.desc(d).heap;
            heap.HeapOf? && EmptySince(s, acts, a.t, PartialOf(heap.sc))
  {
    var p := StateAfter(s, acts);
    RunKeepsInv(s, acts);
    StepIntoUse(p, a);
    SawIsSo(s, acts, a.t, Apply(p, a).m.desc(d).heap.sc);
  }

  /** The superblocks that come into use: at most one, of class sc, at the end of malloc_from_newsb. */
  ghost predicate IntoUse(m: Mem, m': Mem, pc: Pc) {
    forall d :: !InUse(m.place(d)) && InUse(m'.place(d)) ==>
                  pc.Fill? && pc.fill.NewLink? && m'.desc(d).heap == HeapOf(pc.sc)
  }

  lemma FillIntoUse(c: Config, m: Mem, t: int, th: Thread, sc: int, pc: FillPc, spurious: bool)
    requires SharedInv(c, m) && ThreadInv(c, m, t, th) && th.pc == Fill(sc, pc)
    ensures IntoUse(m, FillStep(c, m, t, th, sc, pc, spurious).m, th.pc)
  {
    if pc.PopCas? {
      assert FillLocal(c, m, sc, pc) by { assert ThreadAt(c, m, t, th, 0); }
      PopIntoUse(c, m, t, th, sc, pc, spurious);
    } else if pc.TakeCas? {
      assert m.place(pc.d) == HeldUsed(t) by { assert ThreadAt(c, m, t, th, 0); }
    } else if pc.NewLink? {
      assert m.desc(pc.d).heap == HeapOf(sc) by { assert ThreadAt(c, m, t, th, 0); }
    }
  }

  lemma PopIntoUse(c: Config, m: Mem, t: int, th: Thread, sc: int, pc: FillPc, spurious: bool)
    requires SharedInv(c, m) && FillLocal(c, m, sc, pc) && pc.PopCas?
    ensures IntoUse(m, FillStep(c, m, t, th, sc, pc, spurious).m, Fill(sc, pc))
  {
    assert StacksInv(m) by { assert SharedAt(c, m, 0); }
    if m.partialList(sc).head == pc.seen {
      PopNextCurrent(m.partialList(sc), PartialNext(m.desc), pc.seen, pc.next);
      assert Exactly(m.partialList(sc).lst, m.place, Listed(sc));
      assert pc.seen.ptr.d in m.partialList(sc).lst;
    }
  }

  lemma FlushIntoUse(c: Config, m: Mem, t: int, th: Thread, sc: int, f: FlushFor, pc: FlushPc, spurious: bool)
    requires SharedInv(c, m) && ThreadInv(c, m, t, th) && th.pc == Flush(sc, f, pc)
    ensures IntoUse(m, FlushStep(m, t, th, sc, f, pc, spurious).m, th.pc)
  {
    assert HoldInv(m, t, HoldOf(th.pc)) && LocalInv(c, m, th) by { assert ThreadAt(c, m, t, th, 0); }
    if pc.FlCas? { assert InUse(m.place(pc.d)) by { SpliceUsed(c, m, t, pc.d, pc.blks); } }
  }

  lemma ContinueIntoUse(c: Config, m: Mem, t: int, th: Thread, spurious: bool)
    requires SharedInv(c, m) && ThreadInv(c, m, t, th)
    ensures IntoUse(m, ThreadStep(c, m, t, th, spurious).m, th.pc)
  {
    match th.pc
    case Fill(sc, pc) => FillIntoUse(c, m, t, th, sc, pc, spurious);
    case Flush(sc, f, pc) => FlushIntoUse(c, m, t, th, sc, f, pc, spurious);
    case _ =>
  }

  lemma StepIntoUse(p: State, a: Action)
    requires Inv(p) && Allowed(p, a)
    ensures IntoUse(p.m, Apply(p, a).m, p.th(a.t).pc)
  {
    assert ThreadInv(p.cfg, p.m, a.t, p.th(a.t));
    if a.Continue? { ContinueIntoUse(p.cfg, p.m, a.t, p.th(a.t), a.spurious); }
  }

  /** And the region grows for a small request only if none was free either. */
  lemma GrowsOnlyIfNeeded(s: State, acts: seq<Action>, a: Action)
    requires Inv(s) && (forall u :: s.th(u).pc.Idle?) && Legal(s, acts) && Allowed(StateAfter(s, acts), a)
    requires Apply(StateAfter(s, acts), a).m.frontier != StateAfter(s, acts).m.frontier
    ensures var call := LastCall(acts, a.t);
            || call.MallocBig?
            || (call.Malloc? && EmptySince(s, acts, a.t, PartialOf(call.sc)) && EmptySince(s, acts, a.t, AvailStack))
  {
    var p, call := StateAfter(s, acts), LastCall(acts, a.t);
    ServesLastCall(s, acts, a.t);
    StepGrows(p, a);
    if call.Malloc? { SawIsSo(s, acts, a.t, call.sc); }
  }

  ghost predicate Growing(pc: Pc) { pc.Large? || (pc.Fill? && pc.fill.GrowCas?) }

  lemma ContinueGrows(c: Config, m: Mem, t: int, th: Thread, spurious: bool)
    ensures ThreadStep(c, m, t, th, spurious).m.frontier == m.frontier || Growing(th.pc)
  {
    match th.pc
    case Fill(sc, pc) =>
    case Flush(sc, f, pc) => FlushGrows(m, t, th, sc, f, pc, spurious);
    case _ =>
  }

  lemma FlushGrows(m: Mem, t: int, th: Thread, sc: int, f: FlushFor, pc: FlushPc, spurious: bool)
    ensures FlushStep(m, t, th, sc, f, pc, spurious).m.frontier == m.frontier
  {
  }

  lemma StepGrows(p: State, a: Action)
    ensures Apply(p, a).m.frontier == p.m.frontier || (a.Continue? && Growing(p.th(a.t).pc))
  {
    if a.Continue? { ContinueGrows(p.cfg, p.m, a.t, p.th(a.t), a.spurious); }
  }

  // ---------- flushing ----------

  /** What flush_cache takes out of the cache in one go is the longest run of blocks of one superblock at its
      front. */
  lemma PicksLongest(p: State, t: int, sc: int, f: FlushFor)
    requires Inv(p) && p.th(t).pc == Flush(sc, f, FlPick) && CacheBlocks(p, t, sc) != []
    ensures var was, p' := CacheBlocks(p, t, sc), Apply(p, Continue(t, false));
            var fl := p'.th(t).pc.fl;
            && p'.th(t).pc == Flush(sc, f, fl) && fl.FlLoad? && fl.blks != [] && |fl.blks| <= |was|
            && was == BlocksOf(fl.d, fl.blks) + CacheBlocks(p', t, sc)
            && (CacheBlocks(p', t, sc) != [] ==> CacheBlocks(p', t, sc)[0].sb != fl.d)
  {
    var p', bin := Apply(p, Continue(t, false)), p.th(t).bins(sc);
    CacheWalk(p, t, sc);
    StepKeepsInv(p, Continue(t, false));
    CacheWalk(p', t, sc);
    assert ThreadInv(p.cfg, p.m, t, p.th(t));
    assert BinInv(p.cfg, p.m, t, sc, bin) by { assert ThreadAt(p.cfg, p.m, t, p.th(t), sc); }
    LongestRun(p.cfg, p.m, t, sc, bin);
  }

  lemma LongestRun(c: Config, m: Mem, t: int, sc: int, bin: Bin)
    requires BinInv(c, m, t, sc, bin) && bin.blocks != []
    ensures bin.head.At?
    ensures var r, d := Run(m.link, bin.head.b, bin.num), bin.head.b.sb;
            && |r| <= |bin.blocks| && bin.blocks == BlocksOf(d, r) + bin.blocks[|r|..]
            && (|r| < |bin.blocks| ==> bin.blocks[|r|].sb != d)
  {
    RunIsPrefix(m.link, bin.blocks);
  }

  // ---------- who retires a superblock ----------

  /** A superblock that becomes empty is retired at once, by the thread that emptied it, if it was full, and
      otherwise stays where it is. */
  ghost predicate EmptiedOk(m: Mem, m': Mem, t: int, d: int) {
    m'.emptied(d) != m.emptied(d) ==>
      && m'.emptied(d) == m.emptied(d) + 1
      && if m.desc(d).anchor.state == Full then m'.retired(d) == m.retired(d) + 1 && m'.place(d) == HeldFree(t)
         else m'.retired(d) == m.retired(d) && m'.place(d) == m.place(d)
  }

  /** A superblock is retired by the thread that emptied it from full, or by one that popped it and sees it empty. */
  ghost predicate RetiredOk(m: Mem, m': Mem, t: int, d: int) {
    m'.retired(d) != m.retired(d) ==>
      && m'.retired(d) == m.retired(d) + 1 && m'.place(d) == HeldFree(t)
      && (m'.emptied(d) != m.emptied(d) || (m.place(d) == HeldUsed(t) && m.desc(d).anchor.state == Empty))
  }

  lemma TakeRetires(c: Config, m: Mem, t: int, th: Thread, sc: int, pc: FillPc, spurious: bool, d: int)
    requires ThreadInv(c, m, t, th) && th.pc == Fill(sc, pc)
    ensures var m' := FillStep(c, m, t, th, sc, pc, spurious).m; EmptiedOk(m, m', t, d) && RetiredOk(m, m', t, d)
  {
    if pc.TakeCas? {
      assert HoldInv(m, t, HoldOf(th.pc)) && LocalInv(c, m, th) by { assert ThreadAt(c, m, t, th, 0); }
    }
  }

  lemma FlushRetires(m: Mem, t: int, th: Thread, sc: int, f: FlushFor, pc: FlushPc, spurious: bool, d: int)
    ensures var m' := FlushStep(m, t, th, sc, f, pc, spurious).m; EmptiedOk(m, m', t, d) && RetiredOk(m, m', t, d)
  {
  }

  lemma RetiredBy(p: State, a: Action, d: int)
    requires Inv(p) && Allowed(p, a)
    ensures EmptiedOk(p.m, Apply(p, a).m, a.t, d) && RetiredOk(p.m, Apply(p, a).m, a.t, d)
  {
    var th := p.th(a.t);
    assert ThreadInv(p.cfg, p.m, a.t, th);
    if a.Continue? {
      match th.pc
      case Fill(sc, pc) => TakeRetires(p.cfg, p.m, a.t, th, sc, pc, a.spurious, d);
      case Flush(sc, f, pc) => FlushRetires(p.m, a.t, th, sc, f, pc, a.spurious, d);
      case _ =>
    }
  }

  // ---------- held memory ----------

  lemma FillLeaves(c: Config, m: Mem, t: int, th: Thread, sc: int, pc: FillPc, spurious: bool, b: Block)
    requires m.owner(b) == App && (pc.NewLink? ==> m.owner(Block(pc.d, pc.i)) == Unused)
    ensures FillStep(c, m, t, th, sc, pc, spurious).m.link(b) == m.link(b)
  {
  }

  lemma NewIsUnused(c: Config, m: Mem, t: int, th: Thread)
    requires SharedInv(c, m) && ThreadInv(c, m, t, th) && th.pc.Fill? && th.pc.fill.NewLink?
    ensures m.owner(Block(th.pc.fill.d, th.pc.fill.i)) == Unused
  {
    assert m.place(th.pc.fill.d) == HeldFree(t) by { assert ThreadAt(c, m, t, th, 0); }
    assert SharedAt(c, m, th.pc.fill.d);
  }

  lemma FlushLeaves(c: Config, m: Mem, t: int, th: Thread, sc: int, f: FlushFor, pc: FlushPc, spurious: bool, b: Block)
    requires ThreadInv(c, m, t, th) && th.pc == Flush(sc, f, pc) && m.owner(b) == App
    ensures FlushStep(m, t, th, sc, f, pc, spurious).m.link(b) == m.link(b)
  {
    assert HoldInv(m, t, HoldOf(th.pc)) && LocalInv(c, m, th) by { assert ThreadAt(c, m, t, th, 0); }
    if pc.FlLink? {
      var i := pc.blks[|pc.blks| - 1];
      assert i in pc.blks && m.owner(Block(pc.d, i)) == InHand(t);
    }
  }

  /** No step of any thread writes to a block that the application holds; only the application does. */
  lemma OnlyAppWrites(p: State, a: Action, b: Block)
    requires Inv(p) && Allowed(p, a) && p.m.owner(b) == App
    ensures Apply(p, a).m.link(b) == if a.Write? && a.b == b then a.v else p.m.link(b)
  {
    var th := p.th(a.t);
    assert ThreadInv(p.cfg, p.m, a.t, th);
    if a.Continue? {
      match th.pc
      case Fill(sc, pc) =>
        if pc.NewLink? { NewIsUnused(p.cfg, p.m, a.t, th); }
        FillLeaves(p.cfg, p.m, a.t, th, sc, pc, a.spurious, b);
      case Flush(sc, f, pc) => FlushLeaves(p.cfg, p.m, a.t, th, sc, f, pc, a.spurious, b);
      case _ =>
    }
  }

  /** What the application wrote to block b last; v if it did not. */
  ghost function LastWrite(v: Link, acts: seq<Action>, b: Block): Link
    decreases |acts|
  {
    if acts == [] then v else
    var a := acts[|acts| - 1];
    if a.Write? && a.b == b then a.v else LastWrite(v, acts[..|acts| - 1], b)
  }

  /** From malloc to free a block holds what the application wrote to it, whatever the allocator does. */
  lemma {:induction false} WritesStay(s: State, acts: seq<Action>, b: Block)
    requires Inv(s) && Legal(s, acts) && s.m.owner(b) == App && forall a :: a in acts ==> !(a.Free? && a.b == b)
    ensures StateAfter(s, acts).m.owner(b) == App
    ensures StateAfter(s, acts).m.link(b) == LastWrite(s.m.link(b), acts, b)
    decreases |acts|
  {
    if acts != [] {
      LegalPrefix(s, acts);
      var before, a := acts[..|acts| - 1], acts[|acts| - 1];
      WritesStay(s, before, b);
      RunKeepsInv(s, before);
      AppChange(StateAfter(s, before), a);
      OnlyAppWrites(StateAfter(s, before), a, b);
    }
  }
}
