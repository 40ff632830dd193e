/** The tagged stacks are sequential stacks, every descriptor is in one place, each emptied
    superblock is retired once, and no internal check fails.
*/
module AllocatorLists {
  import opened AllocatorState
  import opened AllocatorSteps
  import opened AllocatorInvariant
  import opened AllocatorFrames
  import opened AllocatorTransfers
  import opened AllocatorFill
  import opened AllocatorFree
  import opened AllocatorSafety
  import opened AllocatorOwnership

  // ---------- the lists are what the memory says ----------

  /** The elements of a list are determined by its head and the next pointers. */
  lemma {:induction false} ListsUnique(p: Ptr, a: seq<int>, b: seq<int>, next: int -> Ptr)
    requires Lists(p, a, next) && Lists(p, b, next)
    ensures a == b
    decreases |a|
  {
    if a != [] {
      ListsUnique(next(a[0]), a[1..], b[1..], next);
      assert a == [a[0]] + a[1..] && b == [b[0]] + b[1..];
    }
  }

  // ---------- LIFO ----------

  datatype StackId = PartialOf(sc: int) | AvailStack

  ghost function StackAt(m: Mem, id: StackId): Stack {
    match id
    case PartialOf(sc) => m.partialList(sc)
    case AvailStack => m.availSb
  }

  ghost function NextAt(m: Mem, id: StackId): int -> Ptr {
    match id
    case PartialOf(_) => PartialNext(m.desc)
    case AvailStack => FreeNext(m.desc)
  }

  /** What a pop has read: its thread is about to CAS the head of `id` from `seen` to `next`. */
  ghost predicate PopsFrom(pc: Pc, id: StackId, seen: Head, next: Ptr) {
    match id
    case PartialOf(sc) => pc == Fill(sc, PopCas(seen, next))
    case AvailStack => pc.Fill? && pc.fill == SbCas(seen, next)
  }

  lemma SecondOf(k: Stack, nextOf: int -> Ptr)
    requires ListInv(k, nextOf) && k.lst != []
    ensures nextOf(k.lst[0]) == if |k.lst| == 1 then Null else To(k.lst[1])
  {
    assert Lists(nextOf(k.lst[0]), k.lst[1..], nextOf);
  }

  /** If the CAS of a pop succeeds, what it installs is the current successor of the current top:
      the list loses exactly its first element, however the descriptors were reused meanwhile. */
  lemma PopIsCurrent(s: State, t: int, id: StackId, seen: Head, next: Ptr)
    requires Inv(s) && PopsFrom(s.th(t).pc, id, seen, next) && StackAt(s.m, id).head == seen
    ensures var lst := StackAt(s.m, id).lst;
            && lst != [] && seen.ptr == To(lst[0])
            && next == NextAt(s.m, id)(lst[0])
            && next == (if |lst| == 1 then Null else To(lst[1]))
  {
    assert ThreadInv(s.cfg, s.m, t, s.th(t));
    assert NextInv(StackAt(s.m, id), NextAt(s.m, id), seen, next) by { assert ThreadAt(s.cfg, s.m, t, s.th(t), 0); }
    assert ListInv(StackAt(s.m, id), NextAt(s.m, id)) by { assert SharedAt(s.cfg, s.m, 0); }
    PopNextCurrent(StackAt(s.m, id), NextAt(s.m, id), seen, next);
    SecondOf(StackAt(s.m, id), NextAt(s.m, id));
  }

  ghost predicate Pushes(pc: Pc, id: StackId, ds: seq<int>) {
    match id
    case PartialOf(hs) => pc.Flush? && pc.fl.PpCas? && pc.fl.hs == hs && ds == [pc.fl.d]
    case AvailStack => pc.Org? && pc.org.OrgCas? && ds == Iota(pc.lo, pc.n)
  }

  /** Holding a descriptor outside every list. */
  ghost predicate InHandOf(pc: Pc, d: int) {
    var h := HoldOf(pc);
    h.used == To(d) || h.lo <= d < h.lo + h.n || h.extra == To(d)
  }

  ghost predicate LifoStep(s: State, s': State, t: int, id: StackId) {
    var before, after := StackAt(s.m, id).lst, StackAt(s'.m, id).lst;
    || after == before
    || (&& before != [] && after == before[1..]
        && !InHandOf(s.th(t).pc, before[0]) && InHandOf(s'.th(t).pc, before[0]))
    || (exists ds: seq<int> ::
          && Pushes(s.th(t).pc, id, ds) && after == ds + before
          && forall d :: d in ds ==> InHandOf(s.th(t).pc, d) && !InHandOf(s'.th(t).pc, d))
  }

  /** Any step of any thread leaves each list, as read from memory, as it was, or pops its first
      element into that thread's hand, or pushes what the thread held on top. */
  lemma StacksAreLifo(s: State, a: Action, id: StackId)
    requires Inv(s) && Allowed(s, a)
    ensures var s' := Apply(s, a);
            && Lists(StackAt(s.m, id).head.ptr, StackAt(s.m, id).lst, NextAt(s.m, id))
            && Lists(StackAt(s'.m, id).head.ptr, StackAt(s'.m, id).lst, NextAt(s'.m, id))
            && LifoStep(s, s', a.t, id)
  {
    var s' := Apply(s, a);
    StepKeepsInv(s, a);
    assert SharedAt(s.cfg, s.m, 0) && SharedAt(s'.cfg, s'.m, 0);
    LifoOf(s, a, id);
  }

  lemma LifoOf(s: State, a: Action, id: StackId)
    requires Inv(s) && Allowed(s, a)
    ensures LifoStep(s, Apply(s, a), a.t, id)
  {
    var s', t := Apply(s, a), a.t;
    var pc := s.th(t).pc;
    if StackAt(s'.m, id) != StackAt(s.m, id) {
      if pc.Fill? {
        var seen, next := pc.fill.seen, pc.fill.next;
        PopIsCurrent(s, t, id, seen, next);
      } else if pc.Org? {
        assert Pushes(pc, id, Iota(pc.lo, pc.n));
        OrgReleases(s, a);
      } else {
        assert Pushes(pc, id, [pc.fl.d]);
      }
    }
  }

  lemma OrgReleases(s: State, a: Action)
    requires Inv(s) && Allowed(s, a) && s.th(a.t).pc.Org? && s.th(a.t).pc.org.OrgCas? && a.Continue?
    requires Apply(s, a).m.availSb != s.m.availSb
    ensures var pc := s.th(a.t).pc;
            forall d :: d in Iota(pc.lo, pc.n) ==> InHandOf(pc, d) && !InHandOf(Apply(s, a).th(a.t).pc, d)
  {
    assert ThreadInv(s.cfg, s.m, a.t, s.th(a.t));
    assert ThreadAt(s.cfg, s.m, a.t, s.th(a.t), 0);
  }

  // ---------- the life of a descriptor ----------

  datatype Spot = OnList(id: StackId) | WithThread(t: int)

  ghost predicate AtSpot(s: State, p: Spot, d: int) {
    match p
    case OnList(id) => d in StackAt(s.m, id).lst
    case WithThread(t) => InHandOf(s.th(t).pc, d)
  }

  ghost predicate AtPlace(s: State, p: Spot, d: int) {
    match p
    case OnList(PartialOf(sc)) => s.m.place(d) == Listed(sc)
    case OnList(AvailStack) => s.m.place(d) == Avail
    case WithThread(t) => s.m.place(d) == HeldUsed(t) || s.m.place(d) == HeldFree(t)
  }

  lemma SpotIsPlace(s: State, p: Spot, d: int)
    requires Inv(s)
    ensures AtSpot(s, p, d) <==> AtPlace(s, p, d)
  {
    match p
    case OnList(id) => assert SharedAt(s.cfg, s.m, 0);
    case WithThread(t) =>
      assert ThreadInv(s.cfg, s.m, t, s.th(t));
      assert ThreadAt(s.cfg, s.m, t, s.th(t), 0);
  }

  /** A descriptor is on at most one list and in at most one thread's hand, never both. */
  lemma OneSpot(s: State, p: Spot, p': Spot, d: int)
    requires Inv(s) && AtSpot(s, p, d) && AtSpot(s, p', d)
    ensures p == p'
  {
    SpotIsPlace(s, p, d);
    SpotIsPlace(s, p', d);
  }

  /** A descriptor on a partial list has free blocks and belongs to that list's class. */
  lemma ListedHaveRoom(s: State, sc: int, d: int)
    requires Inv(s) && d in s.m.partialList(sc).lst
    ensures var D := s.m.desc(d);
            && (D.anchor.state == Partial || D.anchor.state == Empty)
            && D.anchor.count > 0 && D.heap == HeapOf(sc) && 0 <= d < s.m.frontier
  {
    SpotIsPlace(s, OnList(PartialOf(sc)), d);
    assert SharedAt(s.cfg, s.m, d);
  }

  /** Each time a superblock becomes empty it is retired, once: a retirement is outstanding
      exactly while it is in use and empty. */
  lemma RetiredOnce(s: State, acts: seq<Action>, d: int)
    requires Inv(s) && Legal(s, acts)
    ensures var m := StateAfter(s, acts).m;
            m.emptied(d) - m.retired(d) == if InUse(m.place(d)) && m.desc(d).anchor.state == Empty then 1 else 0
  {
    RunKeepsInv(s, acts);
    assert SharedAt(StateAfter(s, acts).cfg, StateAfter(s, acts).m, d);
  }

  // ---------- no internal check fails ----------

  ghost predicate OutOfSpace(c: Config, m: Mem, pc: Pc) {
    || (pc.Fill? && pc.fill.GrowCheck? && pc.fill.fr + c.grow > c.limit)
    || (pc.Large? && pc.big.BigLoad? && m.frontier + pc.n > c.limit)
  }

  lemma FillNeverStuck(c: Config, m: Mem, t: int, th: Thread, sc: int, pc: FillPc, spurious: bool)
    requires th.pc == Fill(sc, pc)
    ensures FillStep(c, m, t, th, sc, pc, spurious).th.pc.Aborted? ==> pc.GrowCheck? && pc.fr + c.grow > c.limit
  {
  }

  lemma FlushNeverStuck(c: Config, m: Mem, t: int, th: Thread, sc: int, f: FlushFor, pc: FlushPc, spurious: bool)
    requires ThreadInv(c, m, t, th) && th.pc == Flush(sc, f, pc)
    ensures !FlushStep(m, t, th, sc, f, pc, spurious).th.pc.Aborted?
  {
    assert ThreadAt(c, m, t, th, sc);
  }

  lemma ContinueNeverStuck(c: Config, m: Mem, t: int, th: Thread, spurious: bool)
    requires ThreadInv(c, m, t, th) && !th.pc.Aborted?
    ensures ThreadStep(c, m, t, th, spurious).th.pc.Aborted? ==> OutOfSpace(c, m, th.pc)
  {
    match th.pc
    case Fill(sc, pc) => FillNeverStuck(c, m, t, th, sc, pc, spurious);
    case Flush(sc, f, pc) => FlushNeverStuck(c, m, t, th, sc, f, pc, spurious);
    case MallocPop(sc) => assert ThreadAt(c, m, t, th, sc);
    case _ =>
  }

  /** A thread is stopped only because the region cannot grow any further: pops from an empty cache,
      a null block in a non-empty one, or a partial superblock without a heap never occur. */
  lemma NeverStuck(s: State, a: Action)
    requires Inv(s) && Allowed(s, a) && !s.th(a.t).pc.Aborted?
    ensures Apply(s, a).th(a.t).pc.Aborted? ==> a.Continue? && OutOfSpace(s.cfg, s.m, s.th(a.t).pc)
  {
    assert ThreadInv(s.cfg, s.m, a.t, s.th(a.t));
    if a.Continue? {
      ContinueNeverStuck(s.cfg, s.m, a.t, s.th(a.t), a.spurious);
    } else if a.Free? {
      assert s.m.desc(a.b.sb).heap.HeapOf? by { assert SharedAt(s.cfg, s.m, a.b.sb) && a.b == Block(a.b.sb, a.b.idx); }
    }
  }

  /** Every attempt of flush_cache to update the anchor, whether or not its CAS will succeed, starts from
      an anchor that stands for less than the whole superblock. */
  lemma FlushAttempt(s: State, t: int, sc: int, f: FlushFor, pc: FlushPc)
    requires Inv(s) && s.th(t).pc == Flush(sc, f, pc) && (pc.FlLink? || pc.FlCas?)
    ensures 0 <= pc.cur.count < s.m.desc(pc.d).maxcount
  {
    assert ThreadInv(s.cfg, s.m, t, s.th(t));
    assert ThreadAt(s.cfg, s.m, t, s.th(t), sc);
  }

  /** The assertions after the anchor CAS of flush_cache hold when it has succeeded. */
  lemma FlushChecks(s: State, t: int, sc: int, f: FlushFor, d: int, blks: seq<int>, cur: Anchor, upd: Anchor)
    requires Inv(s) && s.th(t).pc == Flush(sc, f, FlCas(d, blks, cur, upd)) && s.m.desc(d).anchor == cur
    ensures var mx := s.m.desc(d).maxcount;
            (cur.state == Full || 0 <= cur.avail < mx) && 0 <= upd.avail < mx && 0 <= upd.count < mx
  {
    assert ThreadInv(s.cfg, s.m, t, s.th(t));
    HandFacts(s, t, sc, f, d, blks, cur, upd);
    InHandUsed(s, t);
    AnchorRange(s.cfg, s.m, d);
    SpliceFacts(s.cfg, s.m, t, d, blks);
    var i := blks[0];
    assert i in blks;
    OwnedIsBlock(s, Block(d, i));
    HandFits(s.cfg, s.m, t, d, blks);
  }

  lemma HandFits(c: Config, m: Mem, t: int, d: int, blks: seq<int>)
    requires SharedInv(c, m) && InUse(m.place(d)) && blks != [] && NoDup(blks)
    requires forall i :: i in blks ==> m.owner(Block(d, i)) == InHand(t)
    ensures |blks| + |m.chain(d)| <= m.desc(d).maxcount
  {
    assert SbInv(c, m, d) by { assert SharedAt(c, m, d); }
    SpliceRoom(c, m, t, d, blks);
  }

  /** Every attempt of malloc_from_partial that does not retire the superblock finds it PARTIAL, whether or
      not its CAS will succeed, and its cache empty. */
  lemma TakeAttempt(s: State, t: int, sc: int, d: int, cur: Anchor, mx: int)
    requires Inv(s) && s.th(t).pc == Fill(sc, TakeCas(d, cur, mx)) && cur.state != Empty
    ensures cur.state == Partial && s.th(t).bins(sc).num == 0
  {
    assert ThreadInv(s.cfg, s.m, t, s.th(t));
    assert ThreadAt(s.cfg, s.m, t, s.th(t), sc);
  }

  /** The assertion after the anchor CAS of malloc_from_partial holds when it has succeeded. */
  lemma TakeChecks(s: State, t: int, sc: int, d: int, cur: Anchor, mx: int)
    requires Inv(s) && s.th(t).pc == Fill(sc, TakeCas(d, cur, mx)) && s.m.desc(d).anchor == cur && cur.state != Empty
    ensures 0 <= cur.avail < mx && 0 < cur.count < s.cfg.maxcount(sc)
  {
    assert ThreadInv(s.cfg, s.m, t, s.th(t));
    assert ThreadAt(s.cfg, s.m, t, s.th(t), sc);
    TakeFacts(s.cfg, s.m, t, d);
    AnchorRange(s.cfg, s.m, d);
  }

  /** No attempt of heap_push_partial finds its descriptor on top already, whether or not its CAS will
      succeed. */
  lemma PushCheck(s: State, t: int, sc: int, f: FlushFor, pc: FlushPc)
    requires Inv(s) && s.th(t).pc == Flush(sc, f, pc) && (pc.PpLink? || pc.PpCas?)
    ensures pc.seen.ptr != To(pc.d)
  {
    assert ThreadInv(s.cfg, s.m, t, s.th(t));
    assert ThreadAt(s.cfg, s.m, t, s.th(t), 0);
  }

  // ---------- superblock 0 and large allocations ----------

  /** Superblock 0 and the superblocks of large allocations stay where they are: every step that moves a
      descriptor moves one that was on a list, in use, in a hand or not yet born. */
  ghost predicate Settled(p: Place) { p.Skipped? || p.Big? }

  ghost predicate SettledKept(m: Mem, m': Mem) {
    forall d :: Settled(m.place(d)) ==> m'.place(d) == m.place(d)
  }

  lemma PopSettled(c: Config, m: Mem, t: int, th: Thread, sc: int, pc: FillPc, spurious: bool)
    requires SharedInv(c, m) && FillLocal(c, m, sc, pc) && (pc.PopCas? || pc.SbCas?)
    ensures SettledKept(m, FillStep(c, m, t, th, sc, pc, spurious).m)
  {
    assert StacksInv(m) by { assert SharedAt(c, m, 0); }
    if pc.PopCas? && m.partialList(sc).head == pc.seen {
      PopNextCurrent(m.partialList(sc), PartialNext(m.desc), pc.seen, pc.next);
      assert Exactly(m.partialList(sc).lst, m.place, Listed(sc));
      assert pc.seen.ptr.d in m.partialList(sc).lst;
    } else if pc.SbCas? && m.availSb.head == pc.seen {
      PopNextCurrent(m.availSb, FreeNext(m.desc), pc.seen, pc.next);
      assert pc.seen.ptr.d in m.availSb.lst;
    }
  }

  lemma FillSettled(c: Config, m: Mem, t: int, th: Thread, sc: int, pc: FillPc, spurious: bool)
    requires SharedInv(c, m) && ThreadInv(c, m, t, th) && th.pc == Fill(sc, pc)
    ensures SettledKept(m, FillStep(c, m, t, th, sc, pc, spurious).m)
  {
    if pc.PopCas? || pc.SbCas? {
      assert FillLocal(c, m, sc, pc) by { assert ThreadAt(c, m, t, th, 0); }
      PopSettled(c, m, t, th, sc, pc, spurious);
    } else if pc.GrowCas? {
      BeyondUnborn(c, m);
    } else if pc.TakeCas? || pc.NewLink? {
      assert !Settled(m.place(pc.d)) by { assert ThreadAt(c, m, t, th, 0); }
    }
  }

  lemma BeyondUnborn(c: Config, m: Mem)
    requires SharedInv(c, m)
    ensures forall d :: m.frontier <= d ==> m.place(d) == Unborn
  {
    forall d | m.frontier <= d ensures m.place(d) == Unborn { assert SharedAt(c, m, d); }
  }

  lemma FlushSettled(c: Config, m: Mem, t: int, th: Thread, sc: int, f: FlushFor, pc: FlushPc, spurious: bool)
    requires SharedInv(c, m) && ThreadInv(c, m, t, th) && th.pc == Flush(sc, f, pc)
    ensures SettledKept(m, FlushStep(m, t, th, sc, f, pc, spurious).m)
  {
    assert HoldInv(m, t, HoldOf(th.pc)) && LocalInv(c, m, th) by { assert ThreadAt(c, m, t, th, 0); }
    if pc.FlCas? {
      assert InUse(m.place(pc.d)) by { SpliceUsed(c, m, t, pc.d, pc.blks); }
    }
  }

  lemma ContinueSettled(c: Config, m: Mem, t: int, th: Thread, spurious: bool)
    requires SharedInv(c, m) && ThreadInv(c, m, t, th)
    ensures SettledKept(m, ThreadStep(c, m, t, th, spurious).m)
  {
    match th.pc
    case Fill(sc, pc) => FillSettled(c, m, t, th, sc, pc, spurious);
    case Flush(sc, f, pc) => FlushSettled(c, m, t, th, sc, f, pc, spurious);
    case Org(lo, n, _, _) =>
      assert forall d :: lo <= d < lo + n ==> m.place(d) == HeldFree(t) by { assert ThreadAt(c, m, t, th, 0); }
    case Large(n, pc) =>
      BeyondUnborn(c, m);
      if pc.BigInit? {
        assert forall d :: pc.lo <= d < pc.lo + n ==> m.place(d) == HeldFree(t) by { assert ThreadAt(c, m, t, th, 0); }
      }
    case _ =>
  }

  lemma SettledStays(s: State, a: Action)
    requires Inv(s) && Allowed(s, a) && !a.FreeBig?
    ensures SettledKept(s.m, Apply(s, a).m)
  {
    assert ThreadInv(s.cfg, s.m, a.t, s.th(a.t));
    if a.Continue? { ContinueSettled(s.cfg, s.m, a.t, s.th(a.t), a.spurious); }
  }

  /** Freeing a large allocation moves exactly its own superblocks. */
  lemma FreeBigMoves(s: State, a: Action, d: int)
    requires Inv(s) && Allowed(s, a) && a.FreeBig?
    ensures var n := s.m.place(a.lo).n;
            Apply(s, a).m.place(d) == if s.m.place(d) == Big(a.lo, n) then HeldFree(a.t) else s.m.place(d)
  {
    assert BigInv(s.m, a.lo) by { assert SharedAt(s.cfg, s.m, a.lo); }
    assert BigInv(s.m, d) by { assert SharedAt(s.cfg, s.m, d); }
  }

  lemma {:induction false} NeverUsed(s: State, acts: seq<Action>)
    requires Inv(s) && s.m.place(0) == Skipped && Legal(s, acts)
    ensures StateAfter(s, acts).m.place(0) == Skipped
    decreases |acts|
  {
    if acts != [] {
      LegalPrefix(s, acts);
      var before, a := acts[..|acts| - 1], acts[|acts| - 1];
      RunKeepsInv(s, before);
      NeverUsed(s, before);
      if a.FreeBig? { FreeBigMoves(StateAfter(s, before), a, 0); } else { SettledStays(StateAfter(s, before), a); }
    }
  }
}
