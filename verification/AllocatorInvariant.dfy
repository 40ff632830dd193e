/** The invariant of the allocator machine, and what one thread may rely on
    while the others run.
*/
module AllocatorInvariant {
  import opened AllocatorState
  import opened AllocatorSteps

  ghost predicate NoDup<T(!new)>(q: seq<T>) {
    forall i, j :: 0 <= i < j < |q| ==> q[i] != q[j]
  }

  // ---------- superblocks ----------

  ghost predicate InUse(p: Place) {
    p.Listed? || p.Active? || p.HeldUsed?
  }

  /** The links of superblock `d` lead from each index of `q` to the following one. */
  ghost predicate LinkedIn(link: Block -> Link, d: int, q: seq<int>) {
    forall i, j :: 0 <= i && j == i + 1 && j < |q| ==> link(Block(d, q[i])) == At(Block(d, q[j]))
  }

  /** A superblock in use serves one class; exactly its first maxcount blocks have an owner,
      and the chained ones are those of its free chain. */
  ghost predicate UsedInv(c: Config, m: Mem, d: int) {
    var D := m.desc(d);
    && D.heap.HeapOf?
    && SmallClass(c, D.heap.sc)
    && D.maxcount == c.maxcount(D.heap.sc)
    && NoDup(m.chain(d))
    && LinkedIn(m.link, d, m.chain(d))
    && (forall i :: m.owner(Block(d, i)) != Unused <==> 0 <= i < D.maxcount)
    && (forall i :: m.owner(Block(d, i)) == Chained <==> i in m.chain(d))
    && AnchorInv(D.anchor, m.place(d), m.chain(d), D.maxcount)
    && (m.place(d).Listed? ==> m.place(d).sc == D.heap.sc)
  }

  /** What the anchor says about the chain. An empty superblock stores one less than its
      number of blocks; only a full one is on no list and in no hand, and its avail is past the last block. */
  ghost predicate AnchorInv(a: Anchor, p: Place, chain: seq<int>, mx: int) {
    match a.state
    case ErrorState => false
    case Full => p.Active? && chain == [] && a.count == 0 && a.avail == mx
    case Partial => !p.Active? && 0 < a.count == |chain| < mx && a.avail == chain[0]
    case Empty => !p.Active? && 0 < |chain| == mx && a.count == mx - 1 && a.avail == chain[0]
  }

  ghost predicate SbInv(c: Config, m: Mem, d: int) {
    && (m.place(d) == Unborn <==> d < 0 || m.frontier <= d)
    && (InUse(m.place(d)) ==> UsedInv(c, m, d))
    && (!InUse(m.place(d)) ==> forall i :: m.owner(Block(d, i)) == Unused)
    && m.emptied(d) == m.retired(d) + (if InUse(m.place(d)) && m.desc(d).anchor.state == Empty then 1 else 0)
  }

  /** The descriptor of a large allocation of n superblocks. */
  ghost predicate BigDesc(D: Desc, n: int) {
    D.heap == HeapOf(0) && D.maxcount == 1 && D.anchor == Anchor(0, 0, Full) && D.span == n
  }

  ghost predicate BigInv(m: Mem, d: int) {
    m.place(d).Big? ==>
      var lo, n := m.place(d).lo, m.place(d).n;
      && lo <= d < lo + n
      && BigDesc(m.desc(lo), n)
      && forall e :: lo <= e < lo + n ==> m.place(e) == Big(lo, n)
  }

  // ---------- tagged stacks ----------

  /** Following `next` from `p` visits the distinct elements of `lst` and ends in null. */
  ghost predicate Lists(p: Ptr, lst: seq<int>, next: int -> Ptr)
    decreases |lst|
  {
    if lst == [] then p == Null
    else p == To(lst[0]) && lst[0] !in lst[1..] && Lists(next(lst[0]), lst[1..], next)
  }

  ghost predicate ListInv(k: Stack, next: int -> Ptr) {
    Lists(k.head.ptr, k.lst, next)
  }

  ghost function PartialNext(desc: int -> Desc): int -> Ptr { d => desc(d).nextPartial }
  ghost function FreeNext(desc: int -> Desc): int -> Ptr { d => desc(d).nextFree }

  /** The list holds exactly the descriptors at place `p`. */
  ghost predicate Exactly(lst: seq<int>, place: int -> Place, p: Place) {
    forall d :: d in lst <==> place(d) == p
  }

  ghost predicate StacksInv(m: Mem) {
    && (forall sc :: ListInv(m.partialList(sc), PartialNext(m.desc)))
    && (forall sc :: Exactly(m.partialList(sc).lst, m.place, Listed(sc)))
    && ListInv(m.availSb, FreeNext(m.desc))
    && Exactly(m.availSb.lst, m.place, Avail)
  }

  // ---------- threads ----------

  ghost predicate Linked(link: Block -> Link, q: seq<Block>) {
    forall i, j :: 0 <= i && j == i + 1 && j < |q| ==> link(q[i]) == At(q[j])
  }

  ghost predicate BinInv(c: Config, m: Mem, t: int, sc: int, bin: Bin) {
    && bin.num == |bin.blocks|
    && (bin.blocks != [] ==> bin.head == At(bin.blocks[0]) && SmallClass(c, sc) && bin.num <= c.maxcount(sc))
    && NoDup(bin.blocks)
    && Linked(m.link, bin.blocks)
    && (forall b :: b in bin.blocks <==> m.owner(b) == Cached(t, sc))
    && (forall b :: b in bin.blocks ==> m.desc(b.sb).heap == HeapOf(sc))
  }

  /** What a thread holds: a used descriptor, a run of free descriptors and one more free
      descriptor, blocks of one superblock on their way back to it, and a block being freed. */
  datatype Hold = Hold(used: Ptr, lo: int, n: int, extra: Ptr, sb: int, blks: seq<int>, f: FlushFor)

  ghost function HoldOf(pc: Pc): Hold {
    match pc
    case Fill(_, q) =>
      Hold(if q.TakeLoad? || q.TakeCas? then To(q.d) else Null, 0, 0,
           if q.NewInit? || q.NewDesc? || q.NewLink? then To(q.d) else Null, 0, [], ForExit)
    case Org(lo, n, k, _) =>
      Hold(Null, lo, n, if k.Build? then To(k.d) else Null, 0, [], if k.Flushing? then k.f else ForExit)
    case Flush(_, f, q) =>
      var fl := q.FlLoad? || q.FlLink? || q.FlCas?;
      Hold(if q.PpLoad? || q.PpLink? || q.PpCas? then To(q.d) else Null, 0, 0, Null,
           if fl then q.d else 0, if fl then q.blks else [], f)
    case Large(n, q) =>
      if q.BigInit? then Hold(Null, q.lo, n, Null, 0, [], ForExit) else Hold(Null, 0, 0, Null, 0, [], ForExit)
    case _ => Hold(Null, 0, 0, Null, 0, [], ForExit)
  }

  /** The auxiliary maps agree with the program counter about what the thread holds. */
  ghost predicate HoldInv(m: Mem, t: int, h: Hold) {
    && (forall d :: m.place(d) == HeldUsed(t) <==> h.used == To(d))
    && (forall d :: m.place(d) == HeldFree(t) <==> h.lo <= d < h.lo + h.n || h.extra == To(d))
    && (forall b :: m.owner(b) == InHand(t) <==> b.sb == h.sb && b.idx in h.blks)
    && (forall b :: m.owner(b) == Freeing(t) <==> h.f == ForFree(b))
  }

  /** A head read earlier: while the counter has not moved, a descriptor seen on top
      is either still on top or not on the list at all. */
  ghost predicate TagInv(k: Stack, seen: Head) {
    && seen.cnt <= k.head.cnt
    && (seen.cnt == k.head.cnt && seen.ptr.To? && seen.ptr.d in k.lst ==> k.lst[0] == seen.ptr.d)
  }

  ghost predicate NextInv(k: Stack, nextOf: int -> Ptr, seen: Head, next: Ptr) {
    && TagInv(k, seen)
    && seen.ptr.To?
    && (seen.cnt == k.head.cnt && seen.ptr.d in k.lst ==> next == nextOf(seen.ptr.d))
  }

  /** The links organize_sb_list has made so far. */
  ghost predicate OrgChain(m: Mem, lo: int, n: int) {
    forall d :: lo <= d < lo + n - 1 ==> m.desc(d).nextFree == To(d + 1)
  }

  ghost predicate FlushClass(c: Config, m: Mem, sc: int, f: FlushFor) {
    && SmallClass(c, sc)
    && (f.ForFree? ==> m.desc(f.b.sb).heap == HeapOf(sc))
  }

  ghost predicate AfterInv(c: Config, m: Mem, th: Thread, k: After, lo: int, n: int) {
    && 1 <= n
    && match k
       case Refill(sc) => SmallClass(c, sc) && th.bins(sc).num == 0
       case Flushing(sc, f) => FlushClass(c, m, sc, f)
       case Build(sc, d) => SmallClass(c, sc) && th.bins(sc).num == 0 && !(lo <= d < lo + n)
       case Done => true
  }

  ghost predicate FillInv(c: Config, th: Thread, sc: int) {
    SmallClass(c, sc) && th.bins(sc).num == 0
  }

  ghost predicate HasFree(a: Anchor) { a.state == Partial || a.state == Empty }

  /** What the locals of a thread mean at each program counter. */
  ghost predicate FillLocal(c: Config, m: Mem, sc: int, pc: FillPc) {
    match pc
    case PopLoad => true
    case PopRead(seen) => TagInv(m.partialList(sc), seen)
    case PopCas(seen, next) => NextInv(m.partialList(sc), PartialNext(m.desc), seen, next)
    case TakeLoad(d) => m.desc(d).heap == HeapOf(sc)
    case TakeCas(d, cur, mx) =>
      && m.desc(d).heap == HeapOf(sc) && mx == m.desc(d).maxcount && HasFree(cur)
      && (cur.state == Empty ==> m.desc(d).anchor.state == Empty)
    case SbLoad => true
    case SbRead(seen) => TagInv(m.availSb, seen)
    case SbCas(seen, next) => NextInv(m.availSb, FreeNext(m.desc), seen, next)
    case GrowLoad(seen) => TagInv(m.availSb, seen) && seen.ptr == Null
    case GrowCheck(seen, fr) => TagInv(m.availSb, seen) && seen.ptr == Null
    case GrowCas(seen, fr) => TagInv(m.availSb, seen) && seen.ptr == Null
    case NewInit(d) => true
    case NewDesc(d) => true
    case NewLink(d, i) =>
      && 0 <= i < c.maxcount(sc)
      && m.desc(d).heap == HeapOf(sc) && m.desc(d).maxcount == c.maxcount(sc)
      && forall j, k :: 0 <= j < i && k == j + 1 ==> m.link(Block(d, j)) == At(Block(d, k))
  }

  ghost predicate OrgLocal(m: Mem, lo: int, n: int, pc: OrgPc) {
    match pc
    case OrgInit(i) => 0 <= i < n && OrgChain(m, lo, i)
    case OrgLoad => OrgChain(m, lo, n)
    case OrgLink(seen) => OrgChain(m, lo, n)
    case OrgCas(seen) => OrgChain(m, lo, n) && m.desc(lo + n - 1).nextFree == seen.ptr
  }

  ghost predicate InHandInv(m: Mem, sc: int, d: int, blks: seq<int>) {
    && blks != []
    && NoDup(blks)
    && LinkedIn(m.link, d, blks)
    && m.desc(d).heap == HeapOf(sc)
  }

  ghost predicate FlushLocal(c: Config, m: Mem, bin: Bin, sc: int, f: FlushFor, pc: FlushPc) {
    match pc
    case FlPick => true
    case FlLoad(d, blks) => InHandInv(m, sc, d, blks)
    case FlLink(d, blks, cur) => InHandInv(m, sc, d, blks) && 0 <= cur.count < m.desc(d).maxcount
    case FlCas(d, blks, cur, upd) =>
      && InHandInv(m, sc, d, blks) && 0 <= cur.count < m.desc(d).maxcount
      && m.link(Block(d, blks[|blks| - 1])) == At(Block(d, cur.avail))
      && upd == Flushed(cur, blks[0], |blks|, m.desc(d).maxcount)
    case PpLoad(d) => m.desc(d).heap == HeapOf(sc)
    case PpLink(hs, d, seen) => m.desc(d).heap == HeapOf(sc) && hs == sc && seen.ptr != To(d)
    case PpCas(hs, d, seen) =>
      m.desc(d).heap == HeapOf(sc) && hs == sc && seen.ptr != To(d) && m.desc(d).nextPartial == seen.ptr
    case FreePush => f.ForFree? && bin.num < c.maxcount(sc)
  }

  ghost predicate LocalInv(c: Config, m: Mem, th: Thread) {
    match th.pc
    case Idle => true
    case Aborted => true
    case Fill(sc, pc) => FillInv(c, th, sc) && FillLocal(c, m, sc, pc)
    case MallocPop(sc) => SmallClass(c, sc) && th.bins(sc).num > 0
    case Org(lo, n, k, pc) => AfterInv(c, m, th, k, lo, n) && OrgLocal(m, lo, n, pc)
    case Flush(sc, f, pc) => FlushClass(c, m, sc, f) && FlushLocal(c, m, th.bins(sc), sc, f, pc)
    case Large(n, pc) => 1 <= n < SPAN_LIMIT
  }

  ghost predicate ThreadAt(c: Config, m: Mem, t: int, th: Thread, sc: int) {
    BinInv(c, m, t, sc, th.bins(sc)) && HoldInv(m, t, HoldOf(th.pc)) && LocalInv(c, m, th)
  }

  /** The invariant of thread t: each of its caches, what it holds, and its locals. */
  ghost predicate ThreadInv(c: Config, m: Mem, t: int, th: Thread) {
    forall sc :: ThreadAt(c, m, t, th, sc)
  }

  ghost predicate SharedAt(c: Config, m: Mem, d: int) {
    GoodConfig(c) && m.frontier >= 0 && SbInv(c, m, d) && BigInv(m, d) && StacksInv(m)
  }

  /** The invariant of what the threads share: each superblock, and the lists. */
  ghost predicate SharedInv(c: Config, m: Mem) {
    forall d :: SharedAt(c, m, d)
  }

  ghost predicate Inv(s: State) {
    && SharedInv(s.cfg, s.m)
    && forall t :: ThreadInv(s.cfg, s.m, t, s.th(t))
  }

  // ---------- what thread u may rely on ----------

  ghost predicate Mine(o: Owner, u: int) {
    o == InHand(u) || o == Freeing(u) || (o.Cached? && o.t == u)
  }

  /** Lists only shrink from the top while the counter stands still. */
  ghost predicate ListRely(k: Stack, k': Stack, next: int -> Ptr, next': int -> Ptr) {
    && k.head.cnt <= k'.head.cnt
    && (k.head.cnt == k'.head.cnt ==>
          && (k'.lst == k.lst || (k.lst != [] && k'.lst == k.lst[1..]))
          && forall d :: d in k'.lst ==> next'(d) == next(d))
  }

  ghost predicate ListsRely(m: Mem, m': Mem) {
    && (forall sc :: ListRely(m.partialList(sc), m'.partialList(sc), PartialNext(m.desc), PartialNext(m'.desc)))
    && ListRely(m.availSb, m'.availSb, FreeNext(m.desc), FreeNext(m'.desc))
  }

  ghost predicate OwnRely(m: Mem, m': Mem, u: int) {
    && (forall b :: Mine(m.owner(b), u) || Mine(m'.owner(b), u) ==>
          m'.owner(b) == m.owner(b) && m'.link(b) == m.link(b)
          && m'.desc(b.sb).heap == m.desc(b.sb).heap && m'.desc(b.sb).maxcount == m.desc(b.sb).maxcount)
    && (forall d :: m.place(d) == HeldUsed(u) || m'.place(d) == HeldUsed(u) ==>
          && m'.place(d) == m.place(d)
          && m'.desc(d).heap == m.desc(d).heap && m'.desc(d).maxcount == m.desc(d).maxcount
          && m'.desc(d).nextPartial == m.desc(d).nextPartial
          && (m.desc(d).anchor.state == Empty ==> m'.desc(d).anchor.state == Empty))
    && (forall d :: m.place(d) == HeldFree(u) || m'.place(d) == HeldFree(u) ==>
          && m'.place(d) == m.place(d)
          && m'.desc(d) == m.desc(d)
          && forall i :: m'.link(Block(d, i)) == m.link(Block(d, i)))
  }

  ghost predicate RelyAt(m: Mem, m': Mem, u: int, sc: int) {
    && OwnRely(m, m', u)
    && ListRely(m.partialList(sc), m'.partialList(sc), PartialNext(m.desc), PartialNext(m'.desc))
    && ListRely(m.availSb, m'.availSb, FreeNext(m.desc), FreeNext(m'.desc))
  }

  ghost predicate Rely(m: Mem, m': Mem, u: int) {
    forall sc :: RelyAt(m, m', u, sc)
  }

  /** A step of thread t is good if the shared invariant and t's own survive it
      and every other thread can rely on it. */
  ghost predicate Good(c: Config, m: Mem, t: int, o: Out) {
    forall u :: SharedInv(c, o.m) && if u == t then ThreadInv(c, o.m, t, o.th) else Rely(m, o.m, u)
  }

  // ---------- taking the invariants apart and putting them together ----------

  lemma Shared(c: Config, m: Mem)
    requires SharedInv(c, m)
    ensures GoodConfig(c) && m.frontier >= 0 && StacksInv(m)
    ensures (forall d :: SbInv(c, m, d)) && (forall d :: BigInv(m, d))
  {
    assert SharedAt(c, m, 0);
    forall d ensures SbInv(c, m, d) && BigInv(m, d) { assert SharedAt(c, m, d); }
  }

  lemma MakeShared(c: Config, m: Mem)
    requires GoodConfig(c) && m.frontier >= 0 && StacksInv(m)
    requires (forall d :: SbInv(c, m, d)) && (forall d :: BigInv(m, d))
    ensures SharedInv(c, m)
  {
    forall d ensures SharedAt(c, m, d) {}
  }

  lemma Threads(c: Config, m: Mem, t: int, th: Thread)
    requires ThreadInv(c, m, t, th)
    ensures (forall sc :: BinInv(c, m, t, sc, th.bins(sc))) && HoldInv(m, t, HoldOf(th.pc)) && LocalInv(c, m, th)
  {
    assert ThreadAt(c, m, t, th, 0);
    forall sc ensures BinInv(c, m, t, sc, th.bins(sc)) { assert ThreadAt(c, m, t, th, sc); }
  }

  lemma MakeThread(c: Config, m: Mem, t: int, th: Thread)
    requires (forall sc :: BinInv(c, m, t, sc, th.bins(sc))) && HoldInv(m, t, HoldOf(th.pc)) && LocalInv(c, m, th)
    ensures ThreadInv(c, m, t, th)
  {
    forall sc ensures ThreadAt(c, m, t, th, sc) {}
  }

  lemma MakeRely(m: Mem, m': Mem, t: int)
    requires ListsRely(m, m') && forall u :: u != t ==> OwnRely(m, m', u)
    ensures forall u :: u != t ==> Rely(m, m', u)
  {
    forall u | u != t ensures Rely(m, m', u) {
      forall sc ensures RelyAt(m, m', u, sc) {}
    }
  }
}
