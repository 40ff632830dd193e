/** The atomic steps of Ralloc's allocator: one function per program counter.

    A step performs at most one access to data other threads may touch at the
    same time, together with the thread-local work around it. Any thread may
    take the next step, and a weak CAS may fail for no reason.
*/
module AllocatorSteps {
  import opened AllocatorState

  // ---------- heap_pop_partial, malloc_from_partial ----------

  ghost function StepPopLoad(m: Mem, th: Thread, sc: int): Out {
    Go(m, th, Fill(sc, PopRead(m.partialList(sc).head)))
  }

  ghost function StepPopRead(m: Mem, th: Thread, sc: int, seen: Head): Out {
    match seen.ptr
    case Null => Go(m, th, Fill(sc, SbLoad))
    case To(d) => Go(m, th, Fill(sc, PopCas(seen, m.desc(d).nextPartial)))
  }

  ghost function Rest(lst: seq<int>): seq<int> {
    if lst == [] then [] else lst[1..]
  }

  ghost function StepPopCas(m: Mem, t: int, th: Thread, sc: int, seen: Head, next: Ptr, spurious: bool): Out {
    var k := m.partialList(sc);
    if k.head == seen && seen.ptr.To? && !spurious then
      Go(m.(
         partialList := Upd(m.partialList, sc, Stack(Head(next, seen.cnt), Rest(k.lst))),
         place := Upd(m.place, seen.ptr.d, HeldUsed(t))),
         th, Fill(sc, TakeLoad(seen.ptr.d)))
    else
      Go(m, th, Fill(sc, PopRead(k.head)))
  }

  ghost function StepTakeLoad(m: Mem, th: Thread, sc: int, d: int): Out {
    Go(m, th, Fill(sc, TakeCas(d, m.desc(d).anchor, m.desc(d).maxcount)))
  }

  /** Retiring: the superblock leaves use and its descriptor is in hand as free. */
  ghost function Retire(m: Mem, t: int, d: int): Mem {
    m.(place := Upd(m.place, d, HeldFree(t)),
    owner := ClearSb(m.owner, d),
    chain := Upd(m.chain, d, []),
    retired := Upd(m.retired, d, m.retired(d) + 1))
  }

  /** Taking all free blocks of a partial superblock. */
  ghost function Take(m: Mem, t: int, sc: int, d: int, mx: int): Mem {
    m.(desc := Upd(m.desc, d, m.desc(d).(anchor := Anchor(mx, 0, Full))),
    place := Upd(m.place, d, Active),
    owner := SetBlocks(m.owner, d, m.chain(d), Cached(t, sc)),
    chain := Upd(m.chain, d, []))
  }

  ghost function StepTakeCas(m: Mem, t: int, th: Thread, sc: int, d: int, cur: Anchor, mx: int, spurious: bool): Out {
    if cur.state == Empty then
      Go(Retire(m, t, d), th, Org(d, 1, Refill(sc), OrgInit(0)))
    else if m.desc(d).anchor == cur && !spurious then
      GoBin(Take(m, t, sc, d, mx), th, sc,
            Bin(At(Block(d, cur.avail)), cur.count, BlocksOf(d, m.chain(d))), MallocPop(sc))
    else
      Go(m, th, Fill(sc, TakeCas(d, m.desc(d).anchor, mx)))
  }

  // ---------- organize_sb_list, small_sb_retire ----------

  ghost function StepOrgInit(m: Mem, th: Thread, lo: int, n: int, i: int, k: After): Out {
    var dsc := if i > 0 then Upd(m.desc, lo + i - 1, m.desc(lo + i - 1).(nextFree := To(lo + i))) else m.desc;
    Go(m.(desc := Upd(dsc, lo + i, FreshDesc)), th,
       if i + 1 < n then Org(lo, n, k, OrgInit(i + 1)) else Org(lo, n, k, OrgLoad))
  }

  ghost function StepOrgLoad(m: Mem, th: Thread, lo: int, n: int, k: After): Out {
    Go(m, th, Org(lo, n, k, OrgLink(m.availSb.head)))
  }

  ghost function StepOrgLink(m: Mem, th: Thread, lo: int, n: int, seen: Head, k: After): Out {
    var last := lo + n - 1;
    Go(m.(desc := Upd(m.desc, last, m.desc(last).(nextFree := seen.ptr))), th, Org(lo, n, k, OrgCas(seen)))
  }

  ghost function Resume(k: After): Pc {
    match k
    case Refill(sc) => Fill(sc, PopLoad)
    case Flushing(sc, f) => Flush(sc, f, FlPick)
    case Build(sc, d) => Fill(sc, NewInit(d))
    case Done => Idle
  }

  ghost function StepOrgCas(m: Mem, th: Thread, lo: int, n: int, seen: Head, k: After, spurious: bool): Out {
    if m.availSb.head == seen && !spurious then
      Go(m.(
         availSb := Stack(Head(To(lo), seen.cnt + 1), Iota(lo, n) + m.availSb.lst),
         place := SetRange(m.place, lo, n, Avail)),
         th, Resume(k))
    else
      Go(m, th, Org(lo, n, k, OrgLink(m.availSb.head)))
  }

  // ---------- small_sb_alloc, malloc_from_newsb ----------

  ghost function StepSbLoad(m: Mem, th: Thread, sc: int): Out {
    Go(m, th, Fill(sc, SbRead(m.availSb.head)))
  }

  ghost function StepSbRead(m: Mem, th: Thread, sc: int, seen: Head): Out {
    match seen.ptr
    case Null => Go(m, th, Fill(sc, GrowLoad(seen)))
    case To(d) => Go(m, th, Fill(sc, SbCas(seen, m.desc(d).nextFree)))
  }

  ghost function StepSbCas(m: Mem, t: int, th: Thread, sc: int, seen: Head, next: Ptr): Out {
    if m.availSb.head == seen && seen.ptr.To? then
      Go(m.(
         availSb := Stack(Head(next, seen.cnt), Rest(m.availSb.lst)),
         place := Upd(m.place, seen.ptr.d, HeldFree(t))),
         th, Fill(sc, NewDesc(seen.ptr.d)))
    else
      Go(m, th, Fill(sc, SbRead(m.availSb.head)))
  }

  ghost function StepGrowLoad(m: Mem, th: Thread, sc: int, seen: Head): Out {
    Go(m, th, Fill(sc, GrowCheck(seen, m.frontier)))
  }

  /** `seen` is not reloaded when avail_sb turns out to be non-empty. */
  ghost function StepGrowCheck(c: Config, m: Mem, th: Thread, sc: int, seen: Head, fr: int): Out {
    if m.availSb.head.ptr != Null then Go(m, th, Fill(sc, SbRead(seen)))
    else if fr + c.grow > c.limit then Go(m, th, Aborted)
    else Go(m, th, Fill(sc, GrowCas(seen, fr)))
  }

  /** Moving the frontier by `n` superblocks, all of them in hand. */
  ghost function Grow(m: Mem, t: int, n: int): Mem {
    m.(frontier := m.frontier + n, place := SetRange(m.place, m.frontier, n, HeldFree(t)))
  }

  ghost function StepGrowCas(c: Config, m: Mem, t: int, th: Thread, sc: int, seen: Head, fr: int): Out {
    if m.frontier == fr then
      Go(Grow(m, t, c.grow), th, Org(fr + 1, c.grow - 1, Build(sc, fr), OrgInit(0)))
    else
      Go(m, th, Fill(sc, SbRead(seen)))
  }

  ghost function StepNewInit(m: Mem, th: Thread, sc: int, d: int): Out {
    Go(m.(desc := Upd(m.desc, d, FreshDesc)), th, Fill(sc, NewDesc(d)))
  }

  ghost function StepNewDesc(c: Config, m: Mem, th: Thread, sc: int, d: int): Out {
    Go(m.(desc := Upd(m.desc, d, m.desc(d).(heap := HeapOf(sc), maxcount := c.maxcount(sc)))),
       th, Fill(sc, NewLink(d, 0)))
  }

  /** A new superblock comes into use, all its blocks in the cache of t. */
  ghost function Publish(m: Mem, t: int, sc: int, d: int, mx: int): Mem {
    m.(desc := Upd(m.desc, d, m.desc(d).(anchor := Anchor(mx, 0, Full))),
    place := Upd(m.place, d, Active),
    owner := SetBlocks(m.owner, d, Iota(0, mx), Cached(t, sc)),
    chain := Upd(m.chain, d, []))
  }

  ghost function StepNewLink(c: Config, m: Mem, t: int, th: Thread, sc: int, d: int, i: int): Out {
    var mx := c.maxcount(sc);
    if i + 1 < mx then
      Go(m.(link := Upd(m.link, Block(d, i), At(Block(d, i + 1)))), th, Fill(sc, NewLink(d, i + 1)))
    else
      GoBin(Publish(m, t, sc, d, mx), th, sc,
            Bin(At(Block(d, 0)), mx, BlocksOf(d, Iota(0, mx))), MallocPop(sc))
  }

  /** pop_block: the block goes to the application. */
  ghost function StepMallocPop(m: Mem, th: Thread, sc: int): Out {
    var bin := th.bins(sc);
    if bin.head.At? && bin.num > 0 then
      GoBin(m.(owner := Upd(m.owner, bin.head.b, App)), th, sc,
            Bin(m.link(bin.head.b), bin.num - 1, Drop(bin.blocks, 1)), Idle)
    else
      Go(m, th, Aborted)
  }

  // ---------- do_free, flush_cache, heap_push_partial ----------

  /** push_block. */
  ghost function StepFreePush(m: Mem, t: int, th: Thread, sc: int, b: Block): Out {
    var bin := th.bins(sc);
    GoBin(m.(link := Upd(m.link, b, bin.head), owner := Upd(m.owner, b, Cached(t, sc))), th, sc,
          Bin(At(b), bin.num + 1, [b] + bin.blocks), Idle)
  }

  /** The leading cache blocks that lie in the superblock of `b`, found by following links. */
  ghost function Run(link: Block -> Link, b: Block, num: int): (r: seq<int>)
    ensures |r| >= 1 && r[0] == b.idx
    decreases num
  {
    if num > 1 && link(b).At? && link(b).b.sb == b.sb then
      [b.idx] + Run(link, link(b).b, num - 1)
    else
      [b.idx]
  }

  ghost function Drop(s: seq<Block>, n: int): seq<Block> {
    if 0 <= n <= |s| then s[n..] else []
  }

  ghost function StepFlPick(m: Mem, t: int, th: Thread, sc: int, f: FlushFor): Out {
    var bin := th.bins(sc);
    if bin.num == 0 then
      match f {
        case ForFree(b) => Go(m, th, Flush(sc, ForFree(b), FreePush))
        case ForExit => Go(m, th, Idle)
      }
    else if bin.head.Nil? then
      Go(m, th, Aborted)
    else
      var d := bin.head.b.sb;
      var blks := Run(m.link, bin.head.b, bin.num);
      var tail := Block(d, blks[|blks| - 1]);
      GoBin(m.(owner := SetBlocks(m.owner, d, blks, InHand(t))), th, sc,
            Bin(m.link(tail), bin.num - |blks|, Drop(bin.blocks, |blks|)), Flush(sc, f, FlLoad(d, blks)))
  }

  ghost function StepFlLoad(m: Mem, th: Thread, sc: int, d: int, blks: seq<int>, f: FlushFor): Out {
    Go(m, th, Flush(sc, f, FlLink(d, blks, m.desc(d).anchor)))
  }

  /** The anchor flush_cache proposes for `n` returned blocks, the first at index `first`. */
  ghost function Flushed(cur: Anchor, first: int, n: int, mx: int): Anchor {
    if cur.count + n == mx then
      Anchor(first, mx - 1, Empty)
    else
      Anchor(first, cur.count + n, if cur.state == Full then Partial else cur.state)
  }

  ghost function StepFlLink(m: Mem, th: Thread, sc: int, d: int, blks: seq<int>, cur: Anchor, f: FlushFor): Out {
    if blks == [] then Go(m, th, Aborted) else
    Go(m.(link := Upd(m.link, Block(d, blks[|blks| - 1]), At(Block(d, cur.avail)))), th,
       Flush(sc, f, FlCas(d, blks, cur, Flushed(cur, blks[0], |blks|, m.desc(d).maxcount))))
  }

  /** Returned blocks in front of the chain, under a new anchor. */
  ghost function Splice(m: Mem, d: int, blks: seq<int>, upd: Anchor, p: Place): Mem {
    m.(desc := Upd(m.desc, d, m.desc(d).(anchor := upd)),
    owner := SetBlocks(m.owner, d, blks, Chained),
    chain := Upd(m.chain, d, blks + m.chain(d)),
    place := Upd(m.place, d, p),
    emptied := if upd.state == Empty then Upd(m.emptied, d, m.emptied(d) + 1) else m.emptied)
  }

  ghost function StepFlCas(m: Mem, t: int, th: Thread, sc: int, d: int, blks: seq<int>, cur: Anchor, upd: Anchor,
                           f: FlushFor, spurious: bool): Out {
    if m.desc(d).anchor != cur || spurious then
      Go(m, th, Flush(sc, f, FlLink(d, blks, m.desc(d).anchor)))
    else if cur.state != Full then
      Go(Splice(m, d, blks, upd, m.place(d)), th, Flush(sc, f, FlPick))
    else if upd.state != Empty then
      Go(Splice(m, d, blks, upd, HeldUsed(t)), th, Flush(sc, f, PpLoad(d)))
    else
      Go(Retire(Splice(m, d, blks, upd, HeldUsed(t)), t, d), th, Org(d, 1, Flushing(sc, f), OrgInit(0)))
  }

  ghost function StepPpLoad(m: Mem, th: Thread, sc: int, d: int, f: FlushFor): Out {
    match m.desc(d).heap
    case NoHeap => Go(m, th, Aborted)
    case HeapOf(hs) => Go(m, th, Flush(sc, f, PpLink(hs, d, m.partialList(hs).head)))
  }

  ghost function StepPpLink(m: Mem, th: Thread, sc: int, hs: int, d: int, seen: Head, f: FlushFor): Out {
    Go(m.(desc := Upd(m.desc, d, m.desc(d).(nextPartial := seen.ptr))), th, Flush(sc, f, PpCas(hs, d, seen)))
  }

  ghost function StepPpCas(m: Mem, th: Thread, sc: int, hs: int, d: int, seen: Head, f: FlushFor, spurious: bool): Out {
    var k := m.partialList(hs);
    if k.head == seen && !spurious then
      Go(m.(
         partialList := Upd(m.partialList, hs, Stack(Head(To(d), seen.cnt + 1), [d] + k.lst)),
         place := Upd(m.place, d, Listed(hs))),
         th, Flush(sc, f, FlPick))
    else
      Go(m, th, Flush(sc, f, PpLink(hs, d, k.head)))
  }

  // ---------- large allocations ----------

  ghost function StepBigLoad(c: Config, m: Mem, th: Thread, n: int): Out {
    if m.frontier + n > c.limit then Go(m, th, Aborted) else Go(m, th, Large(n, BigCas(m.frontier)))
  }

  ghost function StepBigCas(m: Mem, t: int, th: Thread, n: int, fr: int): Out {
    if m.frontier == fr then
      Go(Grow(m, t, n), th, Large(n, BigInit(fr)))
    else
      Go(m, th, Large(n, BigLoad))
  }

  ghost function StepBigInit(m: Mem, th: Thread, lo: int, n: int): Out {
    Go(m.(
       desc := Upd(m.desc, lo, Desc(Null, Null, Anchor(0, 0, Full), HeapOf(0), 1, Stored(n))),
       place := SetRange(m.place, lo, n, Big(lo, n))),
       th, Idle)
  }

  // ---------- the machine ----------

  ghost function FillStep(c: Config, m: Mem, t: int, th: Thread, sc: int, pc: FillPc, spurious: bool): Out {
    match pc
    case PopLoad => StepPopLoad(m, th, sc)
    case PopRead(seen) => StepPopRead(m, th, sc, seen)
    case PopCas(seen, next) => StepPopCas(m, t, th, sc, seen, next, spurious)
    case TakeLoad(d) => StepTakeLoad(m, th, sc, d)
    case TakeCas(d, cur, mx) => StepTakeCas(m, t, th, sc, d, cur, mx, spurious)
    case SbLoad => StepSbLoad(m, th, sc)
    case SbRead(seen) => StepSbRead(m, th, sc, seen)
    case SbCas(seen, next) => StepSbCas(m, t, th, sc, seen, next)
    case GrowLoad(seen) => StepGrowLoad(m, th, sc, seen)
    case GrowCheck(seen, fr) => StepGrowCheck(c, m, th, sc, seen, fr)
    case GrowCas(seen, fr) => StepGrowCas(c, m, t, th, sc, seen, fr)
    case NewInit(d) => StepNewInit(m, th, sc, d)
    case NewDesc(d) => StepNewDesc(c, m, th, sc, d)
    case NewLink(d, i) => StepNewLink(c, m, t, th, sc, d, i)
  }

  ghost function OrgStep(m: Mem, th: Thread, lo: int, n: int, k: After, pc: OrgPc, spurious: bool): Out {
    match pc
    case OrgInit(i) => StepOrgInit(m, th, lo, n, i, k)
    case OrgLoad => StepOrgLoad(m, th, lo, n, k)
    case OrgLink(seen) => StepOrgLink(m, th, lo, n, seen, k)
    case OrgCas(seen) => StepOrgCas(m, th, lo, n, seen, k, spurious)
  }

  ghost function FlushStep(m: Mem, t: int, th: Thread, sc: int, f: FlushFor, pc: FlushPc, spurious: bool): Out {
    match pc
    case FlPick => StepFlPick(m, t, th, sc, f)
    case FlLoad(d, blks) => StepFlLoad(m, th, sc, d, blks, f)
    case FlLink(d, blks, cur) => StepFlLink(m, th, sc, d, blks, cur, f)
    case FlCas(d, blks, cur, upd) => StepFlCas(m, t, th, sc, d, blks, cur, upd, f, spurious)
    case PpLoad(d) => StepPpLoad(m, th, sc, d, f)
    case PpLink(hs, d, seen) => StepPpLink(m, th, sc, hs, d, seen, f)
    case PpCas(hs, d, seen) => StepPpCas(m, th, sc, hs, d, seen, f, spurious)
    case FreePush => if f.ForFree? then StepFreePush(m, t, th, sc, f.b) else Go(m, th, Aborted)
  }

  ghost function BigStep(c: Config, m: Mem, t: int, th: Thread, n: int, pc: BigPc): Out {
    match pc
    case BigLoad => StepBigLoad(c, m, th, n)
    case BigCas(fr) => StepBigCas(m, t, th, n, fr)
    case BigInit(lo) => StepBigInit(m, th, lo, n)
  }

  /** The next step of a thread that is inside a call. */
  ghost function ThreadStep(c: Config, m: Mem, t: int, th: Thread, spurious: bool): Out {
    match th.pc
    case Idle => Out(m, th)
    case Aborted => Out(m, th)
    case Fill(sc, pc) => FillStep(c, m, t, th, sc, pc, spurious)
    case MallocPop(sc) => StepMallocPop(m, th, sc)
    case Org(lo, n, k, pc) => OrgStep(m, th, lo, n, k, pc, spurious)
    case Flush(sc, f, pc) => FlushStep(m, t, th, sc, f, pc, spurious)
    case Large(n, pc) => BigStep(c, m, t, th, n, pc)
  }

  /** What a thread or the application may do next. */
  datatype Action =
    | Continue(t: int, spurious: bool)
    | Malloc(t: int, sc: int)
    | Free(t: int, b: Block)
    | FlushCache(t: int, sc: int)
    | MallocBig(t: int, n: int)
    | FreeBig(t: int, lo: int)
    | Write(t: int, b: Block, v: Link)     // the application overwrites the first word of a block it holds

  ghost predicate SmallClass(c: Config, sc: int) { 1 <= sc < c.classes }

  /** The obligations of the callers: one call at a time per thread, only memory that
      malloc returned is freed or written, it is freed once, and the size of a large
      allocation fits its block_size. */
  ghost predicate Allowed(s: State, a: Action) {
    match a
    case Continue(t, _) => true
    case Malloc(t, sc) => s.th(t).pc.Idle? && SmallClass(s.cfg, sc)
    case Free(t, b) => s.th(t).pc.Idle? && s.m.owner(b) == App
    case FlushCache(t, sc) => s.th(t).pc.Idle? && SmallClass(s.cfg, sc)
    case MallocBig(t, n) => s.th(t).pc.Idle? && 1 <= n < SPAN_LIMIT
    case FreeBig(t, lo) => s.th(t).pc.Idle? && s.m.place(lo).Big? && s.m.place(lo).lo == lo
    case Write(t, b, _) => s.m.owner(b) == App
  }

  ghost function StartMalloc(m: Mem, th: Thread, sc: int): Out {
    Go(m, th, if th.bins(sc).num == 0 then Fill(sc, PopLoad) else MallocPop(sc))
  }

  ghost function StartFree(c: Config, m: Mem, t: int, th: Thread, b: Block): Out {
    match m.desc(b.sb).heap
    case NoHeap => Go(m, th, Aborted)
    case HeapOf(sc) =>
      Go(m.(owner := Upd(m.owner, b, Freeing(t))), th,
         if th.bins(sc).num >= c.maxcount(sc) then Flush(sc, ForFree(b), FlPick) else Flush(sc, ForFree(b), FreePush))
  }

  ghost function StartFreeBig(m: Mem, t: int, th: Thread, lo: int): Out {
    Go(m.(place := SetRange(m.place, lo, m.desc(lo).span, HeldFree(t))), th,
       Org(lo, m.desc(lo).span, Done, OrgInit(0)))
  }

  ghost function Act(c: Config, m: Mem, t: int, th: Thread, a: Action): Out {
    match a
    case Continue(_, spurious) => ThreadStep(c, m, t, th, spurious)
    case Malloc(_, sc) => StartMalloc(m, th, sc)
    case Free(_, b) => StartFree(c, m, t, th, b)
    case FlushCache(_, sc) => Go(m, th, Flush(sc, ForExit, FlPick))
    case MallocBig(_, n) => Go(m, th, Large(n, BigLoad))
    case FreeBig(_, lo) => StartFreeBig(m, t, th, lo)
    case Write(_, b, v) => Out(m.(link := Upd(m.link, b, v)), th)
  }

  ghost function Apply(s: State, a: Action): State {
    var o := Act(s.cfg, s.m, a.t, s.th(a.t), a);
    s.(m := o.m, th := Upd(s.th, a.t, o.th))
  }
}
