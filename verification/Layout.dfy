/** Where blocks lie in memory: address lookup, and live allocations never overlap. */
module Layout {
  import opened AllocatorState
  import opened AllocatorSteps
  import opened AllocatorInvariant
  import opened AllocatorSafety
  import opened AllocatorOwnership
  import opened AllocatorLists
  import opened AllocatorCalls
  import opened Arith
  import opened SizeClasses
  import opened RecoverySpec
  import Recovery
  import RecoveryMark

  // ---------- superblocks and descriptors ----------

  const DESCSIZE := 64

  /** The index part of desc_lookup: which superblock an address lies in. */
  function SbIndex(base: int, ptr: int): int { ptr / SBSIZE - base / SBSIZE }

  /** sb_lookup after the index of the descriptor is known. */
  function SbStart(base: int, d: int): int { base + d * SBSIZE }

  function DescIndex(descBase: int, desc: int): int { desc / DESCSIZE - descBase / DESCSIZE }
  function DescAddr(descBase: int, d: int): int { descBase + d * DESCSIZE }

  /** What desc_lookup finds for byte o of superblock d. */
  ghost function Found(base: int, d: int, o: int): int { SbIndex(base, SbStart(base, d) + o) }

  ghost predicate LookupWorks(base: int) { forall d, o :: 0 <= o < SBSIZE ==> Found(base, d, o) == d }

  /** desc_lookup finds the same descriptor for every address of a superblock, and sb_lookup inverts it,
      exactly if the region begins on a superblock boundary. */
  lemma LookupIff(base: int)
    ensures LookupWorks(base) <==> base % SBSIZE == 0
  {
    if base % SBSIZE == 0 {
      forall d, o | 0 <= o < SBSIZE ensures Found(base, d, o) == d { LookupAligned(base, d, o); }
    } else {
      assert Found(base, 0, SBSIZE - 1) == 1;
    }
  }

  lemma LookupAligned(base: int, d: int, o: int)
    requires base % SBSIZE == 0 && 0 <= o < SBSIZE
    ensures Found(base, d, o) == d
  {
    DivUnique(base + d * SBSIZE + o, SBSIZE, base / SBSIZE + d, o);
  }

  lemma DescLookupInverse(descBase: int, d: int)
    requires descBase % DESCSIZE == 0
    ensures DescIndex(descBase, DescAddr(descBase, d)) == d
  {
    DivUnique(descBase + d * DESCSIZE, DESCSIZE, descBase / DESCSIZE + d, 0);
  }

  // ---------- the machine with Ralloc's size classes ----------

  ghost predicate RallocConfig(c: Config) {
    c.classes == MAX_SZ_IDX && forall sc :: 1 <= sc < MAX_SZ_IDX ==> c.maxcount(sc) == BlockNum(sc)
  }

  lemma RallocSizes(c: Config)
    requires RallocConfig(c)
    ensures Recovery.GoodSizes(c, BlockSize) && forall sc :: 1 <= sc < MAX_SZ_IDX ==> c.maxcount(sc) >= 2
  {
    forall sc | 1 <= sc < MAX_SZ_IDX
      ensures BlockSize(sc) >= 1 && c.maxcount(sc) * BlockSize(sc) <= SBSIZE && c.maxcount(sc) >= 2 {
      Bounds(sc);
    }
  }

  /** It is what calls have returned and no call has freed since. */
  lemma HeldFromCalls(s: State, had: iset<Grant>, acts: seq<Action>, a: Alloc)
    requires Starts(s, had) && Legal(s, acts)
    ensures Held(StateAfter(s, acts), a) <==> IsHeld(s, had, acts, a)
  {
    var p := StateAfter(s, acts);
    if Held(p, a) {
      match a
      case SmallBlock(b) =>
        RunKeepsInv(s, acts);
        Recovery.AppBlock(p.cfg, p.m, b);
        ServesHeld(s, had, acts, a, Malloc(0, p.m.desc(b.sb).heap.sc));
      case LargeBlock(lo) => ServesHeld(s, had, acts, a, MallocBig(0, p.m.place(lo).n));
    }
    if IsHeld(s, had, acts, a) {
      var call :| Holds(s, had, acts, a, call);
      HeldServes(s, had, acts, a, call);
    }
  }

  ghost function ClassOf(s: State, d: int): int {
    if s.m.desc(d).heap.HeapOf? then s.m.desc(d).heap.sc else 0
  }

  ghost function Start(base: int, s: State, a: Alloc): int {
    match a
    case SmallBlock(b) => SbStart(base, b.sb) + b.idx * BlockSize(ClassOf(s, b.sb))
    case LargeBlock(lo) => SbStart(base, lo)
  }

  ghost function Length(s: State, a: Alloc): int {
    match a
    case SmallBlock(b) => BlockSize(ClassOf(s, b.sb))
    case LargeBlock(lo) => s.m.desc(lo).span * SBSIZE
  }

  /** The superblocks an allocation touches. */
  lemma SmallInside(base: int, s: State, b: Block)
    requires Inv(s) && RallocConfig(s.cfg) && s.m.owner(b) == App
    ensures var a := SmallBlock(b);
            && InUse(s.m.place(b.sb)) && 0 <= b.sb < s.m.frontier && 8 <= Length(s, a)
            && SbStart(base, b.sb) <= Start(base, s, a)
            && Start(base, s, a) + Length(s, a) <= SbStart(base, b.sb) + SBSIZE
  {
    Recovery.AppBlock(s.cfg, s.m, b);
    var sc := ClassOf(s, b.sb);
    Bounds(sc);
    MulLess(b.idx, BlockNum(sc), BlockSize(sc));
    MulSign(b.idx, BlockSize(sc));
  }

  lemma LargeInside(s: State, lo: int)
    requires Inv(s) && Held(s, LargeBlock(lo))
    ensures var n := s.m.place(lo).n;
            && n >= 1 && 0 <= lo && lo + n <= s.m.frontier && Length(s, LargeBlock(lo)) == n * SBSIZE
            && forall e :: lo <= e < lo + n ==> s.m.place(e) == Big(lo, n)
  {
    Recovery.BigWhole(s.cfg, s.m, lo);
    assert SharedAt(s.cfg, s.m, lo);
  }

  lemma SmallSmall(base: int, s: State, b: Block, b': Block)
    requires Inv(s) && RallocConfig(s.cfg) && s.m.owner(b) == App && s.m.owner(b') == App && b != b'
    ensures Apart(base, s, SmallBlock(b), SmallBlock(b'))
  {
    SmallInside(base, s, b);
    SmallInside(base, s, b');
    if b.sb == b'.sb {
      var size := BlockSize(ClassOf(s, b.sb));
      MulLess(b.idx, b'.idx, size);
      MulLess(b'.idx, b.idx, size);
    }
  }

  lemma SmallLarge(base: int, s: State, b: Block, lo: int)
    requires Inv(s) && RallocConfig(s.cfg) && s.m.owner(b) == App && Held(s, LargeBlock(lo))
    ensures Apart(base, s, SmallBlock(b), LargeBlock(lo)) && Apart(base, s, LargeBlock(lo), SmallBlock(b))
  {
    SmallInside(base, s, b);
    LargeInside(s, lo);
  }

  lemma LargeLarge(base: int, s: State, lo: int, lo': int)
    requires Inv(s) && Held(s, LargeBlock(lo)) && Held(s, LargeBlock(lo')) && lo != lo'
    ensures Apart(base, s, LargeBlock(lo), LargeBlock(lo'))
  {
    LargeInside(s, lo);
    LargeInside(s, lo');
  }

  ghost predicate Apart(base: int, s: State, a: Alloc, a': Alloc) {
    || Start(base, s, a) + Length(s, a) <= Start(base, s, a')
    || Start(base, s, a') + Length(s, a') <= Start(base, s, a)
  }

  /** In every state of every run the allocations the application holds, small or large, occupy disjoint
      byte ranges inside the region, past its first superblock. */
  lemma LiveRangesDisjoint(base: int, s: State, had: iset<Grant>, acts: seq<Action>, a: Alloc, a': Alloc)
    requires Starts(s, had) && Legal(s, acts) && RallocConfig(s.cfg)
    requires IsHeld(s, had, acts, a) && IsHeld(s, had, acts, a') && a != a'
    ensures Apart(base, StateAfter(s, acts), a, a')
    ensures var p := StateAfter(s, acts);
            SbStart(base, 1) <= Start(base, p, a) && Start(base, p, a) + Length(p, a) <= SbStart(base, p.m.frontier)
  {
    RunKeepsInv(s, acts);
    assert StartsAt(s, had, a, Malloc(0, 0));
    NeverUsed(s, acts);
    SameConfig(s, acts);
    HeldFromCalls(s, had, acts, a);
    HeldFromCalls(s, had, acts, a');
    RangesApart(base, StateAfter(s, acts), a, a');
    RangeInside(base, StateAfter(s, acts), a);
  }

  lemma RangesApart(base: int, p: State, a: Alloc, a': Alloc)
    requires Inv(p) && RallocConfig(p.cfg) && Held(p, a) && Held(p, a') && a != a'
    ensures Apart(base, p, a, a')
  {
    match a
    case SmallBlock(b) =>
      if a'.SmallBlock? { SmallSmall(base, p, b, a'.b); } else { SmallLarge(base, p, b, a'.lo); }
    case LargeBlock(lo) =>
      if a'.SmallBlock? { SmallLarge(base, p, a'.b, lo); } else { LargeLarge(base, p, lo, a'.lo); }
  }

  lemma RangeInside(base: int, p: State, a: Alloc)
    requires Inv(p) && RallocConfig(p.cfg) && p.m.place(0) == Skipped && Held(p, a)
    ensures SbStart(base, 1) <= Start(base, p, a) && Start(base, p, a) + Length(p, a) <= SbStart(base, p.m.frontier)
  {
    match a
    case SmallBlock(b) => SmallInside(base, p, b);
    case LargeBlock(lo) => LargeInside(p, lo);
  }

  lemma {:induction false} SameConfig(s: State, acts: seq<Action>)
    ensures StateAfter(s, acts).cfg == s.cfg
    decreases |acts|
  {
    if acts != [] { SameConfig(s, acts[..|acts| - 1]); }
  }

  // ---------- requests ----------

  /** round_up for a power of two is rounding up to a multiple. */
  function RoundUp(x: int): int { ((x + SBSIZE - 1) / SBSIZE) * SBSIZE }

  /** The call do_malloc makes of the machine for a request of `size` bytes. */
  ghost predicate Asks(call: Action, size: int) {
    if size > MAX_SZ then call.MallocBig? && call.n * SBSIZE == RoundUp(size)
    else call.Malloc? && IsClass(size, call.sc)
  }

  /** Whatever is held is at least as large as what was asked for: of the smallest class that will do,
      or of the fewest superblocks. */
  lemma AtLeastRequested(s: State, had: iset<Grant>, acts: seq<Action>, a: Alloc, call: Action, size: int)
    requires Starts(s, had) && Legal(s, acts) && Holds(s, had, acts, a, call) && size >= 0 && Asks(call, size)
    ensures var p := StateAfter(s, acts);
            && size <= Length(p, a) && (size > MAX_SZ ==> Length(p, a) < size + SBSIZE)
            && (size <= MAX_SZ ==>
                  forall j :: 1 <= j < MAX_SZ_IDX && size <= BlockSize(j) ==> Length(p, a) <= BlockSize(j))
  {
    var p := StateAfter(s, acts);
    HeldServes(s, had, acts, a, call);
    if size > MAX_SZ {
      RunKeepsInv(s, acts);
      LargeInside(p, a.lo);
    } else {
      forall j | 1 <= j < MAX_SZ_IDX && size <= BlockSize(j) ensures BlockSize(call.sc) <= BlockSize(j) {
        Smallest(size, call.sc, j);
      }
    }
  }

  lemma Smallest(size: int, sc: int, j: int)
    requires IsClass(size, sc) && 1 <= j && size <= BlockSize(j)
    ensures BlockSize(sc) <= BlockSize(j)
  {
    NotBelow(size, sc, j);
    NoSmaller(sc, j);
  }

  lemma NotBelow(size: int, sc: int, j: int)
    requires IsClass(size, sc) && 1 <= j && size <= BlockSize(j)
    ensures sc <= j
  {
  }

  lemma NoSmaller(sc: int, j: int)
    requires 1 <= sc <= j
    ensures BlockSize(sc) <= BlockSize(j)
  {
    if sc < j { Increases(sc, j); }
  }

  // ---------- sizes that do not fit ----------

  /** block_size keeps the low 32 bits. */
  lemma StoredBytes(n: int)
    requires n >= 0
    ensures (n * SBSIZE) % 0x1_0000_0000 == Stored(n) * SBSIZE
  {
    DivUnique(n, SPAN_LIMIT, n / SPAN_LIMIT, n % SPAN_LIMIT);
  }

  /** A large allocation of n superblocks, made and freed again: the free takes back exactly those superblocks,
      and a sweep that meets it steps over exactly those, if and only if its bytes fit 32 bits. At a multiple
      of 4 GiB the sweep stays where it is. */
  lemma LargeSizeIff(m: Mem, t: int, th: Thread, lo: int, n: int, k: Crashed)
    requires n >= 1 && k.desc(lo) == StepBigInit(m, th, lo, n).m.desc(lo) && k.home(lo) == lo
    ensures var o := StepBigInit(m, th, lo, n);
            var freed := StartFreeBig(o.m, t, o.th, lo);
            && (BigInv(o.m, lo) <==> n * SBSIZE < 0x1_0000_0000)
            && (freed.th.pc.n == n <==> n * SBSIZE < 0x1_0000_0000)
            && ((forall d :: lo <= d < lo + n ==> freed.m.place(d) == HeldFree(t)) <==> n * SBSIZE < 0x1_0000_0000)
    ensures Stride(k, lo, true) == n <==> n * SBSIZE < 0x1_0000_0000
    ensures Stride(k, lo, true) == 0 <==> (n * SBSIZE) % 0x1_0000_0000 == 0
  {
    StoredBytes(n);
    var o := StepBigInit(m, th, lo, n);
    var freed := StartFreeBig(o.m, t, o.th, lo);
    if n >= SPAN_LIMIT {
      var d := lo + n - 1;
      assert lo <= d < lo + n && freed.m.place(d) == Big(lo, n);
    }
  }

  // ---------- recovery after a run ----------

  /** The address of an allocation as an offset from the region. */
  ghost function Offset(s: State, a: Alloc): int { Start(0, s, a) }

  /** What is left of what was held when only the addresses in `reached` are kept. */
  ghost function Kept(s: State, had: iset<Grant>, acts: seq<Action>, reached: set<int>): iset<Grant> {
    iset g: Grant | Holds(s, had, acts, g.x, g.call) && Offset(StateAfter(s, acts), g.x) in reached
  }

  /** A run, the heap that a crash at its end left behind, what marking reached, and the machine after recovery. */
  datatype Epoch = Epoch(acts: seq<Action>, k: Crashed, reached: set<int>, next: State)

  ghost predicate Follows(s: State, e: Epoch) {
    && Legal(s, e.acts) && Recovery.CrashOf(StateAfter(s, e.acts), BlockSize, e.k)
    && e.next.cfg == s.cfg && Inv(e.next) && Recovery.Recovered(StateAfter(s, e.acts), e.k, e.reached, e.next)
  }

  /** Any run, a crash at any moment of it, then recovery from the roots: the next run starts in a state in
      which the application holds exactly what its calls had given it and the roots still lead to. */
  method RecoverAfterRun(ghost s: State, ghost had: iset<Grant>, ghost acts: seq<Action>, k: Crashed, region: set<int>,
                         roots: seq<RecoveryMark.Typed>, kids: RecoveryMark.Kids, ghost held: iset<RecoveryMark.Typed>)
    returns (desc: int -> Desc, link: Block -> Link, heads: int -> Head, avail: Head, marked: seq<int>,
             ghost tag: int -> int, ghost reached: set<int>)
    requires Starts(s, had) && Legal(s, acts) && RallocConfig(s.cfg)
    requires Recovery.CrashOf(StateAfter(s, acts), BlockSize, k)
    requires RecoveryMark.TypedClosed(region, roots, kids, held)
    requires forall p :: p in held ==>
               exists a :: IsHeld(s, had, acts, a) && p.addr == Offset(StateAfter(s, acts), a)
    ensures RecoveryMark.Reachable(region, roots, kids, tag, reached) && RecoveryMark.FirstSeen(region, roots, tag)
    ensures var next := Restarted(s.cfg, Rebuilt(k, marked, desc, link, heads, avail));
            Follows(s, Epoch(acts, k, reached, next)) && Starts(next, Kept(s, had, acts, reached))
  {
    ghost var p := StateAfter(s, acts);
    RunKeepsInv(s, acts);
    SameConfig(s, acts);
    RallocSizes(s.cfg);
    forall q | q in held ensures Recovery.GoodMark(p, k, q.addr) {
      var a :| IsHeld(s, had, acts, a) && q.addr == Offset(p, a);
      HeldFromCalls(s, had, acts, a);
      OffsetIsMark(p, k, a);
    }
    desc, link, heads, avail, marked, tag, reached :=
      Recovery.RecoverFromRoots(p, BlockSize, k, region, roots, kids, held);
    ghost var next := Restarted(s.cfg, Rebuilt(k, marked, desc, link, heads, avail));
    EpochStarts(s, had, Epoch(acts, k, reached, next));
  }

  lemma OffsetIsMark(p: State, k: Crashed, a: Alloc)
    requires Inv(p) && RallocConfig(p.cfg) && Recovery.CrashOf(p, BlockSize, k) && Held(p, a)
    ensures match a
            case SmallBlock(b) => Offset(p, a) == BlockAddr(k, b.sb, b.idx)
            case LargeBlock(lo) => Offset(p, a) == lo * SBSIZE
    ensures Recovery.GoodMark(p, k, Offset(p, a))
  {
    match a
    case SmallBlock(b) => Recovery.AppBlock(p.cfg, p.m, b);
    case LargeBlock(lo) => assert p.m.place(lo) == Big(lo, p.m.place(lo).n);
  }

  /** Recovery neither drops nor changes what it keeps: the class or the size asked for stays the same. */
  lemma ServesAfter(p: State, k: Crashed, reached: set<int>, next: State, x: Alloc, call: Action)
    requires Inv(p) && RallocConfig(p.cfg) && Recovery.CrashOf(p, BlockSize, k)
    requires Recovery.Recovered(p, k, reached, next)
    ensures Serves(next, x, call) <==> Serves(p, x, call) && Offset(p, x) in reached
  {
    if Held(p, x) { OffsetIsMark(p, k, x); }
    match x
    case SmallBlock(b) => assert Has(next, TheApp, b) ==> next.m.desc(b.sb).heap == p.m.desc(b.sb).heap;
    case LargeBlock(lo) =>
  }

  lemma EpochStarts(s: State, had: iset<Grant>, e: Epoch)
    requires Starts(s, had) && RallocConfig(s.cfg) && Follows(s, e)
    ensures Starts(e.next, Kept(s, had, e.acts, e.reached))
  {
    var p, had' := StateAfter(s, e.acts), Kept(s, had, e.acts, e.reached);
    RunKeepsInv(s, e.acts);
    SameConfig(s, e.acts);
    forall x, call ensures StartsAt(e.next, had', x, call) {
      ServesAfter(p, e.k, e.reached, e.next, x, call);
      if Grant(x, call) in had' { HeldServes(s, had, e.acts, x, call); }
      if Serves(e.next, x, call) {
        ServesHeld(s, had, e.acts, x, call);
        var c :| Holds(s, had, e.acts, x, c);
        assert Grant(x, c) in had';
      }
    }
  }

  // ---------- any number of crashes ----------

  ghost predicate History(s: State, es: seq<Epoch>)
    decreases |es|
  {
    es != [] ==> Follows(s, es[0]) && History(es[0].next, es[1..])
  }

  ghost function Last(s: State, es: seq<Epoch>): State { if es == [] then s else es[|es| - 1].next }

  /** What the application holds after all of them. */
  ghost function Survivors(s: State, had: iset<Grant>, es: seq<Epoch>): iset<Grant>
    decreases |es|
  {
    if es == [] then had else Survivors(es[0].next, Kept(s, had, es[0].acts, es[0].reached), es[1..])
  }

  /** However often the heap crashes and recovers, the next run again starts with exactly what its calls,
      whenever they were made, gave the application and every recovery since could reach. So whatever
      holds of a run holds of every run between two crashes. */
  lemma {:induction false} EveryEpochStarts(s: State, had: iset<Grant>, es: seq<Epoch>)
    requires Starts(s, had) && RallocConfig(s.cfg) && History(s, es)
    ensures Starts(Last(s, es), Survivors(s, had, es)) && Last(s, es).cfg == s.cfg
    decreases |es|
  {
    if es != [] {
      EpochStarts(s, had, es[0]);
      EveryEpochStarts(es[0].next, Kept(s, had, es[0].acts, es[0].reached), es[1..]);
      assert Last(es[0].next, es[1..]) == Last(s, es);
    }
  }
}
