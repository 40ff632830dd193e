/** Recovery as a whole: what the sweep leaves, superblock by superblock, and that a crash of any
    state satisfying the allocator's invariant can be recovered from.
*/
module Recovery {
  import opened AllocatorState
  import opened AllocatorSteps
  import opened AllocatorInvariant
  import opened AllocatorFrames
  import opened AllocatorOwnership
  import opened AllocatorDescriptors
  import opened AllocatorLists
  import opened Arith
  import opened SizeClasses
  import opened RecoverySpec
  import opened RecoverySweep
  import opened RecoveryCursor
  import Mark = RecoveryMark

  // ---------- what the sweep leaves ----------

  /** A small superblock that was in use, with sensible sizes. */
  ghost predicate SmallHome(k: Crashed, marked: seq<int>, d: int) {
    && 1 <= d < k.frontier && Usable(k, d) && k.desc(d).heap.sc != 0
    && k.blockSize(d) >= 1 && k.desc(d).maxcount * k.blockSize(d) <= SBSIZE
    && forall lo :: !Covers(k, marked, lo, d)
  }

  lemma MarkedBlock(c: Config, k: Crashed, marked: seq<int>, d: int)
    requires Sweepable(c, k, marked) && SmallHome(k, marked, d)
    ensures HasMark(marked, d) <==> exists i :: 0 <= i < k.desc(d).maxcount && Marked(k, marked, d, i)
  {
    if HasMark(marked, d) {
      LiveChain(c, k, marked, d);
      var a :| a in marked && SbOf(a) == d;
      assert IsStart(k, d, a);
      var i :| 0 <= i < k.desc(d).maxcount && a == BlockAddr(k, d, i);
      assert Marked(k, marked, d, i);
    }
    forall i | 0 <= i < k.desc(d).maxcount && Marked(k, marked, d, i) ensures HasMark(marked, d) { AddrInSb(k, d, i); }
  }

  /** What the lists hold, following them through the swept descriptors. */
  lemma SweptLists(k: Crashed, marked: seq<int>, desc: int -> Desc, link: Block -> Link, heads: int -> Head,
                   avail: Head, free: seq<int>, sc: int, partials: seq<int>, d: int)
    requires Swept(k, marked, desc, link, heads, avail.ptr, k.frontier) && 1 <= d < k.frontier
    requires Lists(avail.ptr, free, FreeNext(desc)) && Lists(heads(sc).ptr, partials, PartialNext(desc))
    ensures d in free <==> PlaceOf(k, marked, d) == Avail
    ensures d in partials <==> PlaceOf(k, marked, d) == Listed(sc)
  {
    SweptParts(k, marked, desc, link, heads, avail.ptr, k.frontier);
    assert ListsDoneAt(k, marked, desc, heads, avail.ptr, k.frontier, sc);
    ListsUnique(avail.ptr, free, Picked(PlaceMap(k, marked), Avail, k.frontier), FreeNext(desc));
    ListsUnique(heads(sc).ptr, partials, Picked(PlaceMap(k, marked), Listed(sc), k.frontier), PartialNext(desc));
    PickedIs(PlaceMap(k, marked), Avail, k.frontier);
    PickedIs(PlaceMap(k, marked), Listed(sc), k.frontier);
  }

  /** It is on the list of free superblocks, as memory has it, exactly if none of its blocks is marked. */
  lemma SweptFree(c: Config, k: Crashed, marked: seq<int>, desc: int -> Desc, link: Block -> Link,
                  heads: int -> Head, avail: Head, free: seq<int>, partials: seq<int>, d: int)
    requires Sweepable(c, k, marked) && Swept(k, marked, desc, link, heads, avail.ptr, k.frontier)
    requires SmallHome(k, marked, d)
    requires Lists(avail.ptr, free, FreeNext(desc))
    requires Lists(heads(k.desc(d).heap.sc).ptr, partials, PartialNext(desc))
    ensures d in free <==> forall i :: 0 <= i < k.desc(d).maxcount ==> !Marked(k, marked, d, i)
    ensures d in free ==> d !in partials && desc(d) == FreshDesc.(nextFree := desc(d).nextFree)
  {
    SweptParts(k, marked, desc, link, heads, avail.ptr, k.frontier);
    assert DescDone(k, marked, desc, d);
    SweptLists(k, marked, desc, link, heads, avail, free, k.desc(d).heap.sc, partials, d);
    MarkedBlock(c, k, marked, d);
  }

  /** Otherwise it is full exactly if all of them are, and if not, on the partial list of its class,
      with a chain of exactly its unmarked blocks. */
  lemma SweptSmall(c: Config, k: Crashed, marked: seq<int>, desc: int -> Desc, link: Block -> Link,
                   heads: int -> Head, avail: Head, free: seq<int>, partials: seq<int>, d: int)
    requires Sweepable(c, k, marked) && Swept(k, marked, desc, link, heads, avail.ptr, k.frontier)
    requires SmallHome(k, marked, d) && exists i :: 0 <= i < k.desc(d).maxcount && Marked(k, marked, d, i)
    requires Lists(avail.ptr, free, FreeNext(desc))
    requires Lists(heads(k.desc(d).heap.sc).ptr, partials, PartialNext(desc))
    ensures var st := desc(d).anchor.state;
            && (st == Full <==> forall i :: 0 <= i < k.desc(d).maxcount ==> Marked(k, marked, d, i))
            && (st == Partial <==> d in partials) && (st == Full || st == Partial)
            && desc(d) == Reset(k.desc(d), if st == Full then Null else desc(d).nextPartial, desc(d).anchor)
    ensures var a := desc(d).anchor; var w := Walk(link, At(Block(d, a.avail)), a.count);
            && NoDup(w) && |w| == a.count
            && forall b :: b in w <==> b.sb == d && 0 <= b.idx < k.desc(d).maxcount && !Marked(k, marked, d, b.idx)
  {
    MarkedBlock(c, k, marked, d);
    SweptLists(k, marked, desc, link, heads, avail, free, k.desc(d).heap.sc, partials, d);
    LiveChain(c, k, marked, d);
    SweptParts(k, marked, desc, link, heads, avail.ptr, k.frontier);
    assert DescDone(k, marked, desc, d);
    SweptState(k, marked, desc, d);
    SweptChain(c, k, marked, desc, link, heads, avail, d);
  }

  lemma SweptChain(c: Config, k: Crashed, marked: seq<int>, desc: int -> Desc, link: Block -> Link,
                   heads: int -> Head, avail: Head, d: int)
    requires Sweepable(c, k, marked) && Swept(k, marked, desc, link, heads, avail.ptr, k.frontier)
    requires SmallHome(k, marked, d) && HasMark(marked, d) && DescDone(k, marked, desc, d)
    ensures var a := desc(d).anchor; var w := Walk(link, At(Block(d, a.avail)), a.count);
            && NoDup(w) && |w| == a.count
            && forall b :: b in w <==> b.sb == d && 0 <= b.idx < k.desc(d).maxcount && !Marked(k, marked, d, b.idx)
  {
    RebuiltInv(c, k, marked, desc, link, heads, avail);
    ChainWalk(Restarted(c, Rebuilt(k, marked, desc, link, heads, avail)), d);
  }

  lemma SweptState(k: Crashed, marked: seq<int>, desc: int -> Desc, d: int)
    requires 1 <= d < k.frontier && LiveSmall(k, marked, d) && DescDone(k, marked, desc, d)
    requires forall i :: i in ChainOf(k, marked, d) <==> 0 <= i < k.desc(d).maxcount && !Marked(k, marked, d, i)
    ensures desc(d).anchor.state == Full <==> forall i :: 0 <= i < k.desc(d).maxcount ==> Marked(k, marked, d, i)
    ensures PlaceOf(k, marked, d) == Listed(k.desc(d).heap.sc) <==> desc(d).anchor.state == Partial
    ensures desc(d).anchor.state == Full || desc(d).anchor.state == Partial
    ensures var st := desc(d).anchor.state;
            desc(d) == Reset(k.desc(d), if st == Full then Null else desc(d).nextPartial, desc(d).anchor)
  {
    var q := ChainOf(k, marked, d);
    if q != [] {
      var i := q[0];
      assert i in q;
    }
  }

  /** A large allocation that was in use, whose later descriptors were never written. */
  ghost predicate LargeHome(k: Crashed, marked: seq<int>, d: int) {
    && 1 <= d && d + k.desc(d).span <= k.frontier && Usable(k, d) && k.desc(d).heap.sc == 0
    && (forall e :: d < e < d + k.desc(d).span ==> !Usable(k, e))
    && forall lo, e :: d <= e < d + k.desc(d).span && Covers(k, marked, lo, e) ==> lo == d
  }

  /** All of its superblocks are on the list of free ones, as memory has it, or none is; they are exactly if no
      mark that the sweep meets lies in the first of them, wherever else it is pointed at. */
  lemma SweptLarge(c: Config, k: Crashed, all: seq<int>, desc: int -> Desc, link: Block -> Link,
                   heads: int -> Head, avail: Head, free: seq<int>, d: int, e: int)
    requires Sweepable(c, k, Met(k, all)) && Swept(k, Met(k, all), desc, link, heads, avail.ptr, k.frontier)
    requires LargeHome(k, Met(k, all), d) && d <= e < d + k.desc(d).span
    requires Lists(avail.ptr, free, FreeNext(desc))
    ensures e in free <==> !HasMark(Met(k, all), d)
    ensures e in free ==> desc(e) == FreshDesc.(nextFree := desc(e).nextFree)
  {
    var marked := Met(k, all);
    SweptParts(k, marked, desc, link, heads, avail.ptr, k.frontier);
    assert ListsDoneAt(k, marked, desc, heads, avail.ptr, k.frontier, 0);
    SweptLists(k, marked, desc, link, heads, avail, free, 0, Picked(PlaceMap(k, marked), Listed(0), k.frontier), e);
    assert DescDone(k, marked, desc, e);
    if HasMark(marked, d) {
      assert Covers(k, marked, d, e);
      CoveredIsBig(c, k, marked, d, e);
    }
  }

  /** A live large allocation keeps its extent and its descriptor. */
  lemma SweptBig(c: Config, k: Crashed, marked: seq<int>, desc: int -> Desc, link: Block -> Link,
                 heads: int -> Head, avail: Head, d: int)
    requires Sweepable(c, k, marked) && Swept(k, marked, desc, link, heads, avail.ptr, k.frontier)
    requires LiveBig(k, marked, d)
    ensures desc(d) == Reset(k.desc(d), Null, Anchor(0, 0, Full))
    ensures forall e :: d <= e < d + k.desc(d).span ==>
              Rebuilt(k, marked, desc, link, heads, avail).place(e) == Big(d, k.desc(d).span)
  {
    BigRange(c, k, marked, d);
    forall e | d <= e < d + k.desc(d).span ensures PlaceOf(k, marked, e) == Big(d, k.desc(d).span) {
      assert InBig(k, marked, d, k.desc(d).span, e);
    }
    assert Covers(k, marked, d, d);
    CoveredIsBig(c, k, marked, d, d);
    SweptParts(k, marked, desc, link, heads, avail.ptr, k.frontier);
    assert DescDone(k, marked, desc, d);
  }

  /** A small superblock whose marks the sweep does not meet is freed with the blocks in it. */
  lemma MissedIsFreed(c: Config, k: Crashed, all: seq<int>, desc: int -> Desc, link: Block -> Link,
                      heads: int -> Head, avail: Head, free: seq<int>, partials: seq<int>, d: int, i: int)
    requires Sweepable(c, k, Met(k, all)) && Swept(k, Met(k, all), desc, link, heads, avail.ptr, k.frontier)
    requires SmallHome(k, Met(k, all), d) && Lists(avail.ptr, free, FreeNext(desc))
    requires Lists(heads(k.desc(d).heap.sc).ptr, partials, PartialNext(desc))
    requires Increasing(all) && Final(k, all, 0, 1) <= i < |all| && SbOf(all[i]) == d
    ensures d in free
  {
    MetWhole(k, all, i);
    MarkedBlock(c, k, Met(k, all), d);
    SweptFree(c, k, Met(k, all), desc, link, heads, avail, free, partials, d);
  }

  // ---------- crashing anywhere ----------

  ghost predicate GoodSizes(c: Config, size: int -> int) {
    forall sc :: SmallClass(c, sc) ==> size(sc) >= 1 && c.maxcount(sc) * size(sc) <= SBSIZE
  }

  /** The persisted fields of superblock d survived. */
  ghost predicate Intact(s: State, size: int -> int, k: Crashed, d: int) {
    && k.desc(d).heap == s.m.desc(d).heap && k.desc(d).maxcount == s.m.desc(d).maxcount
    && k.home(d) == d && (k.desc(d).heap.HeapOf? ==> k.blockSize(d) == size(k.desc(d).heap.sc))
  }

  /** k is what a crash in state s leaves: the persisted fields of every superblock in which the application
      holds a block and of every large allocation are intact. Everything else may hold anything, also the
      descriptor of a superblock that was put to use but of which no block was returned yet. */
  ghost predicate CrashOf(s: State, size: int -> int, k: Crashed) {
    && k.frontier == s.m.frontier && s.m.place(0) == Skipped
    && (forall b :: s.m.owner(b) == App ==> Intact(s, size, k, b.sb))
    && (forall d, n :: s.m.place(d) == Big(d, n) ==>
          && k.desc(d).heap == HeapOf(0) && k.desc(d).maxcount == 1 && k.home(d) == d
          && k.desc(d).span == n && k.blockSize(d) == n * SBSIZE)
  }

  /** A mark is the address of a block the application holds or of a large allocation. */
  ghost predicate GoodMark(s: State, k: Crashed, a: int) {
    || (exists b: Block :: s.m.owner(b) == App && a == BlockAddr(k, b.sb, b.idx))
    || (exists d, n :: s.m.place(d) == Big(d, n) && a == d * SBSIZE)
  }

  ghost predicate GoodMarks(s: State, k: Crashed, marked: seq<int>) {
    Increasing(marked) && forall a :: a in marked ==> GoodMark(s, k, a)
  }

  lemma BlockInSb(c: Config, size: int -> int, s: State, k: Crashed, b: Block)
    requires SharedInv(c, s.m) && c == s.cfg && GoodSizes(c, size) && CrashOf(s, size, k) && s.m.owner(b) == App
    ensures SbOf(BlockAddr(k, b.sb, b.idx)) == b.sb && InUse(s.m.place(b.sb)) && 1 <= b.sb < k.frontier
    ensures k.desc(b.sb).heap.HeapOf? && k.desc(b.sb).heap.sc >= 1 && 0 <= b.idx < k.desc(b.sb).maxcount
    ensures k.blockSize(b.sb) >= 1
  {
    AppBlock(c, s.m, b);
    assert SmallClass(c, k.desc(b.sb).heap.sc);
    AddrInSb(k, b.sb, b.idx);
  }

  lemma AppBlock(c: Config, m: Mem, b: Block)
    requires SharedInv(c, m) && m.owner(b) == App
    ensures InUse(m.place(b.sb)) && 0 <= b.sb < m.frontier
    ensures var D := m.desc(b.sb);
            && D.heap.HeapOf? && SmallClass(c, D.heap.sc) && D.maxcount == c.maxcount(D.heap.sc)
            && 0 <= b.idx < D.maxcount
  {
    assert SharedAt(c, m, b.sb) && b == Block(b.sb, b.idx);
  }

  lemma AddrInSb(k: Crashed, d: int, i: int)
    requires k.blockSize(d) >= 1 && 0 <= i < k.desc(d).maxcount && k.desc(d).maxcount * k.blockSize(d) <= SBSIZE
    ensures SbOf(BlockAddr(k, d, i)) == d
  {
    var bs := k.blockSize(d);
    MulLess(i, k.desc(d).maxcount, bs);
    MulSign(i, bs);
    DivUnique(BlockAddr(k, d, i), SBSIZE, d, i * bs);
  }

  /** Where a good mark points. */
  lemma MarkHome(size: int -> int, s: State, k: Crashed, a: int)
    requires SharedInv(s.cfg, s.m) && GoodSizes(s.cfg, size) && CrashOf(s, size, k) && GoodMark(s, k, a)
    ensures 1 <= SbOf(a) < k.frontier
    ensures var d := SbOf(a);
            || (InUse(s.m.place(d)) && Intact(s, size, k, d) && IsStart(k, d, a) && Usable(k, d)
                && k.desc(d).heap.sc != 0)
            || (s.m.place(d).Big? && s.m.place(d).lo == d)
  {
    if b: Block :| s.m.owner(b) == App && a == BlockAddr(k, b.sb, b.idx) {
      BlockInSb(s.cfg, size, s, k, b);
    } else {
      var d, n :| s.m.place(d) == Big(d, n) && a == d * SBSIZE;
      DivUnique(a, SBSIZE, d, 0);
      BigWhole(s.cfg, s.m, d);
    }
  }

  lemma CrashBig(size: int -> int, s: State, k: Crashed, marked: seq<int>, d: int)
    requires SharedInv(s.cfg, s.m) && GoodSizes(s.cfg, size) && CrashOf(s, size, k) && GoodMarks(s, k, marked)
    requires LiveBig(k, marked, d)
    ensures s.m.place(d).Big? && s.m.place(d).lo == d && BigOk(k, marked, d)
  {
    var a :| a in marked && SbOf(a) == d;
    MarkHome(size, s, k, a);
    BigWhole(s.cfg, s.m, d);
    var n := s.m.place(d).n;
    forall e | d < e < d + n ensures !HasMark(marked, e) {
      assert s.m.place(e) == Big(d, n);
      if HasMark(marked, e) {
        var b :| b in marked && SbOf(b) == e;
        MarkHome(size, s, k, b);
        assert false;
      }
    }
  }

  lemma BigWhole(c: Config, m: Mem, d: int)
    requires SharedInv(c, m) && m.place(d).Big? && m.place(d).lo == d
    ensures var n := m.place(d).n;
            && d >= 0 && n >= 1 && d + n <= m.frontier
            && forall e :: d <= e < d + n ==> m.place(e) == Big(d, n)
  {
    assert SharedAt(c, m, d);
    var n := m.place(d).n;
    assert m.place(d + n - 1) == Big(d, n);
    assert SharedAt(c, m, d + n - 1);
  }

  lemma CrashSmall(size: int -> int, s: State, k: Crashed, marked: seq<int>, d: int)
    requires SharedInv(s.cfg, s.m) && GoodSizes(s.cfg, size) && CrashOf(s, size, k) && GoodMarks(s, k, marked)
    requires LiveSmall(k, marked, d)
    ensures InUse(s.m.place(d)) && SmallOk(s.cfg, k, marked, d)
  {
    var a :| a in marked && SbOf(a) == d;
    MarkHome(size, s, k, a);
    forall b | b in marked && SbOf(b) == d ensures IsStart(k, d, b) { MarkHome(size, s, k, b); }
    assert UsedInv(s.cfg, s.m, d) by { assert SharedAt(s.cfg, s.m, d); }
  }

  /** Crash anywhere: whatever the threads were doing, if the marks are addresses the application
      held, the sweep has what it needs. */
  lemma CrashIsSweepable(size: int -> int, s: State, k: Crashed, marked: seq<int>)
    requires Inv(s) && GoodSizes(s.cfg, size) && CrashOf(s, size, k) && GoodMarks(s, k, marked)
    ensures Sweepable(s.cfg, k, marked)
  {
    assert GoodConfig(s.cfg) && k.frontier >= 1 by { assert SharedAt(s.cfg, s.m, 0); }
    forall a | a in marked ensures 1 <= SbOf(a) < k.frontier { MarkHome(size, s, k, a); }
    forall d | LiveBig(k, marked, d) ensures BigOk(k, marked, d) { CrashBig(size, s, k, marked, d); }
    forall d | LiveSmall(k, marked, d) ensures SmallOk(s.cfg, k, marked, d) { CrashSmall(size, s, k, marked, d); }
    forall x ensures SweepableAt(s.cfg, k, marked, x) {}
  }

  /** After recovery the application holds exactly the small blocks it held before the crash
      and that are marked; every other block is free again. */
  lemma RecoveredApp(size: int -> int, s: State, k: Crashed, marked: seq<int>, b: Block)
    requires Inv(s) && GoodSizes(s.cfg, size) && CrashOf(s, size, k) && GoodMarks(s, k, marked)
    ensures OwnerOf(k, marked, b) == App <==> s.m.owner(b) == App && BlockAddr(k, b.sb, b.idx) in marked
  {
    if OwnerOf(k, marked, b) == App {
      CrashSmall(size, s, k, marked, b.sb);
      var a := BlockAddr(k, b.sb, b.idx);
      AddrInSb(k, b.sb, b.idx);
      MarkOwner(size, s, k, a, b);
    }
    if s.m.owner(b) == App && BlockAddr(k, b.sb, b.idx) in marked {
      BlockInSb(s.cfg, size, s, k, b);
      assert HasMark(marked, b.sb);
    }
  }

  /** Block addresses name blocks: only one block starts at a marked address. */
  lemma MarkOwner(size: int -> int, s: State, k: Crashed, a: int, b: Block)
    requires SharedInv(s.cfg, s.m) && GoodSizes(s.cfg, size) && CrashOf(s, size, k) && GoodMark(s, k, a)
    requires a == BlockAddr(k, b.sb, b.idx) && SbOf(a) == b.sb && InUse(s.m.place(b.sb)) && k.blockSize(b.sb) >= 1
    ensures s.m.owner(b) == App
  {
    if x: Block :| s.m.owner(x) == App && a == BlockAddr(k, x.sb, x.idx) {
      BlockInSb(s.cfg, size, s, k, x);
      MulLess(x.idx, b.idx, k.blockSize(b.sb));
      MulLess(b.idx, x.idx, k.blockSize(b.sb));
      assert x == b;
    } else {
      var d, n :| s.m.place(d) == Big(d, n) && a == d * SBSIZE;
      DivUnique(a, SBSIZE, d, 0);
      assert false;
    }
  }

  lemma RecoveredClass(size: int -> int, s: State, k: Crashed, marked: seq<int>, desc: int -> Desc, link: Block -> Link,
                       heads: int -> Head, avail: Ptr, b: Block)
    requires Inv(s) && GoodSizes(s.cfg, size) && CrashOf(s, size, k) && GoodMarks(s, k, marked)
    requires Swept(k, marked, desc, link, heads, avail, k.frontier) && OwnerOf(k, marked, b) == App
    ensures desc(b.sb).heap == s.m.desc(b.sb).heap
  {
    RecoveredApp(size, s, k, marked, b);
    BlockInSb(s.cfg, size, s, k, b);
    SweptParts(k, marked, desc, link, heads, avail, k.frontier);
    assert DescDone(k, marked, desc, b.sb);
  }

  /** Of the large allocations it keeps exactly the marked ones. */
  lemma RecoveredBig(size: int -> int, s: State, k: Crashed, marked: seq<int>, d: int, n: int)
    requires Inv(s) && GoodSizes(s.cfg, size) && CrashOf(s, size, k) && GoodMarks(s, k, marked)
    ensures PlaceOf(k, marked, d) == Big(d, n) <==> s.m.place(d) == Big(d, n) && d * SBSIZE in marked
  {
    CrashIsSweepable(size, s, k, marked);
    if PlaceOf(k, marked, d) == Big(d, n) {
      var lo :| Covers(k, marked, lo, d);
      CoveredIsBig(s.cfg, k, marked, lo, d);
      CrashBig(size, s, k, marked, d);
      var a :| a in marked && SbOf(a) == d;
      BigMark(size, s, k, a, d);
    }
    if s.m.place(d) == Big(d, n) && d * SBSIZE in marked {
      DivUnique(d * SBSIZE, SBSIZE, d, 0);
      assert HasMark(marked, d);
      BigWhole(s.cfg, s.m, d);
      assert Covers(k, marked, d, d);
      CoveredIsBig(s.cfg, k, marked, d, d);
    }
  }

  /** A good mark in the first superblock of a large allocation is its start. */
  lemma BigMark(size: int -> int, s: State, k: Crashed, a: int, d: int)
    requires SharedInv(s.cfg, s.m) && GoodSizes(s.cfg, size) && CrashOf(s, size, k) && GoodMark(s, k, a)
    requires SbOf(a) == d && s.m.place(d).Big?
    ensures a == d * SBSIZE
  {
    if b: Block :| s.m.owner(b) == App && a == BlockAddr(k, b.sb, b.idx) {
      BlockInSb(s.cfg, size, s, k, b);
      assert false;
    } else {
      var e, n :| s.m.place(e) == Big(e, n) && a == e * SBSIZE;
      DivUnique(a, SBSIZE, e, 0);
    }
  }

  // ---------- recovery ----------

  /** If every typed pointer to which the roots lead is the address of something the application held,
      then the marks, in increasing order, are what the sweep asks for. */
  lemma MarksAreGood(s: State, k: Crashed, region: set<int>, roots: seq<Mark.Typed>, kids: Mark.Kids, tag: int -> int,
                     reached: set<int>, held: iset<Mark.Typed>, marked: seq<int>)
    requires Mark.WellTyped(region, kids, tag, reached, roots) && Mark.TypedClosed(region, roots, kids, held)
    requires forall p :: p in held ==> GoodMark(s, k, p.addr)
    requires Increasing(marked) && forall a :: a in marked <==> a in reached
    ensures GoodMarks(s, k, marked)
  {
    forall a | a in marked ensures GoodMark(s, k, a) {
      assert Mark.TypedIn(tag, reached, held);
      assert Mark.Typed(a, tag(a)) in held;
    }
  }

  /** After recovery the application holds what it held and is marked, of the classes it had and with the
      contents that the crash left, and nothing else; the descriptors of free superblocks are blank. */
  ghost predicate Recovered(s: State, k: Crashed, marks: set<int>, s': State) {
    && s'.m.place(0) == Skipped && (forall t :: s'.th(t).pc.Idle?) && BlankInv(s')
    && (forall b :: Has(s', TheApp, b) ==> s'.m.desc(b.sb).heap == s.m.desc(b.sb).heap && s'.m.link(b) == k.link(b))
    && (forall b :: Has(s', TheApp, b) <==> Has(s, TheApp, b) && BlockAddr(k, b.sb, b.idx) in marks)
    && (forall d, n :: s'.m.place(d) == Big(d, n) <==> s.m.place(d) == Big(d, n) && d * SBSIZE in marks)
  }

  /** The sweep after a crash in any state: the allocator runs on from a state that satisfies its
      invariant, in which the application holds what was marked. */
  method Recover(ghost s: State, ghost size: int -> int, k: Crashed, marked: seq<int>)
    returns (desc: int -> Desc, link: Block -> Link, heads: int -> Head, avail: Head)
    requires Inv(s) && GoodSizes(s.cfg, size) && CrashOf(s, size, k) && GoodMarks(s, k, marked)
    ensures Sweepable(s.cfg, k, marked) && Swept(k, marked, desc, link, heads, avail.ptr, k.frontier)
    ensures Inv(Restarted(s.cfg, Rebuilt(k, marked, desc, link, heads, avail)))
    ensures Recovered(s, k, (set a | a in marked), Restarted(s.cfg, Rebuilt(k, marked, desc, link, heads, avail)))
  {
    CrashIsSweepable(size, s, k, marked);
    assert k.frontier >= 1 by { SweepableParts(s.cfg, k, marked); }
    MetAll(s.cfg, k, marked);
    desc, link, heads, avail := Sweep(s.cfg, k, marked);
    SweptIsRecovered(size, s, k, marked, desc, link, heads, avail);
  }

  lemma SweptBlank(k: Crashed, marked: seq<int>, desc: int -> Desc, link: Block -> Link, heads: int -> Head,
                   avail: Head)
    requires Swept(k, marked, desc, link, heads, avail.ptr, k.frontier)
    ensures FreeBlank(Rebuilt(k, marked, desc, link, heads, avail))
  {
    SweptParts(k, marked, desc, link, heads, avail.ptr, k.frontier);
    forall d | PlaceOf(k, marked, d) == Avail ensures Blank(desc(d)) { assert DescDone(k, marked, desc, d); }
  }

  lemma SweptIsRecovered(size: int -> int, s: State, k: Crashed, marked: seq<int>, desc: int -> Desc,
                         link: Block -> Link, heads: int -> Head, avail: Head)
    requires Inv(s) && GoodSizes(s.cfg, size) && CrashOf(s, size, k) && GoodMarks(s, k, marked)
    requires Swept(k, marked, desc, link, heads, avail.ptr, k.frontier) && Untouched(k, marked, k.link, link)
    requires k.frontier >= 1
    ensures Recovered(s, k, (set a | a in marked), Restarted(s.cfg, Rebuilt(k, marked, desc, link, heads, avail)))
  {
    forall b ensures OwnerOf(k, marked, b) == App <==> s.m.owner(b) == App && BlockAddr(k, b.sb, b.idx) in marked {
      RecoveredApp(size, s, k, marked, b);
    }
    forall b | OwnerOf(k, marked, b) == App ensures desc(b.sb).heap == s.m.desc(b.sb).heap {
      RecoveredClass(size, s, k, marked, desc, link, heads, avail.ptr, b);
    }
    forall d, n ensures PlaceOf(k, marked, d) == Big(d, n) <==> s.m.place(d) == Big(d, n) && d * SBSIZE in marked {
      RecoveredBig(size, s, k, marked, d, n);
    }
    SweptBlank(k, marked, desc, link, heads, avail);
    KeptIsRecovered(s, k, marked, desc, link, heads, avail);
  }

  lemma KeptIsRecovered(s: State, k: Crashed, marked: seq<int>, desc: int -> Desc, link: Block -> Link,
                        heads: int -> Head, avail: Head)
    requires Untouched(k, marked, k.link, link) && k.frontier >= 1
    requires FreeBlank(Rebuilt(k, marked, desc, link, heads, avail))
    requires forall b :: OwnerOf(k, marked, b) == App <==> s.m.owner(b) == App && BlockAddr(k, b.sb, b.idx) in marked
    requires forall b :: OwnerOf(k, marked, b) == App ==> desc(b.sb).heap == s.m.desc(b.sb).heap
    requires forall d, n :: PlaceOf(k, marked, d) == Big(d, n) <==> s.m.place(d) == Big(d, n) && d * SBSIZE in marked
    ensures Recovered(s, k, (set a | a in marked), Restarted(s.cfg, Rebuilt(k, marked, desc, link, heads, avail)))
  {
  }

  /** The order in which an iterator of the set of marks meets them. */
  method InOrder(marks: set<int>) returns (marked: seq<int>)
    ensures Increasing(marked) && forall a :: a in marked <==> a in marks
  {
    marked := [];
    var rest := marks;
    while exists x :: x in rest
      invariant Increasing(marked) && rest <= marks
      invariant forall a :: a in marked <==> a in marks && a !in rest
      invariant forall a, b :: a in marked && b in rest ==> a < b
      decreases |rest|
    {
      ghost var any :| any in rest;
      HasLeast(rest, any);
      var x :| x in rest && forall y :: y in rest ==> x <= y;
      forall i | 0 <= i < |marked| ensures marked[i] < x { assert marked[i] in marked; }
      marked := marked + [x];
      rest := rest - {x};
    }
  }

  /** Recovery from the roots after a crash in any state: it ends, and the application holds exactly
      what it held and can still reach. */
  method RecoverFromRoots(ghost s: State, ghost size: int -> int, k: Crashed, region: set<int>,
                          roots: seq<Mark.Typed>, kids: Mark.Kids, ghost held: iset<Mark.Typed>)
    returns (desc: int -> Desc, link: Block -> Link, heads: int -> Head, avail: Head, marked: seq<int>,
             ghost tag: int -> int, ghost reached: set<int>)
    requires Inv(s) && GoodSizes(s.cfg, size) && CrashOf(s, size, k)
    requires Mark.TypedClosed(region, roots, kids, held) && forall p :: p in held ==> GoodMark(s, k, p.addr)
    ensures Mark.Reachable(region, roots, kids, tag, reached) && Mark.FirstSeen(region, roots, tag)
    ensures Inv(Restarted(s.cfg, Rebuilt(k, marked, desc, link, heads, avail)))
    ensures Recovered(s, k, reached, Restarted(s.cfg, Rebuilt(k, marked, desc, link, heads, avail)))
  {
    var gc := new Mark.Collector(region, kids);
    gc.MarkFrom(roots);
    tag, reached := gc.tag, gc.marked;
    marked := InOrder(gc.marked);
    MarksAreGood(s, k, region, roots, kids, tag, reached, held, marked);
    desc, link, heads, avail := Recover(s, size, k, marked);
    assert reached == set a | a in marked;
  }
}
