/** What the invariant means in terms of the concrete memory alone: blocks are found by
    following links from caches, anchors and locals, and what the application holds is
    what its own calls gave and took.
*/
module AllocatorOwnership {
  import opened AllocatorState
  import opened AllocatorSteps
  import opened AllocatorInvariant
  import opened AllocatorFrames
  import opened AllocatorTransfers
  import opened AllocatorFill
  import opened AllocatorFree
  import opened AllocatorSafety

  // ---------- walking the memory ----------

  /** The blocks met by following `n` links from `p`. */
  ghost function Walk(link: Block -> Link, p: Link, n: int): seq<Block>
    decreases n
  {
    if n <= 0 || p.Nil? then [] else [p.b] + Walk(link, link(p.b), n - 1)
  }

  lemma {:induction false} WalkLinked(link: Block -> Link, q: seq<Block>)
    requires q != [] && Linked(link, q)
    ensures Walk(link, At(q[0]), |q|) == q
    decreases |q|
  {
    if |q| > 1 {
      var r := q[1..];
      assert link(q[0]) == At(q[1]);
      forall i, j | 0 <= i && j == i + 1 && j < |r| ensures link(r[i]) == At(r[j]) {
        var a, b := i + 1, j + 1;
        assert link(q[a]) == At(q[b]);
      }
      WalkLinked(link, r);
    } else {
      assert Walk(link, link(q[0]), 0) == [];
    }
  }

  lemma WalkIn(link: Block -> Link, d: int, q: seq<int>)
    requires q != [] && LinkedIn(link, d, q)
    ensures Walk(link, At(Block(d, q[0])), |q|) == BlocksOf(d, q)
  {
    var bs := BlocksOf(d, q);
    forall i, j | 0 <= i && j == i + 1 && j < |bs| ensures link(bs[i]) == At(bs[j]) {
      assert link(Block(d, q[i])) == At(Block(d, q[j]));
    }
    WalkLinked(link, bs);
  }

  /** How many free blocks an anchor stands for; an EMPTY one stores one too few. */
  ghost function FreeCount(a: Anchor): int {
    match a.state
    case Partial => a.count
    case Empty => a.count + 1
    case _ => 0
  }

  /** The four kinds of holder, and the one block a free in progress carries. */
  datatype Holder = TheApp | Cache(t: int, sc: int) | Chain(d: int) | Hand(t: int) | Freed(t: int)

  ghost function CacheBlocks(s: State, t: int, sc: int): seq<Block> {
    Walk(s.m.link, s.th(t).bins(sc).head, s.th(t).bins(sc).num)
  }

  ghost function ChainBlocks(s: State, d: int): seq<Block> {
    if !InUse(s.m.place(d)) then [] else
    Walk(s.m.link, At(Block(d, s.m.desc(d).anchor.avail)), FreeCount(s.m.desc(d).anchor))
  }

  ghost function HandBlocks(s: State, t: int): seq<Block> {
    var h := HoldOf(s.th(t).pc);
    if h.blks == [] then [] else Walk(s.m.link, At(Block(h.sb, h.blks[0])), |h.blks|)
  }

  ghost predicate Has(s: State, w: Holder, b: Block) {
    match w
    case TheApp => s.m.owner(b) == App
    case Cache(t, sc) => b in CacheBlocks(s, t, sc)
    case Chain(d) => b in ChainBlocks(s, d)
    case Hand(t) => b in HandBlocks(s, t)
    case Freed(t) => HoldOf(s.th(t).pc).f == ForFree(b)
  }

  ghost predicate IsBlock(s: State, b: Block) {
    InUse(s.m.place(b.sb)) && 0 <= b.idx < s.m.desc(b.sb).maxcount
  }

  // ---------- the walks find exactly the owned blocks ----------

  lemma CacheWalk(s: State, t: int, sc: int)
    requires Inv(s)
    ensures CacheBlocks(s, t, sc) == s.th(t).bins(sc).blocks && NoDup(CacheBlocks(s, t, sc))
    ensures |CacheBlocks(s, t, sc)| == s.th(t).bins(sc).num
    ensures forall b :: b in CacheBlocks(s, t, sc) <==> s.m.owner(b) == Cached(t, sc)
  {
    assert ThreadInv(s.cfg, s.m, t, s.th(t));
    assert ThreadAt(s.cfg, s.m, t, s.th(t), sc);
    var q := s.th(t).bins(sc).blocks;
    if q != [] { WalkLinked(s.m.link, q); }
  }

  lemma ChainWalk(s: State, d: int)
    requires Inv(s)
    ensures NoDup(ChainBlocks(s, d))
    ensures InUse(s.m.place(d)) ==> |ChainBlocks(s, d)| == FreeCount(s.m.desc(d).anchor)
    ensures InUse(s.m.place(d)) ==>
              var a, mx := s.m.desc(d).anchor, s.m.desc(d).maxcount;
              (a.state == Full <==> ChainBlocks(s, d) == []) && (a.state == Full <==> a.avail == mx)
    ensures forall b :: b in ChainBlocks(s, d) <==> b.sb == d && s.m.owner(b) == Chained
  {
    var q := s.m.chain(d);
    UnusedOutside(s.cfg, s.m);
    if InUse(s.m.place(d)) {
      ChainFacts(s.cfg, s.m, d);
      if q != [] { WalkIn(s.m.link, d, q); }
      ChainMembers(s.m, d, q);
    }
  }

  lemma ChainFacts(c: Config, m: Mem, d: int)
    requires SharedInv(c, m) && InUse(m.place(d))
    ensures NoDup(m.chain(d)) && LinkedIn(m.link, d, m.chain(d)) && |m.chain(d)| == FreeCount(m.desc(d).anchor)
    ensures m.chain(d) != [] ==> m.desc(d).anchor.avail == m.chain(d)[0]
    ensures var a := m.desc(d).anchor; a.state == Full <==> m.chain(d) == []
    ensures var a := m.desc(d).anchor; a.state == Full <==> a.avail == m.desc(d).maxcount
    ensures forall i :: m.owner(Block(d, i)) == Chained <==> i in m.chain(d)
  {
    assert SharedAt(c, m, d);
    assert m.chain(d) != [] ==> m.chain(d)[0] in m.chain(d) && m.owner(Block(d, m.chain(d)[0])) == Chained;
  }

  lemma ChainMembers(m: Mem, d: int, q: seq<int>)
    requires NoDup(q) && forall i :: m.owner(Block(d, i)) == Chained <==> i in q
    ensures NoDup(BlocksOf(d, q))
    ensures forall b :: b in BlocksOf(d, q) <==> b.sb == d && m.owner(b) == Chained
  {
    var bs := BlocksOf(d, q);
    forall i, j | 0 <= i < j < |bs| ensures bs[i] != bs[j] { assert q[i] != q[j]; }
    forall b: Block ensures b in bs <==> b.sb == d && m.owner(b) == Chained {
      InBlocksOf(d, q, b);
      assert b.sb == d ==> b == Block(d, b.idx);
    }
  }

  lemma InBlocksOf(d: int, q: seq<int>, b: Block)
    ensures b in BlocksOf(d, q) <==> b.sb == d && b.idx in q
  {
    if b.sb == d && b.idx in q {
      var i :| 0 <= i < |q| && q[i] == b.idx;
      assert BlocksOf(d, q)[i] == b;
    }
  }

  lemma HandWalk(s: State, t: int)
    requires Inv(s)
    ensures |HandBlocks(s, t)| == |HoldOf(s.th(t).pc).blks| && NoDup(HandBlocks(s, t))
    ensures forall b :: b in HandBlocks(s, t) <==> s.m.owner(b) == InHand(t)
  {
    assert ThreadInv(s.cfg, s.m, t, s.th(t));
    assert ThreadAt(s.cfg, s.m, t, s.th(t), 0);
    var h := HoldOf(s.th(t).pc);
    if h.blks != [] {
      WalkIn(s.m.link, h.sb, h.blks);
      forall b ensures b in BlocksOf(h.sb, h.blks) <==> s.m.owner(b) == InHand(t) { InBlocksOf(h.sb, h.blks, b); }
    }
  }

  ghost function OwnerBy(w: Holder): Owner {
    match w
    case TheApp => App
    case Cache(t, sc) => Cached(t, sc)
    case Chain(_) => Chained
    case Hand(t) => InHand(t)
    case Freed(t) => Freeing(t)
  }

  ghost function HolderOf(o: Owner, b: Block): Holder {
    match o
    case Cached(t, sc) => Cache(t, sc)
    case Chained => Chain(b.sb)
    case InHand(t) => Hand(t)
    case Freeing(t) => Freed(t)
    case _ => TheApp
  }

  lemma HasIsOwner(s: State, w: Holder, b: Block)
    requires Inv(s)
    ensures Has(s, w, b) <==> s.m.owner(b) == OwnerBy(w) && (w.Chain? ==> b.sb == w.d)
  {
    match w
    case TheApp =>
    case Cache(t, sc) => CacheWalk(s, t, sc);
    case Chain(d) => ChainWalk(s, d);
    case Hand(t) => HandWalk(s, t);
    case Freed(t) =>
      assert ThreadInv(s.cfg, s.m, t, s.th(t));
      assert ThreadAt(s.cfg, s.m, t, s.th(t), 0);
  }

  /** No block has two holders. */
  lemma NoTwoHolders(s: State, w: Holder, w': Holder, b: Block)
    requires Inv(s) && Has(s, w, b) && Has(s, w', b)
    ensures w == w'
  {
    HasIsOwner(s, w, b);
    HasIsOwner(s, w', b);
  }

  lemma OwnedIsBlock(s: State, b: Block)
    requires SharedInv(s.cfg, s.m)
    ensures IsBlock(s, b) <==> s.m.owner(b) != Unused
  {
    assert SharedAt(s.cfg, s.m, b.sb) && b == Block(b.sb, b.idx);
  }

  /** Exactly the blocks of superblocks in use have a holder: none is lost. */
  lemma SomeHolder(s: State, b: Block)
    requires Inv(s)
    ensures IsBlock(s, b) <==> exists w :: Has(s, w, b)
  {
    OwnedIsBlock(s, b);
    HasIsOwner(s, HolderOf(s.m.owner(b), b), b);
    forall w | Has(s, w, b) ensures IsBlock(s, b) { HasIsOwner(s, w, b); }
  }

  // ---------- what the application holds ----------

  /** Of `had` and the blocks malloc has returned along a run, those that free has not been given since. */
  ghost function Live(s: State, had: iset<Block>, acts: seq<Action>): iset<Block>
    decreases |acts|
  {
    if acts == [] then had else
    var a, before := acts[|acts| - 1], acts[..|acts| - 1];
    var p := StateAfter(s, before);
    if a.Free? then Live(s, had, before) - iset{a.b}
    else if a.Continue? && p.th(a.t).pc.MallocPop? && p.th(a.t).bins(p.th(a.t).pc.sc).head.At? then
      Live(s, had, before) + iset{p.th(a.t).bins(p.th(a.t).pc.sc).head.b}
    else Live(s, had, before)
  }

  /** A run may begin here, the application holding `had`: nothing in the heap as constructed, and what
      recovery kept after a crash. */
  ghost predicate Begins(s: State, had: iset<Block>) {
    Inv(s) && forall b :: b in had <==> Has(s, TheApp, b)
  }

  lemma InitBegins(s: State)
    requires Init(s)
    ensures Begins(s, iset{})
  {
    InitInv(s);
  }

  /** Owners move, but never to or from the application. */
  ghost predicate AppKept(m: Mem, m': Mem) {
    forall b :: m'.owner(b) == App <==> m.owner(b) == App
  }

  lemma SetKeepsApp(owner: Block -> Owner, d: int, q: seq<int>, o: Owner)
    requires o != App && forall i :: i in q ==> owner(Block(d, i)) != App
    ensures forall b :: SetBlocks(owner, d, q, o)(b) == App <==> owner(b) == App
  {
    forall b: Block ensures SetBlocks(owner, d, q, o)(b) == App <==> owner(b) == App {
      assert b.sb == d ==> b == Block(d, b.idx);
    }
  }

  lemma RetireKeepsApp(m: Mem, t: int, d: int)
    requires forall i :: m.owner(Block(d, i)) != App
    ensures AppKept(m, Retire(m, t, d))
  {
    forall b: Block ensures Retire(m, t, d).owner(b) == App <==> m.owner(b) == App {
      assert b.sb == d ==> b == Block(d, b.idx);
    }
  }

  lemma ChainNotApp(c: Config, m: Mem, d: int)
    requires SharedInv(c, m) && InUse(m.place(d))
    ensures forall i :: i in m.chain(d) ==> m.owner(Block(d, i)) != App
    ensures m.desc(d).anchor.state == Empty ==> forall i :: m.owner(Block(d, i)) != App
  {
    assert SharedAt(c, m, d);
    if m.desc(d).anchor.state == Empty { AllChained(c, m, d); }
  }

  lemma TakeKeepsApp(c: Config, m: Mem, t: int, th: Thread, sc: int, pc: FillPc, spurious: bool)
    requires SharedInv(c, m) && ThreadInv(c, m, t, th) && th.pc == Fill(sc, pc) && pc.TakeCas?
    ensures AppKept(m, FillStep(c, m, t, th, sc, pc, spurious).m)
  {
    assert m.place(pc.d) == HeldUsed(t) && (pc.cur.state == Empty ==> m.desc(pc.d).anchor.state == Empty) by {
      assert ThreadAt(c, m, t, th, sc);
    }
    ChainNotApp(c, m, pc.d);
    if pc.cur.state == Empty {
      RetireKeepsApp(m, t, pc.d);
    } else {
      SetKeepsApp(m.owner, pc.d, m.chain(pc.d), Cached(t, sc));
    }
  }

  lemma NewKeepsApp(c: Config, m: Mem, t: int, th: Thread, sc: int, d: int, i: int)
    requires SharedInv(c, m) && ThreadInv(c, m, t, th) && th.pc == Fill(sc, NewLink(d, i))
    ensures AppKept(m, StepNewLink(c, m, t, th, sc, d, i).m)
  {
    assert m.place(d) == HeldFree(t) by { assert ThreadAt(c, m, t, th, sc); }
    UnusedOutside(c, m);
    SetKeepsApp(m.owner, d, Iota(0, c.maxcount(sc)), Cached(t, sc));
  }

  lemma FillKeepsApp(c: Config, m: Mem, t: int, th: Thread, sc: int, pc: FillPc, spurious: bool)
    requires SharedInv(c, m) && ThreadInv(c, m, t, th) && th.pc == Fill(sc, pc)
    ensures AppKept(m, FillStep(c, m, t, th, sc, pc, spurious).m)
  {
    if pc.TakeCas? {
      TakeKeepsApp(c, m, t, th, sc, pc, spurious);
    } else if pc.NewLink? {
      NewKeepsApp(c, m, t, th, sc, pc.d, pc.i);
    }
  }

  lemma PickKeepsApp(c: Config, m: Mem, t: int, th: Thread, sc: int, f: FlushFor)
    requires ThreadInv(c, m, t, th) && th.pc == Flush(sc, f, FlPick)
    ensures AppKept(m, StepFlPick(m, t, th, sc, f).m)
  {
    var bin := th.bins(sc);
    assert ThreadAt(c, m, t, th, sc);
    if bin.num > 0 {
      PickRun(c, m, t, sc, bin);
      SetKeepsApp(m.owner, bin.head.b.sb, Run(m.link, bin.head.b, bin.num), InHand(t));
    }
  }

  lemma SpliceKeepsApp(c: Config, m: Mem, t: int, th: Thread, sc: int, f: FlushFor, pc: FlushPc, spurious: bool)
    requires SharedInv(c, m) && ThreadInv(c, m, t, th) && th.pc == Flush(sc, f, pc) && pc.FlCas?
    ensures AppKept(m, FlushStep(m, t, th, sc, f, pc, spurious).m)
  {
    assert ThreadAt(c, m, t, th, sc);
    SetKeepsApp(m.owner, pc.d, pc.blks, Chained);
    if m.desc(pc.d).anchor == pc.cur && !spurious && pc.cur.state == Full && pc.upd.state == Empty {
      SpliceRetireShared(c, m, t, pc.d, pc.blks);
      RetireKeepsApp(Splice(m, pc.d, pc.blks, pc.upd, HeldUsed(t)), t, pc.d);
    }
  }

  lemma FlushKeepsApp(c: Config, m: Mem, t: int, th: Thread, sc: int, f: FlushFor, pc: FlushPc, spurious: bool)
    requires SharedInv(c, m) && ThreadInv(c, m, t, th) && th.pc == Flush(sc, f, pc)
    ensures AppKept(m, FlushStep(m, t, th, sc, f, pc, spurious).m)
  {
    assert ThreadAt(c, m, t, th, sc);
    match pc
    case FlPick => PickKeepsApp(c, m, t, th, sc, f);
    case FlCas(_, _, _, _) => SpliceKeepsApp(c, m, t, th, sc, f, pc, spurious);
    case _ =>
  }

  /** The block a malloc about to return takes from its cache. */
  ghost predicate Returns(s: State, a: Action, b: Block) {
    && a.Continue? && s.th(a.t).pc.MallocPop?
    && s.th(a.t).bins(s.th(a.t).pc.sc).head == At(b)
  }

  lemma ContinueApp(c: Config, m: Mem, t: int, th: Thread, spurious: bool)
    requires SharedInv(c, m) && ThreadInv(c, m, t, th)
    ensures forall b :: ThreadStep(c, m, t, th, spurious).m.owner(b) == App <==>
              m.owner(b) == App || (th.pc.MallocPop? && th.bins(th.pc.sc).head == At(b))
  {
    match th.pc
    case Fill(sc, pc) => FillKeepsApp(c, m, t, th, sc, pc, spurious);
    case Flush(sc, f, pc) => FlushKeepsApp(c, m, t, th, sc, f, pc, spurious);
    case MallocPop(sc) => assert ThreadAt(c, m, t, th, sc);
    case Org(_, _, _, _) =>
    case Large(_, _) =>
    case _ =>
  }

  /** The application gains exactly what malloc returns and loses exactly what it frees. */
  lemma AppChange(s: State, a: Action)
    requires Inv(s) && Allowed(s, a)
    ensures forall b :: Apply(s, a).m.owner(b) == App <==>
              Returns(s, a, b) || (s.m.owner(b) == App && !(a.Free? && a.b == b))
  {
    assert ThreadInv(s.cfg, s.m, a.t, s.th(a.t));
    if a.Continue? {
      ContinueApp(s.cfg, s.m, a.t, s.th(a.t), a.spurious);
    } else if a.Free? {
      assert s.m.desc(a.b.sb).heap.HeapOf? by { OwnedIsBlock(s, a.b); assert SharedAt(s.cfg, s.m, a.b.sb); }
    }
  }

  /** Owning a block means: malloc returned it, or it was held before, and it has not been freed since. */
  lemma {:induction false} LiveIsApp(s: State, had: iset<Block>, acts: seq<Action>, b: Block)
    requires Begins(s, had) && Legal(s, acts)
    ensures b in Live(s, had, acts) <==> StateAfter(s, acts).m.owner(b) == App
    decreases |acts|
  {
    if acts == [] {
      assert b in had <==> Has(s, TheApp, b);
    } else {
      var k := |acts| - 1;
      LegalPrefix(s, acts);
      LiveIsApp(s, had, acts[..k], b);
      RunKeepsInv(s, acts[..k]);
      AppChange(StateAfter(s, acts[..k]), acts[k]);
    }
  }

  /** What malloc returns: a block of the class asked for, which the application does not hold yet. */
  lemma MallocReturnsFresh(s: State, had: iset<Block>, acts: seq<Action>, a: Action, b: Block)
    requires Begins(s, had) && Legal(s, acts) && Returns(StateAfter(s, acts), a, b)
    ensures b !in Live(s, had, acts) && b in Live(s, had, acts + [a])
    ensures var p := StateAfter(s, acts); IsBlock(p, b) && p.m.desc(b.sb).heap == HeapOf(p.th(a.t).pc.sc)
  {
    var p := StateAfter(s, acts);
    RunKeepsInv(s, acts);
    LiveIsApp(s, had, acts, b);
    assert (acts + [a])[..|acts|] == acts;
    assert ThreadInv(p.cfg, p.m, a.t, p.th(a.t));
    assert ThreadAt(p.cfg, p.m, a.t, p.th(a.t), p.th(a.t).pc.sc);
    assert b in p.th(a.t).bins(p.th(a.t).pc.sc).blocks;
    OwnedIsBlock(p, b);
  }

  /** In every state of every run each block of each small superblock in use has exactly one holder:
      the application (it was returned and not freed), one thread's cache, one thread's chain in
      flight, a free in progress, or the free chain of its superblock. */
  lemma ExactlyOneHolder(s: State, had: iset<Block>, acts: seq<Action>, b: Block)
    requires Begins(s, had) && Legal(s, acts)
    ensures var p := StateAfter(s, acts);
            && (IsBlock(p, b) <==> exists w :: Has(p, w, b))
            && (forall w, w' :: Has(p, w, b) && Has(p, w', b) ==> w == w')
            && (Has(p, TheApp, b) <==> b in Live(s, had, acts))
  {
    var p := StateAfter(s, acts);
    RunKeepsInv(s, acts);
    LiveIsApp(s, had, acts, b);
    SomeHolder(p, b);
    forall w, w' | Has(p, w, b) && Has(p, w', b) ensures w == w' { NoTwoHolders(p, w, w', b); }
  }

  // ---------- the flush splice ----------

  /** When the anchor CAS of flush_cache succeeds, then, although the anchor has no tag, the chain
      from the new avail visits the returned blocks and then the old chain: distinct blocks,
      as many as the new anchor stands for. */
  lemma SpliceIsExact(s: State, t: int, sc: int, f: FlushFor, d: int, blks: seq<int>, cur: Anchor, upd: Anchor)
    requires Inv(s) && s.th(t).pc == Flush(sc, f, FlCas(d, blks, cur, upd)) && s.m.desc(d).anchor == cur
    ensures FreeCount(upd) == FreeCount(cur) + |blks|
    ensures var w := Walk(s.m.link, At(Block(d, upd.avail)), FreeCount(upd));
            && |w| == FreeCount(upd) && NoDup(w)
            && w == HandBlocks(s, t) + ChainBlocks(s, d)
            && forall b :: b in w ==> b.sb == d && IsBlock(s, b)
  {
    var m, th := s.m, s.th(t);
    assert ThreadInv(s.cfg, m, t, th);
    HandFacts(s, t, sc, f, d, blks, cur, upd);
    InHandUsed(s, t);
    SpliceFacts(s.cfg, m, t, d, blks);
    SpliceWalk(m.link, d, blks, m.chain(d));
    SpliceBlocks(s, t, d, blks);
  }

  /** Walking two chains joined by one link. */
  lemma SpliceWalk(link: Block -> Link, d: int, blks: seq<int>, chain: seq<int>)
    requires blks != [] && LinkedIn(link, d, blks) && LinkedIn(link, d, chain) && NoDup(blks + chain)
    requires chain != [] ==> link(Block(d, blks[|blks| - 1])) == At(Block(d, chain[0]))
    ensures var w := Walk(link, At(Block(d, blks[0])), |blks| + |chain|);
            && w == BlocksOf(d, blks + chain) && NoDup(w)
            && Walk(link, At(Block(d, blks[0])), |blks|) == BlocksOf(d, blks)
            && (chain != [] ==> Walk(link, At(Block(d, chain[0])), |chain|) == BlocksOf(d, chain))
            && w == BlocksOf(d, blks) + BlocksOf(d, chain)
  {
    var q := blks + chain;
    SpliceLinks(link, d, blks, chain);
    WalkIn(link, d, q);
    WalkIn(link, d, blks);
    if chain != [] { WalkIn(link, d, chain); }
    SpliceOf(d, blks, chain);
  }

  lemma SpliceOf(d: int, blks: seq<int>, chain: seq<int>)
    requires NoDup(blks + chain)
    ensures BlocksOf(d, blks + chain) == BlocksOf(d, blks) + BlocksOf(d, chain) && NoDup(BlocksOf(d, blks + chain))
  {
    var q := blks + chain;
    forall i, j | 0 <= i < j < |q| ensures BlocksOf(d, q)[i] != BlocksOf(d, q)[j] { assert q[i] != q[j]; }
  }

  /** What the flusher knows about the blocks in its hand. */
  lemma HandFacts(s: State, t: int, sc: int, f: FlushFor, d: int, blks: seq<int>, cur: Anchor, upd: Anchor)
    requires ThreadInv(s.cfg, s.m, t, s.th(t)) && s.th(t).pc == Flush(sc, f, FlCas(d, blks, cur, upd))
    ensures blks != [] && NoDup(blks) && LinkedIn(s.m.link, d, blks)
    ensures forall i :: i in blks ==> s.m.owner(Block(d, i)) == InHand(t)
    ensures s.m.link(Block(d, blks[|blks| - 1])) == At(Block(d, cur.avail))
    ensures upd == Flushed(cur, blks[0], |blks|, s.m.desc(d).maxcount)
  {
    assert ThreadAt(s.cfg, s.m, t, s.th(t), 0);
  }

  /** What the unchanged anchor says about the chain it joins. */
  lemma SpliceFacts(c: Config, m: Mem, t: int, d: int, blks: seq<int>)
    requires SharedInv(c, m) && InUse(m.place(d)) && blks != [] && NoDup(blks)
    requires forall i :: i in blks ==> m.owner(Block(d, i)) == InHand(t)
    ensures var cur := m.desc(d).anchor;
            && LinkedIn(m.link, d, m.chain(d)) && NoDup(blks + m.chain(d))
            && FreeCount(cur) == |m.chain(d)| && (m.chain(d) != [] ==> cur.avail == m.chain(d)[0])
            && FreeCount(Flushed(cur, blks[0], |blks|, m.desc(d).maxcount)) == FreeCount(cur) + |blks|
  {
    assert SharedAt(c, m, d);
    SpliceRoom(c, m, t, d, blks);
  }

  lemma InHandUsed(s: State, t: int)
    requires SharedInv(s.cfg, s.m) && ThreadInv(s.cfg, s.m, t, s.th(t))
    ensures var h := HoldOf(s.th(t).pc); h.blks != [] ==> InUse(s.m.place(h.sb))
  {
    assert ThreadAt(s.cfg, s.m, t, s.th(t), 0);
    var h := HoldOf(s.th(t).pc);
    if h.blks != [] {
      var i := h.blks[0];
      assert i in h.blks;
      OwnedIsBlock(s, Block(h.sb, i));
    }
  }

  lemma SpliceBlocks(s: State, t: int, d: int, blks: seq<int>)
    requires SharedInv(s.cfg, s.m) && InUse(s.m.place(d))
    requires forall i :: i in blks ==> s.m.owner(Block(d, i)) == InHand(t)
    ensures forall b :: b in BlocksOf(d, blks + s.m.chain(d)) ==> b.sb == d && IsBlock(s, b)
  {
    assert SharedAt(s.cfg, s.m, d);
    forall b | b in BlocksOf(d, blks + s.m.chain(d)) ensures b.sb == d && IsBlock(s, b) {
      InBlocksOf(d, blks + s.m.chain(d), b);
      assert b == Block(d, b.idx);
      OwnedIsBlock(s, b);
    }
  }
}
