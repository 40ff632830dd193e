/** The steps of free keep the invariant: returning cached blocks to their superblocks,
    listing partial superblocks, and retiring empty ones.
*/
module AllocatorFree {
  import opened AllocatorState
  import opened AllocatorSteps
  import opened AllocatorInvariant
  import opened AllocatorFrames
  import opened AllocatorTransfers
  import opened AllocatorFill

  // ---------- organize_sb_list and small_sb_retire ----------

  ghost predicate OrgQuiet(m: Mem, pc: OrgPc, spurious: bool) {
    pc.OrgLoad? || (pc.OrgCas? && (m.availSb.head != pc.seen || spurious))
  }

  lemma OrgQuietMoves(c: Config, m: Mem, th: Thread, lo: int, n: int, k: After, pc: OrgPc, spurious: bool)
    requires LocalInv(c, m, th) && th.pc == Org(lo, n, k, pc) && OrgQuiet(m, pc, spurious)
    ensures OnlyMoves(c, m, th, OrgStep(m, th, lo, n, k, pc, spurious))
  {
  }

  lemma OrgWriteMoved(m: Mem, t: int, th: Thread, lo: int, n: int, k: After, pc: OrgPc)
    requires n >= 1 && (pc.OrgInit? ==> 0 <= pc.i < n) && (pc.OrgInit? || pc.OrgLink?)
    requires forall d :: lo <= d < lo + n ==> m.place(d) == HeldFree(t)
    ensures var o := OrgStep(m, th, lo, n, k, pc, false);
            && DescsMoved(m, o.m, t)
            && (forall d :: !(lo <= d < lo + n) ==> o.m.desc(d) == m.desc(d))
  {
  }

  lemma OrgWriteLocal(c: Config, m: Mem, th: Thread, lo: int, n: int, k: After, pc: OrgPc)
    requires LocalInv(c, m, th) && th.pc == Org(lo, n, k, pc) && (pc.OrgInit? || pc.OrgLink?)
    requires k.Flushing? && k.f.ForFree? ==> !(lo <= k.f.b.sb < lo + n)
    ensures var o := OrgStep(m, th, lo, n, k, pc, false);
            LocalInv(c, o.m, o.th) && HoldOf(o.th.pc) == HoldOf(th.pc) && o.th.bins == th.bins
  {
  }

  lemma OrgWriteThread(c: Config, m: Mem, t: int, th: Thread, lo: int, n: int, k: After, pc: OrgPc)
    requires ThreadInv(c, m, t, th) && th.pc == Org(lo, n, k, pc) && (pc.OrgInit? || pc.OrgLink?)
    requires forall b: Block :: m.owner(b) != Unused ==> InUse(m.place(b.sb))
    ensures var o := OrgStep(m, th, lo, n, k, pc, false);
            ThreadInv(c, o.m, t, o.th) && DescsMoved(m, o.m, t)
  {
    Threads(c, m, t, th);
    var o := OrgStep(m, th, lo, n, k, pc, false);
    OrgWriteMoved(m, t, th, lo, n, k, pc);
    OrgWriteLocal(c, m, th, lo, n, k, pc);
    BinsFrame(c, m, o.m, t, th.bins);
    MakeThread(c, o.m, t, o.th);
  }

  lemma OrgWriteGood(c: Config, m: Mem, t: int, th: Thread, lo: int, n: int, k: After, pc: OrgPc)
    requires SharedInv(c, m) && ThreadInv(c, m, t, th)
    requires th.pc == Org(lo, n, k, pc) && (pc.OrgInit? || pc.OrgLink?)
    ensures Good(c, m, t, OrgStep(m, th, lo, n, k, pc, false))
  {
    Threads(c, m, t, th);
    UnusedOutside(c, m);
    OrgWriteThread(c, m, t, th, lo, n, k, pc);
    DescsMove(c, m, OrgStep(m, th, lo, n, k, pc, false).m, t);
  }

  /** A run of held descriptors changes place; none of it was or becomes part of a large allocation. */
  lemma RangePlace(c: Config, m: Mem, m': Mem, t: int, lo: int, n: int, p: Place)
    requires SharedInv(c, m) && n >= 1
    requires m' == m.(place := SetRange(m.place, lo, n, p), availSb := m'.availSb)
    requires forall d :: lo <= d < lo + n ==> m.place(d) == HeldFree(t)
    requires p == Avail
    ensures PlacesMoved(m, m', t)
  {
    Shared(c, m);
    BigFrame(m, m');
    forall e ensures m'.place(e) == Unborn <==> e < 0 || m'.frontier <= e { assert SbInv(c, m, e); }
    forall e ensures PlaceMoved(m, m', t, e) {}
  }

  lemma OrgCasShared(c: Config, m: Mem, t: int, th: Thread, lo: int, n: int, seen: Head, k: After)
    requires SharedInv(c, m) && n >= 1 && OrgChain(m, lo, n) && m.desc(lo + n - 1).nextFree == seen.ptr
    requires forall d :: lo <= d < lo + n ==> m.place(d) == HeldFree(t)
    requires m.availSb.head == seen
    ensures var m' := StepOrgCas(m, th, lo, n, seen, k, false).m;
            SharedInv(c, m') && forall u :: u != t ==> Rely(m, m', u)
  {
    assert SharedAt(c, m, 0);
    var m' := StepOrgCas(m, th, lo, n, seen, k, false).m;
    PushAvailStacks(m, m', t, lo, n);
    RangePlace(c, m, m', t, lo, n, Avail);
    PlacesMove(c, m, m', t);
  }

  lemma OrgHold(m: Mem, m': Mem, t: int, lo: int, n: int, extra: Ptr, f: FlushFor)
    requires HoldInv(m, t, Hold(Null, lo, n, extra, 0, [], f)) && (extra.To? ==> !(lo <= extra.d < lo + n))
    requires m'.owner == m.owner && m'.place == SetRange(m.place, lo, n, Avail)
    ensures HoldInv(m', t, Hold(Null, 0, 0, extra, 0, [], f))
  {
  }

  lemma ResumeLocal(c: Config, m: Mem, m': Mem, th: Thread, k: After, lo: int, n: int)
    requires AfterInv(c, m, th, k, lo, n) && m'.desc == m.desc
    ensures LocalInv(c, m', th.(pc := Resume(k)))
    ensures HoldOf(Resume(k)) ==
            Hold(Null, 0, 0, if k.Build? then To(k.d) else Null, 0, [], if k.Flushing? then k.f else ForExit)
  {
  }

  lemma OrgCasThread(c: Config, m: Mem, t: int, th: Thread, lo: int, n: int, seen: Head, k: After)
    requires ThreadInv(c, m, t, th) && th.pc == Org(lo, n, k, OrgCas(seen)) && m.availSb.head == seen
    ensures var o := StepOrgCas(m, th, lo, n, seen, k, false); ThreadInv(c, o.m, t, o.th)
    ensures forall d :: lo <= d < lo + n ==> m.place(d) == HeldFree(t)
    ensures n >= 1 && OrgChain(m, lo, n) && m.desc(lo + n - 1).nextFree == seen.ptr
  {
    var o := StepOrgCas(m, th, lo, n, seen, k, false);
    Threads(c, m, t, th);
    BinsFrame(c, m, o.m, t, th.bins);
    OrgHold(m, o.m, t, lo, n, if k.Build? then To(k.d) else Null, if k.Flushing? then k.f else ForExit);
    ResumeLocal(c, m, o.m, th, k, lo, n);
    MakeThread(c, o.m, t, o.th);
  }

  lemma OrgCasGood(c: Config, m: Mem, t: int, th: Thread, lo: int, n: int, seen: Head, k: After)
    requires SharedInv(c, m) && ThreadInv(c, m, t, th) && th.pc == Org(lo, n, k, OrgCas(seen)) && m.availSb.head == seen
    ensures Good(c, m, t, StepOrgCas(m, th, lo, n, seen, k, false))
  {
    Threads(c, m, t, th);
    OrgCasThread(c, m, t, th, lo, n, seen, k);
    OrgCasShared(c, m, t, th, lo, n, seen, k);
  }

  // ---------- flush_cache ----------

  ghost predicate FlushQuiet(m: Mem, bin: Bin, pc: FlushPc, spurious: bool) {
    match pc
    case FlPick => bin.num == 0
    case FlLoad(_, _) => true
    case FlCas(d, _, cur, _) => m.desc(d).anchor != cur || spurious
    case PpLoad(_) => true
    case PpCas(hs, _, seen) => m.partialList(hs).head != seen || spurious
    case _ => false
  }

  lemma AnchorRange(c: Config, m: Mem, d: int)
    requires SharedInv(c, m) && InUse(m.place(d))
    ensures var a, mx := m.desc(d).anchor, m.desc(d).maxcount;
            0 <= a.count < mx && (a.state == Full || 0 <= a.avail < mx)
  {
    assert SharedAt(c, m, d);
    var q := m.chain(d);
    if q != [] {
      var i := q[0];
      assert i in q && m.owner(Block(d, i)) == Chained;
    }
  }

  /** What the loads of a flusher find: an anchor that stands for less than the whole superblock, and
      a partial list whose first element is not the descriptor in hand. */
  ghost predicate FlushReads(m: Mem, sc: int, pc: FlushPc) {
    match pc
    case FlLoad(d, _) => 0 <= m.desc(d).anchor.count < m.desc(d).maxcount
    case FlCas(d, _, _, _) => 0 <= m.desc(d).anchor.count < m.desc(d).maxcount
    case PpLoad(d) => m.partialList(sc).head.ptr != To(d)
    case PpCas(_, d, _) => m.partialList(sc).head.ptr != To(d)
    case _ => true
  }

  lemma FlushReadsOk(c: Config, m: Mem, t: int, th: Thread, sc: int, f: FlushFor, pc: FlushPc)
    requires SharedInv(c, m) && ThreadInv(c, m, t, th) && th.pc == Flush(sc, f, pc)
    ensures FlushReads(m, sc, pc)
  {
    assert HoldInv(m, t, HoldOf(th.pc)) && LocalInv(c, m, th) by { assert ThreadAt(c, m, t, th, 0); }
    if pc.FlLoad? || pc.FlCas? {
      assert InUse(m.place(pc.d)) by { SpliceUsed(c, m, t, pc.d, pc.blks); }
      AnchorRange(c, m, pc.d);
    } else if pc.PpLoad? || pc.PpCas? {
      assert m.place(pc.d) == HeldUsed(t);
      assert StacksInv(m) by { assert SharedAt(c, m, 0); }
      assert ListInv(m.partialList(sc), PartialNext(m.desc)) && Exactly(m.partialList(sc).lst, m.place, Listed(sc));
    }
  }

  lemma FlushQuietMoves(c: Config, m: Mem, t: int, th: Thread, sc: int, f: FlushFor, pc: FlushPc, spurious: bool)
    requires GoodConfig(c) && LocalInv(c, m, th) && th.pc == Flush(sc, f, pc)
             && FlushQuiet(m, th.bins(sc), pc, spurious)
    requires FlushReads(m, sc, pc)
    ensures OnlyMoves(c, m, th, FlushStep(m, t, th, sc, f, pc, spurious))
  {
  }

  /** Following the links of a cache finds its leading blocks of one superblock. */
  lemma {:induction false} RunIsPrefix(link: Block -> Link, bs: seq<Block>)
    requires bs != [] && Linked(link, bs)
    ensures var r := Run(link, bs[0], |bs|);
            && |r| <= |bs| && (forall i :: 0 <= i < |r| ==> bs[i] == Block(bs[0].sb, r[i]))
            && (|r| < |bs| ==> bs[|r|].sb != bs[0].sb)
    decreases |bs|
  {
    var b := bs[0];
    if |bs| > 1 {
      assert link(bs[0]) == At(bs[1]);
      if bs[1].sb == b.sb {
        var rest := bs[1..];
        assert Linked(link, rest) by {
          forall i, j | 0 <= i && j == i + 1 && j < |rest| ensures link(rest[i]) == At(rest[j]) {
            assert rest[i] == bs[i + 1] && rest[j] == bs[j + 1];
          }
        }
        RunIsPrefix(link, rest);
        var r := Run(link, b, |bs|);
        assert r == [b.idx] + Run(link, bs[1], |bs| - 1);
        forall i | 0 <= i < |r| ensures bs[i] == Block(b.sb, r[i]) {
          if i > 0 { assert rest[i - 1] == Block(rest[0].sb, r[i]); }
        }
      }
    }
  }

  /** What FlPick takes out of the cache is linked, distinct and in one superblock. */
  lemma PickRun(c: Config, m: Mem, t: int, sc: int, bin: Bin)
    requires BinInv(c, m, t, sc, bin) && bin.num > 0
    ensures bin.head.At?
    ensures var r, d := Run(m.link, bin.head.b, bin.num), bin.head.b.sb;
            && |r| <= bin.num && InHandInv(m, sc, d, r)
            && (forall i :: i in r ==> m.owner(Block(d, i)) == Cached(t, sc))
  {
    RunIsPrefix(m.link, bin.blocks);
    var r, d := Run(m.link, bin.head.b, bin.num), bin.head.b.sb;
    forall i, j | 0 <= i < j < |r| ensures r[i] != r[j] { assert bin.blocks[i] != bin.blocks[j]; }
    forall i, j | 0 <= i && j == i + 1 && j < |r| ensures m.link(Block(d, r[i])) == At(Block(d, r[j])) {
      assert m.link(bin.blocks[i]) == At(bin.blocks[j]);
    }
    forall i | i in r ensures m.owner(Block(d, i)) == Cached(t, sc) {
      var k :| 0 <= k < |r| && r[k] == i;
      var b := bin.blocks[k];
      assert b in bin.blocks;
    }
    var b := bin.blocks[0];
    assert b in bin.blocks;
  }

  lemma SplitDisjoint(q: seq<Block>, n: int)
    requires NoDup(q) && 0 <= n <= |q|
    ensures forall b :: b in q[n..] <==> b in q && b !in q[..n]
  {
    assert q == q[..n] + q[n..];
    forall b | b in q[n..] ensures b !in q[..n] {
      var i :| 0 <= i < |q[n..]| && q[n..][i] == b;
      assert q[n + i] == b;
    }
  }

  lemma PrefixBlocks(q: seq<Block>, d: int, r: seq<int>)
    requires |r| <= |q| && forall i :: 0 <= i < |r| ==> q[i] == Block(d, r[i])
    ensures forall b :: b in q[..|r|] <==> b.sb == d && b.idx in r
  {
    forall b ensures b in q[..|r|] <==> b.sb == d && b.idx in r {
      if b.sb == d && b.idx in r { var k :| 0 <= k < |r| && r[k] == b.idx; assert q[..|r|][k] == b; }
    }
  }

  /** What is left of a linked sequence of distinct blocks is linked, too. */
  lemma LinkedRest(link: Block -> Link, q: seq<Block>, n: int)
    requires NoDup(q) && Linked(link, q) && 0 < n <= |q|
    ensures NoDup(q[n..]) && Linked(link, q[n..])
    ensures n < |q| ==> link(q[n - 1]) == At(q[n])
  {
    var r := q[n..];
    forall i, j | 0 <= i < j < |r| ensures r[i] != r[j] { assert r[i] == q[n + i] && r[j] == q[n + j]; }
    forall i, j | 0 <= i && j == i + 1 && j < |r| ensures link(r[i]) == At(r[j]) {
      var a, b := n + i, n + j;
      assert link(q[a]) == At(q[b]);
    }
    var a, b := n - 1, n;
    assert n < |q| ==> link(q[a]) == At(q[b]);
  }

  lemma PickBin(c: Config, m: Mem, m': Mem, t: int, sc: int, bin: Bin)
    requires BinInv(c, m, t, sc, bin) && bin.num > 0 && bin.head.At?
    requires var r, d := Run(m.link, bin.head.b, bin.num), bin.head.b.sb;
             |r| <= bin.num && m' == m.(owner := SetBlocks(m.owner, d, r, InHand(t)))
    ensures var r, d := Run(m.link, bin.head.b, bin.num), bin.head.b.sb;
            BinInv(c, m', t, sc, Bin(m.link(Block(d, r[|r| - 1])), bin.num - |r|, bin.blocks[|r|..]))
  {
    RunIsPrefix(m.link, bin.blocks);
    var r, d := Run(m.link, bin.head.b, bin.num), bin.head.b.sb;
    var left := bin.blocks[|r|..];
    PrefixBlocks(bin.blocks, d, r);
    SplitDisjoint(bin.blocks, |r|);
    LinkedRest(m.link, bin.blocks, |r|);
    forall b ensures b in left <==> m'.owner(b) == Cached(t, sc) {
      assert b in bin.blocks <==> m.owner(b) == Cached(t, sc);
      assert b in bin.blocks[..|r|] <==> b.sb == d && b.idx in r;
    }
    forall b | b in left ensures m'.desc(b.sb).heap == HeapOf(sc) { assert b in bin.blocks; }
  }

  lemma PickHold(m: Mem, m': Mem, t: int, d: int, r: seq<int>, sc: int, f: FlushFor)
    requires HoldInv(m, t, Hold(Null, 0, 0, Null, 0, [], f)) && m' == m.(owner := SetBlocks(m.owner, d, r, InHand(t)))
    requires forall i :: i in r ==> m.owner(Block(d, i)) == Cached(t, sc)
    ensures HoldInv(m', t, Hold(Null, 0, 0, Null, d, r, f)) && BlocksMoved(m, m', t)
  {
    forall b: Block ensures m'.owner(b) == m.owner(b) || (b.sb == d && b.idx in r && m.owner(b) == Cached(t, sc)) {
      assert b.sb == d ==> b == Block(d, b.idx);
    }
  }

  lemma PickThread(c: Config, m: Mem, t: int, th: Thread, sc: int, f: FlushFor)
    requires ThreadInv(c, m, t, th) && th.pc == Flush(sc, f, FlPick) && th.bins(sc).num > 0
    ensures var o := StepFlPick(m, t, th, sc, f); ThreadInv(c, o.m, t, o.th) && BlocksMoved(m, o.m, t)
  {
    var bin := th.bins(sc);
    assert BinInv(c, m, t, sc, bin) by { assert ThreadAt(c, m, t, th, sc); }
    PickRun(c, m, t, sc, bin);
    var o, r, d := StepFlPick(m, t, th, sc, f), Run(m.link, bin.head.b, bin.num), bin.head.b.sb;
    PickedThread(c, m, o.m, t, th, o.th, sc, f, d, r);
  }

  lemma PickedBins(c: Config, m: Mem, m': Mem, t: int, th: Thread, th': Thread, sc: int, f: FlushFor, d: int,
                   r: seq<int>)
    requires (forall x :: BinInv(c, m, t, x, th.bins(x))) && th.bins(sc).num > 0 && th.bins(sc).head.At?
    requires d == th.bins(sc).head.b.sb && r == Run(m.link, th.bins(sc).head.b, th.bins(sc).num)
             && |r| <= th.bins(sc).num
    requires InHandInv(m, sc, d, r) && forall i :: i in r ==> m.owner(Block(d, i)) == Cached(t, sc)
    requires m' == m.(owner := SetBlocks(m.owner, d, r, InHand(t)))
    requires th'.pc == Flush(sc, f, FlLoad(d, r)) && th'.bins == Upd(th.bins, sc,
               Bin(m.link(Block(d, r[|r| - 1])), th.bins(sc).num - |r|, Drop(th.bins(sc).blocks, |r|)))
    ensures forall x :: BinInv(c, m', t, x, th'.bins(x))
  {
    assert BinInv(c, m, t, sc, th.bins(sc));
    PickBin(c, m, m', t, sc, th.bins(sc));
    forall b: Block ensures m'.owner(b) == m.owner(b) || m.owner(b) == Cached(t, sc) {
      assert b.sb == d ==> b == Block(d, b.idx);
    }
    OtherBins(c, m, m', t, sc, th.bins);
  }

  lemma PickedThread(c: Config, m: Mem, m': Mem, t: int, th: Thread, th': Thread, sc: int, f: FlushFor, d: int,
                     r: seq<int>)
    requires ThreadInv(c, m, t, th) && th.pc == Flush(sc, f, FlPick) && th.bins(sc).num > 0 && th.bins(sc).head.At?
    requires d == th.bins(sc).head.b.sb && r == Run(m.link, th.bins(sc).head.b, th.bins(sc).num)
             && |r| <= th.bins(sc).num
    requires InHandInv(m, sc, d, r) && forall i :: i in r ==> m.owner(Block(d, i)) == Cached(t, sc)
    requires m' == m.(owner := SetBlocks(m.owner, d, r, InHand(t)))
    requires th'.pc == Flush(sc, f, FlLoad(d, r)) && th'.bins == Upd(th.bins, sc,
               Bin(m.link(Block(d, r[|r| - 1])), th.bins(sc).num - |r|, Drop(th.bins(sc).blocks, |r|)))
    ensures ThreadInv(c, m', t, th') && BlocksMoved(m, m', t)
  {
    assert HoldInv(m, t, Hold(Null, 0, 0, Null, 0, [], f)) && FlushClass(c, m, sc, f) by {
      assert ThreadAt(c, m, t, th, sc);
      assert HoldOf(th.pc) == Hold(Null, 0, 0, Null, 0, [], f);
    }
    forall x ensures BinInv(c, m, t, x, th.bins(x)) { assert ThreadAt(c, m, t, th, x); }
    PickedBins(c, m, m', t, th, th', sc, f, d, r);
    PickHold(m, m', t, d, r, sc, f);
    MakeThread(c, m', t, th');
  }

  lemma PickGood(c: Config, m: Mem, t: int, th: Thread, sc: int, f: FlushFor)
    requires SharedInv(c, m) && ThreadInv(c, m, t, th) && th.pc == Flush(sc, f, FlPick) && th.bins(sc).num > 0
    ensures Good(c, m, t, StepFlPick(m, t, th, sc, f))
  {
    Threads(c, m, t, th);
    PickThread(c, m, t, th, sc, f);
    BlocksMove(c, m, StepFlPick(m, t, th, sc, f).m, t);
  }

  lemma FlLinkThread(c: Config, m: Mem, t: int, th: Thread, sc: int, f: FlushFor, d: int, blks: seq<int>, cur: Anchor)
    requires ThreadInv(c, m, t, th) && th.pc == Flush(sc, f, FlLink(d, blks, cur))
    ensures var o := StepFlLink(m, th, sc, d, blks, cur, f); ThreadInv(c, o.m, t, o.th) && BlocksMoved(m, o.m, t)
  {
    Threads(c, m, t, th);
    var o := StepFlLink(m, th, sc, d, blks, cur, f);
    var last := blks[|blks| - 1];
    assert last in blks;
    assert m.owner(Block(d, last)) == InHand(t);
    BinsFrame(c, m, o.m, t, th.bins);
    MakeThread(c, o.m, t, o.th);
  }

  lemma FlLinkGood(c: Config, m: Mem, t: int, th: Thread, sc: int, f: FlushFor, d: int, blks: seq<int>, cur: Anchor)
    requires SharedInv(c, m) && ThreadInv(c, m, t, th) && th.pc == Flush(sc, f, FlLink(d, blks, cur))
    ensures Good(c, m, t, StepFlLink(m, th, sc, d, blks, cur, f))
  {
    Threads(c, m, t, th);
    FlLinkThread(c, m, t, th, sc, f, d, blks, cur);
    BlocksMove(c, m, StepFlLink(m, th, sc, d, blks, cur, f).m, t);
  }

  lemma SpliceUsed(c: Config, m: Mem, t: int, d: int, blks: seq<int>)
    requires SharedInv(c, m) && blks != [] && forall i :: i in blks ==> m.owner(Block(d, i)) == InHand(t)
    ensures SbInv(c, m, d) && InUse(m.place(d)) && (m.desc(d).anchor.state == Full ==> m.place(d) == Active)
  {
    assert SharedAt(c, m, d);
    var i := blks[0];
    assert i in blks;
  }

  /** After a successful anchor CAS the chain from the new avail holds the returned blocks in
      front of the old chain, even if the anchor left and came back to the value read before. */
  lemma SpliceShared(c: Config, m: Mem, t: int, d: int, blks: seq<int>, p: Place)
    requires SharedInv(c, m) && blks != [] && NoDup(blks) && LinkedIn(m.link, d, blks)
    requires forall i :: i in blks ==> m.owner(Block(d, i)) == InHand(t)
    requires m.link(Block(d, blks[|blks| - 1])) == At(Block(d, m.desc(d).anchor.avail))
    requires p == if m.desc(d).anchor.state == Full then HeldUsed(t) else m.place(d)
    ensures var m' := Splice(m, d, blks, Flushed(m.desc(d).anchor, blks[0], |blks|, m.desc(d).maxcount), p);
            && SharedInv(c, m') && (forall u :: u != t ==> Rely(m, m', u))
            && (m.desc(d).anchor.state == Full ==> m.place(d) == Active)
  {
    SpliceUsed(c, m, t, d, blks);
    SpliceSb(c, m, t, d, blks, p);
    OneSbMove(c, m, Splice(m, d, blks, Flushed(m.desc(d).anchor, blks[0], |blks|, m.desc(d).maxcount), p), d, t);
  }

  /** The blocks in hand become chained. */
  lemma SpliceHold(m: Mem, t: int, d: int, blks: seq<int>, upd: Anchor, f: FlushFor)
    requires HoldInv(m, t, Hold(Null, 0, 0, Null, d, blks, f))
    ensures HoldInv(Splice(m, d, blks, upd, m.place(d)), t, Hold(Null, 0, 0, Null, 0, [], f))
    ensures HoldInv(Splice(m, d, blks, upd, HeldUsed(t)), t, Hold(To(d), 0, 0, Null, 0, [], f))
  {
  }

  lemma SpliceBins(c: Config, m: Mem, t: int, th: Thread, d: int, blks: seq<int>, upd: Anchor, p: Place)
    requires forall sc :: BinInv(c, m, t, sc, th.bins(sc))
    requires forall i :: i in blks ==> m.owner(Block(d, i)) == InHand(t)
    ensures forall sc :: BinInv(c, Splice(m, d, blks, upd, p), t, sc, th.bins(sc))
  {
    var m' := Splice(m, d, blks, upd, p);
    forall b: Block | b.sb == d && b.idx in blks ensures m.owner(b) == InHand(t) { assert b == Block(d, b.idx); }
    BinsFrame(c, m, m', t, th.bins);
  }

  lemma SpliceLocal(c: Config, m: Mem, t: int, th: Thread, sc: int, f: FlushFor, d: int, blks: seq<int>, cur: Anchor,
                    upd: Anchor)
    requires LocalInv(c, m, th) && th.pc == Flush(sc, f, FlCas(d, blks, cur, upd)) && m.desc(d).anchor == cur
    ensures var o := StepFlCas(m, t, th, sc, d, blks, cur, upd, f, false);
            LocalInv(c, o.m, o.th) && o.th.bins == th.bins
  {
  }

  lemma SpliceThread(c: Config, m: Mem, t: int, th: Thread, sc: int, f: FlushFor, d: int, blks: seq<int>,
                     cur: Anchor, upd: Anchor)
    requires ThreadInv(c, m, t, th) && th.pc == Flush(sc, f, FlCas(d, blks, cur, upd))
    requires m.desc(d).anchor == cur && !(cur.state == Full && upd.state == Empty)
    ensures var o := StepFlCas(m, t, th, sc, d, blks, cur, upd, f, false); ThreadInv(c, o.m, t, o.th)
  {
    var o := StepFlCas(m, t, th, sc, d, blks, cur, upd, f, false);
    Threads(c, m, t, th);
    assert HoldOf(th.pc) == Hold(Null, 0, 0, Null, d, blks, f);
    SpliceLocal(c, m, t, th, sc, f, d, blks, cur, upd);
    SpliceHold(m, t, d, blks, upd, f);
    SpliceBins(c, m, t, th, d, blks, upd, if cur.state == Full then HeldUsed(t) else m.place(d));
    MakeThread(c, o.m, t, o.th);
  }

  lemma SpliceGood(c: Config, m: Mem, t: int, th: Thread, sc: int, f: FlushFor, d: int, blks: seq<int>, cur: Anchor,
                   upd: Anchor)
    requires SharedInv(c, m) && ThreadInv(c, m, t, th) && th.pc == Flush(sc, f, FlCas(d, blks, cur, upd))
    requires m.desc(d).anchor == cur && !(cur.state == Full && upd.state == Empty)
    ensures Good(c, m, t, StepFlCas(m, t, th, sc, d, blks, cur, upd, f, false))
  {
    Threads(c, m, t, th);
    SpliceShared(c, m, t, d, blks, if cur.state == Full then HeldUsed(t) else m.place(d));
    SpliceThread(c, m, t, th, sc, f, d, blks, cur, upd);
  }

  // -- the flusher that returns every block of a full superblock retires it

  lemma OwnTrans(m: Mem, m1: Mem, m2: Mem, u: int)
    requires OwnRely(m, m1, u) && OwnRely(m1, m2, u)
    ensures OwnRely(m, m2, u)
  {
  }

  lemma RetireShared(c: Config, m: Mem, t: int, d: int)
    requires SharedInv(c, m) && m.place(d) == HeldUsed(t) && m.desc(d).anchor.state == Empty
    ensures SharedInv(c, Retire(m, t, d)) && (forall u :: u != t ==> Rely(m, Retire(m, t, d), u))
    ensures forall i :: m.owner(Block(d, i)) == Chained || m.owner(Block(d, i)) == Unused
  {
    assert SharedAt(c, m, d);
    RetireSb(c, m, t, d);
    AllChained(c, m, d);
    OneSbMove(c, m, Retire(m, t, d), d, t);
  }

  lemma SpliceRetireShared(c: Config, m: Mem, t: int, d: int, blks: seq<int>)
    requires SharedInv(c, m) && blks != [] && NoDup(blks) && LinkedIn(m.link, d, blks)
    requires forall i :: i in blks ==> m.owner(Block(d, i)) == InHand(t)
    requires m.link(Block(d, blks[|blks| - 1])) == At(Block(d, m.desc(d).anchor.avail))
    requires m.desc(d).anchor.state == Full
    requires Flushed(m.desc(d).anchor, blks[0], |blks|, m.desc(d).maxcount).state == Empty
    ensures var m1 := Splice(m, d, blks, Flushed(m.desc(d).anchor, blks[0], |blks|, m.desc(d).maxcount), HeldUsed(t));
            && SharedInv(c, Retire(m1, t, d)) && (forall u :: u != t ==> Rely(m, Retire(m1, t, d), u))
            && (forall i :: m1.owner(Block(d, i)) == Chained || m1.owner(Block(d, i)) == Unused)
  {
    var m1 := Splice(m, d, blks, Flushed(m.desc(d).anchor, blks[0], |blks|, m.desc(d).maxcount), HeldUsed(t));
    SpliceShared(c, m, t, d, blks, HeldUsed(t));
    RetireShared(c, m1, t, d);
    forall u | u != t ensures Rely(m, Retire(m1, t, d), u) {
      OwnTrans(m, m1, Retire(m1, t, d), u);
      SpliceRetireLists(m, m1, Retire(m1, t, d));
    }
  }

  lemma SpliceRetireLists(m: Mem, m1: Mem, m2: Mem)
    requires ListsRely(m, m1) && m2.partialList == m1.partialList && m2.availSb == m1.availSb && m2.desc == m1.desc
    ensures ListsRely(m, m2)
  {
    forall sc ensures ListRely(m.partialList(sc), m2.partialList(sc), PartialNext(m.desc), PartialNext(m2.desc)) {
      assert ListRely(m.partialList(sc), m1.partialList(sc), PartialNext(m.desc), PartialNext(m1.desc));
    }
  }

  lemma RetireHold(m: Mem, t: int, d: int, f: FlushFor)
    requires HoldInv(m, t, Hold(To(d), 0, 0, Null, 0, [], f))
    requires forall i :: m.owner(Block(d, i)) == Chained || m.owner(Block(d, i)) == Unused
    ensures HoldInv(Retire(m, t, d), t, Hold(Null, d, 1, Null, 0, [], f))
  {
    forall b: Block | b.sb == d ensures m.owner(b) == Chained || m.owner(b) == Unused { assert b == Block(d, b.idx); }
  }

  lemma RetireBins(c: Config, m: Mem, t: int, th: Thread, d: int)
    requires forall sc :: BinInv(c, m, t, sc, th.bins(sc))
    requires forall i :: m.owner(Block(d, i)) == Chained || m.owner(Block(d, i)) == Unused
    ensures forall sc :: BinInv(c, Retire(m, t, d), t, sc, th.bins(sc))
  {
    forall b: Block | b.sb == d ensures m.owner(b) == Chained || m.owner(b) == Unused { assert b == Block(d, b.idx); }
    BinsFrame(c, m, Retire(m, t, d), t, th.bins);
  }

  lemma SpliceRetireThread(c: Config, m: Mem, t: int, th: Thread, sc: int, f: FlushFor, d: int, blks: seq<int>,
                           cur: Anchor, upd: Anchor)
    requires ThreadInv(c, m, t, th) && th.pc == Flush(sc, f, FlCas(d, blks, cur, upd))
    requires m.desc(d).anchor == cur && cur.state == Full && upd.state == Empty
    requires var m1 := Splice(m, d, blks, upd, HeldUsed(t));
             forall i :: m1.owner(Block(d, i)) == Chained || m1.owner(Block(d, i)) == Unused
    ensures var o := StepFlCas(m, t, th, sc, d, blks, cur, upd, f, false); ThreadInv(c, o.m, t, o.th)
  {
    var o := StepFlCas(m, t, th, sc, d, blks, cur, upd, f, false);
    Threads(c, m, t, th);
    var m1 := Splice(m, d, blks, upd, HeldUsed(t));
    assert HoldOf(th.pc) == Hold(Null, 0, 0, Null, d, blks, f);
    SpliceLocal(c, m, t, th, sc, f, d, blks, cur, upd);
    SpliceHold(m, t, d, blks, upd, f);
    SpliceBins(c, m, t, th, d, blks, upd, HeldUsed(t));
    RetireHold(m1, t, d, f);
    RetireBins(c, m1, t, th, d);
    MakeThread(c, o.m, t, o.th);
  }

  lemma SpliceRetireGood(c: Config, m: Mem, t: int, th: Thread, sc: int, f: FlushFor, d: int, blks: seq<int>,
                         cur: Anchor, upd: Anchor)
    requires SharedInv(c, m) && ThreadInv(c, m, t, th) && th.pc == Flush(sc, f, FlCas(d, blks, cur, upd))
    requires m.desc(d).anchor == cur && cur.state == Full && upd.state == Empty
    ensures Good(c, m, t, StepFlCas(m, t, th, sc, d, blks, cur, upd, f, false))
  {
    Threads(c, m, t, th);
    SpliceRetireShared(c, m, t, d, blks);
    SpliceRetireThread(c, m, t, th, sc, f, d, blks, cur, upd);
  }

  // ---------- heap_push_partial ----------

  lemma PpLinkThread(c: Config, m: Mem, t: int, th: Thread, sc: int, f: FlushFor, hs: int, d: int, seen: Head)
    requires ThreadInv(c, m, t, th) && th.pc == Flush(sc, f, PpLink(hs, d, seen))
    ensures var o := StepPpLink(m, th, sc, hs, d, seen, f); ThreadInv(c, o.m, t, o.th) && DescsMoved(m, o.m, t)
  {
    Threads(c, m, t, th);
    var o := StepPpLink(m, th, sc, hs, d, seen, f);
    assert m.place(d) == HeldUsed(t);
    BinsFrame(c, m, o.m, t, th.bins);
    MakeThread(c, o.m, t, o.th);
  }

  lemma PpLinkGood(c: Config, m: Mem, t: int, th: Thread, sc: int, f: FlushFor, hs: int, d: int, seen: Head)
    requires SharedInv(c, m) && ThreadInv(c, m, t, th) && th.pc == Flush(sc, f, PpLink(hs, d, seen))
    ensures Good(c, m, t, StepPpLink(m, th, sc, hs, d, seen, f))
  {
    Threads(c, m, t, th);
    PpLinkThread(c, m, t, th, sc, f, hs, d, seen);
    DescsMove(c, m, StepPpLink(m, th, sc, hs, d, seen, f).m, t);
  }

  lemma PpCasShared(c: Config, m: Mem, t: int, th: Thread, sc: int, f: FlushFor, d: int, seen: Head)
    requires SharedInv(c, m) && m.place(d) == HeldUsed(t) && m.desc(d).heap == HeapOf(sc)
    requires m.desc(d).nextPartial == seen.ptr && m.partialList(sc).head == seen
    ensures var m' := StepPpCas(m, th, sc, sc, d, seen, f, false).m;
            SharedInv(c, m') && forall u :: u != t ==> Rely(m, m', u)
  {
    var m' := StepPpCas(m, th, sc, sc, d, seen, f, false).m;
    assert SharedAt(c, m, d);
    PushPartialStacks(m, m', t, sc, d);
    OnePlace(c, m, m', t, d, Listed(sc));
    PlacesMove(c, m, m', t);
  }

  lemma PpCasThread(c: Config, m: Mem, t: int, th: Thread, sc: int, f: FlushFor, hs: int, d: int, seen: Head)
    requires ThreadInv(c, m, t, th) && th.pc == Flush(sc, f, PpCas(hs, d, seen)) && m.partialList(hs).head == seen
    ensures var o := StepPpCas(m, th, sc, hs, d, seen, f, false); ThreadInv(c, o.m, t, o.th)
    ensures hs == sc && m.place(d) == HeldUsed(t) && m.desc(d).heap == HeapOf(sc) && m.desc(d).nextPartial == seen.ptr
  {
    var o := StepPpCas(m, th, sc, hs, d, seen, f, false);
    Threads(c, m, t, th);
    BinsFrame(c, m, StepPpCas(m, th, sc, hs, d, seen, f, false).m, t, th.bins);
    MakeThread(c, o.m, t, o.th);
  }

  lemma PpCasGood(c: Config, m: Mem, t: int, th: Thread, sc: int, f: FlushFor, hs: int, d: int, seen: Head)
    requires SharedInv(c, m) && ThreadInv(c, m, t, th) && th.pc == Flush(sc, f, PpCas(hs, d, seen))
    requires m.partialList(hs).head == seen
    ensures Good(c, m, t, StepPpCas(m, th, sc, hs, d, seen, f, false))
  {
    Threads(c, m, t, th);
    PpCasThread(c, m, t, th, sc, f, hs, d, seen);
    PpCasShared(c, m, t, th, sc, f, d, seen);
  }

  // ---------- do_free ----------

  lemma PushBin(c: Config, m: Mem, m': Mem, t: int, sc: int, bin: Bin, b: Block)
    requires BinInv(c, m, t, sc, bin) && m.owner(b) == Freeing(t) && m.desc(b.sb).heap == HeapOf(sc)
    requires SmallClass(c, sc) && bin.num < c.maxcount(sc)
    requires m' == m.(link := Upd(m.link, b, bin.head), owner := Upd(m.owner, b, Cached(t, sc)))
    ensures BinInv(c, m', t, sc, Bin(At(b), bin.num + 1, [b] + bin.blocks))
  {
    var q := [b] + bin.blocks;
    assert b !in bin.blocks;
    forall i, j | 0 <= i && j == i + 1 && j < |q| ensures m'.link(q[i]) == At(q[j]) {
      if i > 0 {
        var x := q[i];
        assert x in bin.blocks;
        assert m.link(bin.blocks[i - 1]) == At(bin.blocks[j - 1]);
      }
    }
  }

  lemma FreePushThread(c: Config, m: Mem, t: int, th: Thread, sc: int, b: Block)
    requires ThreadInv(c, m, t, th) && th.pc == Flush(sc, ForFree(b), FreePush)
    ensures var o := StepFreePush(m, t, th, sc, b); ThreadInv(c, o.m, t, o.th) && BlocksMoved(m, o.m, t)
  {
    Threads(c, m, t, th);
    var o := StepFreePush(m, t, th, sc, b);
    assert m.owner(b) == Freeing(t);
    assert BinInv(c, m, t, sc, th.bins(sc));
    PushBin(c, m, o.m, t, sc, th.bins(sc), b);
    OtherBins(c, m, o.m, t, sc, th.bins);
    MakeThread(c, o.m, t, o.th);
  }

  lemma FreePushGood(c: Config, m: Mem, t: int, th: Thread, sc: int, b: Block)
    requires SharedInv(c, m) && ThreadInv(c, m, t, th) && th.pc == Flush(sc, ForFree(b), FreePush)
    ensures Good(c, m, t, StepFreePush(m, t, th, sc, b))
  {
    Threads(c, m, t, th);
    FreePushThread(c, m, t, th, sc, b);
    BlocksMove(c, m, StepFreePush(m, t, th, sc, b).m, t);
  }

  lemma StartFreeThread(c: Config, m: Mem, t: int, th: Thread, b: Block)
    requires ThreadInv(c, m, t, th) && th.pc == Idle && m.owner(b) == App
    requires m.desc(b.sb).heap.HeapOf? && SmallClass(c, m.desc(b.sb).heap.sc)
    ensures var o := StartFree(c, m, t, th, b); ThreadInv(c, o.m, t, o.th) && BlocksMoved(m, o.m, t)
  {
    var o := StartFree(c, m, t, th, b);
    Threads(c, m, t, th);
    BinsFrame(c, m, StartFree(c, m, t, th, b).m, t, th.bins);
    MakeThread(c, o.m, t, o.th);
  }

  lemma StartFreeGood(c: Config, m: Mem, t: int, th: Thread, b: Block)
    requires SharedInv(c, m) && ThreadInv(c, m, t, th) && th.pc == Idle && m.owner(b) == App
    ensures Good(c, m, t, StartFree(c, m, t, th, b))
  {
    Threads(c, m, t, th);
    assert SharedAt(c, m, b.sb) && m.owner(Block(b.sb, b.idx)) != Unused;
    StartFreeThread(c, m, t, th, b);
    BlocksMove(c, m, StartFree(c, m, t, th, b).m, t);
  }

  /** The application may overwrite the first word of a block it holds. */
  lemma WriteGood(c: Config, m: Mem, t: int, th: Thread, b: Block, v: Link)
    requires SharedInv(c, m) && ThreadInv(c, m, t, th) && m.owner(b) == App
    ensures Good(c, m, t, Out(m.(link := Upd(m.link, b, v)), th))
  {
    BlocksMove(c, m, m.(link := Upd(m.link, b, v)), t);
    UnusedOutside(c, m);
    WriteThread(c, m, t, th, b, v);
  }

  lemma WriteThread(c: Config, m: Mem, t: int, th: Thread, b: Block, v: Link)
    requires ThreadInv(c, m, t, th) && m.owner(b) == App && InUse(m.place(b.sb))
    ensures ThreadInv(c, m.(link := Upd(m.link, b, v)), t, th)
  {
    var m' := m.(link := Upd(m.link, b, v));
    Threads(c, m, t, th);
    WriteLocal(c, m, m', t, th, b);
    BinsFrame(c, m, m', t, th.bins);
    MakeThread(c, m', t, th);
  }

  lemma WriteLocal(c: Config, m: Mem, m': Mem, t: int, th: Thread, b: Block)
    requires LocalInv(c, m, th) && HoldInv(m, t, HoldOf(th.pc)) && m.owner(b) == App && InUse(m.place(b.sb))
    requires m' == m.(link := m'.link) && forall x :: x != b ==> m'.link(x) == m.link(x)
    ensures LocalInv(c, m', th)
  {
    if th.pc.Flush? && (th.pc.fl.FlLoad? || th.pc.fl.FlLink? || th.pc.fl.FlCas?) {
      var d, blks := th.pc.fl.d, th.pc.fl.blks;
      forall i | 0 <= i < |blks| ensures Block(d, blks[i]) != b {
        var x := blks[i];
        assert m.owner(Block(d, x)) == InHand(t);
      }
    }
    if th.pc.Fill? && th.pc.fill.NewLink? { assert m.place(th.pc.fill.d) == HeldFree(t); }
  }
}
