/** Large allocations keep the invariant: they take fresh superblocks from the frontier and
    give them back to avail_sb.
*/
module AllocatorLarge {
  import opened AllocatorState
  import opened AllocatorSteps
  import opened AllocatorInvariant
  import opened AllocatorFrames
  import opened AllocatorTransfers
  import opened AllocatorFill
  import opened AllocatorFree

  lemma BigQuietMoves(c: Config, m: Mem, t: int, th: Thread, n: int, pc: BigPc)
    requires LocalInv(c, m, th) && th.pc == Large(n, pc) && (pc.BigLoad? || (pc.BigCas? && m.frontier != pc.fr))
    ensures OnlyMoves(c, m, th, BigStep(c, m, t, th, n, pc))
  {
  }

  lemma BigCasThread(c: Config, m: Mem, t: int, th: Thread, n: int, fr: int)
    requires ThreadInv(c, m, t, th) && th.pc == Large(n, BigCas(fr)) && m.frontier == fr
    requires forall d :: m.frontier <= d ==> m.place(d) == Unborn
    ensures var o := StepBigCas(m, t, th, n, fr); ThreadInv(c, o.m, t, o.th)
  {
    var o := StepBigCas(m, t, th, n, fr);
    Threads(c, m, t, th);
    BinsFrame(c, m, o.m, t, th.bins);
    MakeThread(c, o.m, t, o.th);
  }

  lemma BigCasGood(c: Config, m: Mem, t: int, th: Thread, n: int, fr: int)
    requires SharedInv(c, m) && ThreadInv(c, m, t, th) && th.pc == Large(n, BigCas(fr)) && m.frontier == fr
    ensures Good(c, m, t, StepBigCas(m, t, th, n, fr))
  {
    assert ThreadAt(c, m, t, th, 0);
    GrowShared(c, m, t, n);
    BigCasThread(c, m, t, th, n, fr);
  }

  // ---------- handing out the allocation ----------

  /** A new large allocation, made of superblocks in hand, touches no other. */
  lemma BigAdded(m: Mem, m': Mem, t: int, lo: int, n: int, e: int)
    requires BigInv(m, e) && BigDesc(m.desc(lo), n) && n >= 1
    requires m'.desc == m.desc && m'.place == SetRange(m.place, lo, n, Big(lo, n))
    requires forall d :: lo <= d < lo + n ==> m.place(d) == HeldFree(t)
    ensures BigInv(m', e)
  {
    if m'.place(e).Big? && !(lo <= e < lo + n) {
      var lo', n' := m.place(e).lo, m.place(e).n;
      forall x | lo' <= x < lo' + n' ensures m'.place(x) == Big(lo', n') {
        assert m.place(x) == Big(lo', n');
        assert lo <= x < lo + n ==> m.place(x) == HeldFree(t);
      }
    }
  }

  lemma BigInitPlaces(c: Config, m: Mem, m': Mem, t: int, lo: int, n: int)
    requires SharedInv(c, m) && n >= 1 && BigDesc(m.desc(lo), n)
    requires m' == m.(place := SetRange(m.place, lo, n, Big(lo, n)))
    requires forall d :: lo <= d < lo + n ==> m.place(d) == HeldFree(t)
    ensures SharedInv(c, m') && forall u :: u != t ==> Rely(m, m', u)
  {
    Shared(c, m);
    forall e ensures BigInv(m', e) { BigAdded(m, m', t, lo, n, e); }
    forall e ensures m'.place(e) == Unborn <==> e < 0 || m'.frontier <= e { assert SbInv(c, m, e); }
    forall e ensures PlaceMoved(m, m', t, e) {}
    ListsFrame(m, m');
    PlacesMove(c, m, m', t);
  }

  lemma BigInitShared(c: Config, m: Mem, t: int, th: Thread, lo: int, n: int)
    requires SharedInv(c, m) && 1 <= n < SPAN_LIMIT
    requires forall d :: lo <= d < lo + n ==> m.place(d) == HeldFree(t)
    ensures var m' := StepBigInit(m, th, lo, n).m;
            SharedInv(c, m') && forall u :: u != t ==> Rely(m, m', u)
  {
    var m' := StepBigInit(m, th, lo, n).m;
    var m1 := m.(desc := m'.desc);
    DescsMove(c, m, m1, t);
    BigInitPlaces(c, m1, m', t, lo, n);
    RelyThen(m, m1, m', t);
  }

  /** A step that keeps the lists may follow one that is fine for the others. */
  lemma RelyThen(m: Mem, m1: Mem, m2: Mem, t: int)
    requires forall u :: u != t ==> Rely(m, m1, u) && Rely(m1, m2, u)
    requires m2.partialList == m1.partialList && m2.availSb == m1.availSb && m2.desc == m1.desc
    ensures forall u :: u != t ==> Rely(m, m2, u)
  {
    forall u | u != t ensures Rely(m, m2, u) {
      assert Rely(m, m1, u) && Rely(m1, m2, u);
      forall sc ensures RelyAt(m, m2, u, sc) {
        assert RelyAt(m, m1, u, sc) && RelyAt(m1, m2, u, sc);
        OwnTrans(m, m1, m2, u);
      }
    }
  }

  lemma BigInitThread(c: Config, m: Mem, t: int, th: Thread, lo: int, n: int)
    requires ThreadInv(c, m, t, th) && th.pc == Large(n, BigInit(lo))
    requires forall b: Block :: !InUse(m.place(b.sb)) ==> m.owner(b) == Unused
    ensures var o := StepBigInit(m, th, lo, n); ThreadInv(c, o.m, t, o.th)
    ensures 1 <= n < SPAN_LIMIT && forall d :: lo <= d < lo + n ==> m.place(d) == HeldFree(t)
  {
    var o := StepBigInit(m, th, lo, n);
    Threads(c, m, t, th);
    BinsFrame(c, m, o.m, t, th.bins);
    MakeThread(c, o.m, t, o.th);
  }

  lemma BigInitGood(c: Config, m: Mem, t: int, th: Thread, lo: int, n: int)
    requires SharedInv(c, m) && ThreadInv(c, m, t, th) && th.pc == Large(n, BigInit(lo))
    ensures Good(c, m, t, StepBigInit(m, th, lo, n))
  {
    UnusedOutside(c, m);
    BigInitThread(c, m, t, th, lo, n);
    BigInitShared(c, m, t, th, lo, n);
  }

  // ---------- taking it back ----------

  /** Two large allocations do not overlap, so taking one back leaves the others whole. */
  lemma BigElsewhere(m: Mem, m': Mem, t: int, lo: int, e: int)
    requires BigInv(m, lo) && BigInv(m, e) && m.place(lo).Big? && m.place(lo).lo == lo
    requires m'.desc == m.desc && m'.place == SetRange(m.place, lo, m.desc(lo).span, HeldFree(t))
    ensures BigInv(m', e)
  {
    var n := m.desc(lo).span;
    if m'.place(e).Big? {
      var lo', n' := m.place(e).lo, m.place(e).n;
      forall x | lo' <= x < lo' + n' ensures m'.place(x) == Big(lo', n') {
        assert lo <= x < lo + n ==> m.place(x) == Big(lo, n);
      }
    }
  }

  lemma BigsElsewhere(m: Mem, m': Mem, t: int, lo: int)
    requires (forall e :: BigInv(m, e)) && m.place(lo).Big? && m.place(lo).lo == lo
    requires m'.desc == m.desc && m'.place == SetRange(m.place, lo, m.desc(lo).span, HeldFree(t))
    ensures forall e :: BigInv(m', e)
    ensures var n := m.desc(lo).span; n >= 1 && forall d :: lo <= d < lo + n ==> m.place(d) == Big(lo, n)
  {
    assert BigInv(m, lo);
    forall e ensures BigInv(m', e) { BigElsewhere(m, m', t, lo, e); }
  }

  lemma BigMoves(m: Mem, m': Mem, t: int, lo: int)
    requires m' == m.(place := SetRange(m.place, lo, m.desc(lo).span, HeldFree(t))) && forall e :: BigInv(m', e)
    requires forall d :: lo <= d < lo + m.desc(lo).span ==> m.place(d) == Big(lo, m.desc(lo).span)
    requires m.frontier >= 0 && forall e :: m.place(e) == Unborn <==> e < 0 || m.frontier <= e
    ensures PlacesMoved(m, m', t) && ListsKept(m, m')
  {
    forall e ensures PlaceMoved(m, m', t, e) && (m'.place(e) == Unborn <==> e < 0 || m'.frontier <= e) {
      assert m.place(e) == Unborn <==> e < 0 || m.frontier <= e;
    }
  }

  lemma FreeBigShared(c: Config, m: Mem, t: int, th: Thread, lo: int)
    requires SharedInv(c, m) && m.place(lo).Big? && m.place(lo).lo == lo
    ensures var m' := StartFreeBig(m, t, th, lo).m;
            SharedInv(c, m') && forall u :: u != t ==> Rely(m, m', u)
    ensures var n := m.desc(lo).span;
            n >= 1 && forall d :: lo <= d < lo + n ==> m.place(d) == Big(lo, n)
  {
    var m' := StartFreeBig(m, t, th, lo).m;
    assert (forall e :: BigInv(m, e)) && (forall e :: m.place(e) == Unborn <==> e < 0 || m.frontier <= e)
           && StacksInv(m) && m.frontier >= 0 by
    {
      Shared(c, m);
      forall e ensures m.place(e) == Unborn <==> e < 0 || m.frontier <= e { assert SbInv(c, m, e); }
    }
    BigsElsewhere(m, m', t, lo);
    BigMoves(m, m', t, lo);
    ListsFrame(m, m');
    PlacesMove(c, m, m', t);
  }

  lemma FreeBigThread(c: Config, m: Mem, t: int, th: Thread, lo: int)
    requires ThreadInv(c, m, t, th) && th.pc == Idle
    requires var n := m.desc(lo).span;
             n >= 1 && forall d :: lo <= d < lo + n ==> m.place(d) == Big(lo, n)
    ensures var o := StartFreeBig(m, t, th, lo); ThreadInv(c, o.m, t, o.th)
  {
    var o := StartFreeBig(m, t, th, lo);
    Threads(c, m, t, th);
    BinsFrame(c, m, o.m, t, th.bins);
    MakeThread(c, o.m, t, o.th);
  }

  lemma FreeBigGood(c: Config, m: Mem, t: int, th: Thread, lo: int)
    requires SharedInv(c, m) && ThreadInv(c, m, t, th) && th.pc == Idle && m.place(lo).Big? && m.place(lo).lo == lo
    ensures Good(c, m, t, StartFreeBig(m, t, th, lo))
  {
    FreeBigShared(c, m, t, th, lo);
    FreeBigThread(c, m, t, th, lo);
  }
}
