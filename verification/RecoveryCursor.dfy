/** When the sweep sees every mark. The sweep allows a large allocation to be pointed at in its
    middle, but it compares marks with one superblock at a time and steps over the rest of a large
    allocation: a mark there stops the iterator for good.
*/
module RecoveryCursor {
  import opened AllocatorState
  import opened SizeClasses
  import opened RecoverySpec
  import opened RecoverySweep

  /** A mark in superblock 0, or past the first superblock of a live large allocation. */
  ghost predicate Missed(k: Crashed, marked: seq<int>, a: int) {
    SbOf(a) < 1 || exists lo :: Covers(k, marked, lo, SbOf(a)) && lo < SbOf(a)
  }

  ghost predicate InRange(k: Crashed, marked: seq<int>) {
    && Increasing(marked) && k.frontier >= 1
    && (forall a :: a in marked ==> 0 <= SbOf(a) < k.frontier)
    && (forall d :: LiveBig(k, marked, d) ==> k.desc(d).span >= 1 && d + k.desc(d).span <= k.frontier)
  }

  /** A mark left behind is never reached again. */
  lemma {:induction false} Stuck(k: Crashed, marked: seq<int>, pos: int, d: int)
    requires 0 <= pos < |marked| && SbOf(marked[pos]) < d
    ensures Final(k, marked, pos, d) == pos
    decreases k.frontier - d
  {
    if d < k.frontier { Stuck(k, marked, pos, d + 1); }
  }

  ghost predicate NoneMissedFrom(k: Crashed, marked: seq<int>, d: int) {
    forall a :: a in marked && SbOf(a) >= d ==> !Missed(k, marked, a)
  }

  lemma {:induction false} FinalFrom(k: Crashed, marked: seq<int>, pos: int, d: int)
    requires InRange(k, marked) && 1 <= d <= k.frontier && Cursor(marked, pos, d) && Boundary(k, marked, d)
    ensures Final(k, marked, pos, d) == |marked| <==> NoneMissedFrom(k, marked, d)
    decreases k.frontier - d, 1
  {
    if d == k.frontier {
      AtEnd(k, marked, pos);
    } else {
      FinalNext(k, marked, pos, d);
      var p := Eat(marked, pos, d);
      if LiveBig(k, marked, d) {
        BigStep(k, marked, p, d);
      } else {
        FinalFrom(k, marked, p, d + 1);
        SmallStep(k, marked, d);
      }
    }
  }

  lemma FinalNext(k: Crashed, marked: seq<int>, pos: int, d: int)
    requires InRange(k, marked) && 1 <= d < k.frontier && Cursor(marked, pos, d) && Boundary(k, marked, d)
    ensures var p := Eat(marked, pos, d);
            && Cursor(marked, p, d + 1)
            && if LiveBig(k, marked, d) then Final(k, marked, pos, d) == Final(k, marked, p, d + k.desc(d).span)
               else Final(k, marked, pos, d) == Final(k, marked, p, d + 1) && Boundary(k, marked, d + 1)
  {
    EatIs(marked, pos, d);
    CursorPast(marked, pos, Eat(marked, pos, d), d);
  }

  lemma AtEnd(k: Crashed, marked: seq<int>, pos: int)
    requires InRange(k, marked) && Cursor(marked, pos, k.frontier)
    ensures pos == |marked| && NoneMissedFrom(k, marked, k.frontier)
  {
    var i := if pos < |marked| then pos else 0;
    assert |marked| > 0 ==> marked[i] in marked;
  }

  lemma SmallStep(k: Crashed, marked: seq<int>, d: int)
    requires Boundary(k, marked, d) && d >= 1
    ensures NoneMissedFrom(k, marked, d) <==> NoneMissedFrom(k, marked, d + 1)
  {
    HereNotMissed(k, marked, d);
  }

  /** Marks in the superblock where a round starts are met. */
  lemma HereNotMissed(k: Crashed, marked: seq<int>, d: int)
    requires Boundary(k, marked, d) && d >= 1
    ensures forall a :: a in marked && SbOf(a) == d ==> !Missed(k, marked, a)
  {
  }

  lemma BigStep(k: Crashed, marked: seq<int>, p: int, d: int)
    requires InRange(k, marked) && 1 <= d < k.frontier && Cursor(marked, p, d + 1) && Boundary(k, marked, d)
    requires LiveBig(k, marked, d)
    ensures Final(k, marked, p, d + k.desc(d).span) == |marked| <==> NoneMissedFrom(k, marked, d)
    decreases k.frontier - d, 0
  {
    var d' := d + k.desc(d).span;
    HereNotMissed(k, marked, d);
    if p < |marked| && SbOf(marked[p]) < d' {
      var a := marked[p];
      assert a in marked && Covers(k, marked, d, SbOf(a)) && Missed(k, marked, a);
      Stuck(k, marked, p, d');
    } else {
      TailUnmarked(k, marked, p, d);
      FinalFrom(k, marked, p, d');
    }
  }

  lemma TailUnmarked(k: Crashed, marked: seq<int>, p: int, d: int)
    requires InRange(k, marked) && Cursor(marked, p, d + 1) && Boundary(k, marked, d) && LiveBig(k, marked, d)
    requires p < |marked| ==> SbOf(marked[p]) >= d + k.desc(d).span
    ensures var d' := d + k.desc(d).span;
            && Cursor(marked, p, d') && Boundary(k, marked, d')
            && forall a :: a in marked && SbOf(a) > d ==> SbOf(a) >= d'
  {
    var d' := d + k.desc(d).span;
    forall i | p <= i < |marked| ensures SbOf(marked[i]) >= d' { SbOfMonotone(marked[p], marked[i]); }
    forall a | a in marked && SbOf(a) > d ensures SbOf(a) >= d' {
      var i :| 0 <= i < |marked| && marked[i] == a;
    }
    forall lo | LiveBig(k, marked, lo) && lo < d' ensures lo + k.desc(lo).span <= d' {
      var a :| a in marked && SbOf(a) == lo;
    }
  }

  /** The sweep meets every mark if and only if none lies in superblock 0 or past the first superblock
      of a live large allocation. */
  lemma EveryMarkMet(k: Crashed, marked: seq<int>)
    requires InRange(k, marked)
    ensures Final(k, marked, 0, 1) == |marked| <==> forall a :: a in marked ==> !Missed(k, marked, a)
  {
    if |marked| > 0 && SbOf(marked[0]) < 1 {
      assert marked[0] in marked && Missed(k, marked, marked[0]);
      Stuck(k, marked, 0, 1);
    } else {
      forall i | 0 <= i < |marked| ensures SbOf(marked[i]) >= 1 { SbOfMonotone(marked[0], marked[i]); }
      forall a | a in marked ensures SbOf(a) >= 1 { var i :| 0 <= i < |marked| && marked[i] == a; }
      forall lo | LiveBig(k, marked, lo) ensures lo >= 1 { var a :| a in marked && SbOf(a) == lo; }
      FinalFrom(k, marked, 0, 1);
    }
  }

  lemma MetAll(c: Config, k: Crashed, marked: seq<int>)
    requires Sweepable(c, k, marked)
    ensures Met(k, marked) == marked
  {
    SweepableParts(c, k, marked);
    forall d | LiveBig(k, marked, d) ensures k.desc(d).span >= 1 && d + k.desc(d).span <= k.frontier {
      assert BigOk(k, marked, d);
    }
    forall a | a in marked ensures !Missed(k, marked, a) {
      assert HasMark(marked, SbOf(a));
      forall lo | Covers(k, marked, lo, SbOf(a)) ensures lo == SbOf(a) { assert BigOk(k, marked, lo); }
    }
    EveryMarkMet(k, marked);
  }

  // ---------- pointing at the middle of a large allocation ----------

  ghost predicate IsLarge(k: Crashed, lo: int) { Usable(k, lo) && k.desc(lo).heap.sc == 0 }

  /** Address a lies past the first superblock of the large allocation at lo. */
  ghost predicate Interior(k: Crashed, lo: int, a: int) {
    IsLarge(k, lo) && lo < SbOf(a) < lo + k.desc(lo).span
  }

  ghost predicate PointedAt(k: Crashed, marked: seq<int>, lo: int) {
    IsLarge(k, lo) && exists a :: a in marked && lo <= SbOf(a) < lo + k.desc(lo).span
  }

  /** Every mark is met, and every large allocation that a mark points at is live. */
  ghost predicate Honoured(k: Crashed, marked: seq<int>) {
    Final(k, marked, 0, 1) == |marked| && forall lo :: PointedAt(k, marked, lo) ==> LiveBig(k, marked, lo)
  }

  /** Marks are honoured if and only if none lies in superblock 0 or past the first superblock of a large
      allocation: next to a mark of its first superblock such a mark is missed, and on its own it does not
      keep the allocation alive. */
  lemma InteriorIff(k: Crashed, marked: seq<int>)
    requires InRange(k, marked)
    ensures Honoured(k, marked) <==> forall a :: a in marked ==> SbOf(a) >= 1 && forall lo :: !Interior(k, lo, a)
  {
    EveryMarkMet(k, marked);
    if Honoured(k, marked) {
      forall a, lo | a in marked ensures SbOf(a) >= 1 && !Interior(k, lo, a) {
        assert !Missed(k, marked, a);
        if Interior(k, lo, a) {
          assert PointedAt(k, marked, lo);
          assert Covers(k, marked, lo, SbOf(a));
        }
      }
    } else if forall a :: a in marked ==> SbOf(a) >= 1 && forall lo :: !Interior(k, lo, a) {
      forall a | a in marked ensures !Missed(k, marked, a) {
        forall lo | Covers(k, marked, lo, SbOf(a)) ensures lo == SbOf(a) { assert !Interior(k, lo, a); }
      }
      forall lo | PointedAt(k, marked, lo) ensures LiveBig(k, marked, lo) {
        var a :| a in marked && lo <= SbOf(a) < lo + k.desc(lo).span;
        assert !Interior(k, lo, a);
      }
    }
  }

  /** A large allocation of superblocks 1 and 2, whose second descriptor was never written. */
  ghost function LargeAlone(): Crashed {
    Crashed(d => if d == 1 then FreshDesc.(heap := HeapOf(0), maxcount := 1, span := 2) else FreshDesc,
            d => if d == 1 then 1 else 0, d => if d == 1 then 2 * SBSIZE else 0, b => Nil, 3)
  }

  /** Pointed at only in its second superblock, it is freed whole, although the mark is met. */
  lemma InteriorOnlyFrees(c: Config, k: Crashed, marked: seq<int>)
    requires GoodConfig(c) && k == LargeAlone() && marked == [2 * SBSIZE + 8]
    ensures PointedAt(k, marked, 1) && Final(k, marked, 0, 1) == |marked| && Met(k, marked) == marked
    ensures Sweepable(c, k, marked) && PlaceOf(k, marked, 1) == Avail && PlaceOf(k, marked, 2) == Avail
  {
    assert SbOf(marked[0]) == 2 && marked[0] in marked;
    assert forall d :: HasMark(marked, d) ==> d == 2;
    forall x ensures SweepableAt(c, k, marked, x) {}
    MetAll(c, k, marked);
  }

  // ---------- once a mark is missed ----------

  /** The iterator stops between two superblocks. */
  ghost predicate Between(marked: seq<int>, r: int) {
    0 < r < |marked| ==> SbOf(marked[r - 1]) < SbOf(marked[r])
  }

  lemma {:induction false} FinalBetween(k: Crashed, marked: seq<int>, pos: int, d: int)
    requires Increasing(marked) && 0 <= pos <= |marked| && Between(marked, pos)
    ensures Between(marked, Final(k, marked, pos, d))
    decreases k.frontier - d
  {
    if d < k.frontier {
      var p := Eat(marked, pos, d);
      EatIs(marked, pos, d);
      if pos < p < |marked| { SbOfMonotone(marked[p - 1], marked[p]); }
      var n := Stride(k, d, p > pos);
      if n >= 1 { FinalBetween(k, marked, p, d + n); }
    }
  }

  /** Of the superblocks with marks, the sweep sees all marks or none. */
  lemma MetWhole(k: Crashed, marked: seq<int>, i: int)
    requires Increasing(marked) && Final(k, marked, 0, 1) <= i < |marked|
    ensures !HasMark(Met(k, marked), SbOf(marked[i]))
  {
    FinalBetween(k, marked, 0, 1);
    var r := Final(k, marked, 0, 1);
    SbOfMonotone(marked[r], marked[i]);
    forall j | 0 <= j < r ensures SbOf(marked[j]) < SbOf(marked[i]) { SbOfMonotone(marked[j], marked[r - 1]); }
  }

  /** A large allocation of superblocks 1 and 2, and a superblock 3 of blocks of 8 bytes. */
  ghost function LargeThenSmall(): Crashed {
    Crashed(d => if d == 1 then FreshDesc.(heap := HeapOf(0), maxcount := 1, span := 2)
            else FreshDesc.(heap := HeapOf(1), maxcount := SBSIZE / 8),
            d => d, d => if d == 1 then 2 * SBSIZE else 8, b => Nil, 4)
  }

  /** With the large allocation marked at its start and in its second superblock, the sweep never sees
      the mark of the first block of superblock 3, which is in use. */
  lemma InteriorMarkLoses(k: Crashed, marked: seq<int>)
    requires k == LargeThenSmall() && marked == [SBSIZE, 2 * SBSIZE, 3 * SBSIZE]
    ensures InRange(k, marked) && LiveSmall(k, marked, 3) && Marked(k, marked, 3, 0) && marked[2] == BlockAddr(k, 3, 0)
    ensures Final(k, marked, 0, 1) == 1
  {
    assert SbOf(marked[0]) == 1 && SbOf(marked[1]) == 2 && SbOf(marked[2]) == 3;
    assert HasMark(marked, 1) by { assert marked[0] in marked; }
    assert HasMark(marked, 3) by { assert marked[2] in marked; }
    EatIs(marked, 0, 1);
    assert Eat(marked, 0, 1) == 1;
    Stuck(k, marked, 1, 3);
  }
}
