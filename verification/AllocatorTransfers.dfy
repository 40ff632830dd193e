/** Descriptors moving between lists, hands and use, and the blocks that move with them. */
module AllocatorTransfers {
  import opened AllocatorState
  import opened AllocatorSteps
  import opened AllocatorInvariant
  import opened AllocatorFrames

  // ---------- popping and pushing ----------

  /** One stack, which holds the descriptors at place `p`, changes from k to k'. */
  ghost predicate StackMoved(k: Stack, k': Stack, next: int -> Ptr, place': int -> Place, p: Place) {
    ListInv(k', next) && Exactly(k'.lst, place', p) && ListRely(k, k', next, next)
  }

  ghost predicate PartialMoved(m: Mem, m': Mem, x: int) {
    StackMoved(m.partialList(x), m'.partialList(x), PartialNext(m.desc), m'.place, Listed(x))
  }

  lemma StacksMoved(m: Mem, m': Mem)
    requires m'.desc == m.desc && (forall x :: PartialMoved(m, m', x))
    requires StackMoved(m.availSb, m'.availSb, FreeNext(m.desc), m'.place, Avail)
    ensures StacksInv(m') && ListsRely(m, m')
  {
    forall x ensures ListInv(m'.partialList(x), PartialNext(m'.desc))
      && Exactly(m'.partialList(x).lst, m'.place, Listed(x))
                     && ListRely(m.partialList(x), m'.partialList(x), PartialNext(m.desc), PartialNext(m'.desc)) {
      assert PartialMoved(m, m', x);
    }
  }

  lemma StackKept(k: Stack, next: int -> Ptr, place: int -> Place, place': int -> Place, p: Place)
    requires ListInv(k, next) && Exactly(k.lst, place, p) && forall d :: place'(d) == p <==> place(d) == p
    ensures StackMoved(k, k, next, place', p)
  {
    ListSame(k, next, next);
  }

  lemma StackPopped(k: Stack, next: int -> Ptr, place: int -> Place, q: Place, p: Place)
    requires ListInv(k, next) && Exactly(k.lst, place, p) && k.lst != [] && q != p
    ensures StackMoved(k, Stack(Head(next(k.lst[0]), k.head.cnt), k.lst[1..]), next, Upd(place, k.lst[0], q), p)
    ensures place(k.lst[0]) == p
  {
    ListPop(k, next);
    var d := k.lst[0];
    assert d in k.lst;
  }

  lemma StackPushed(k: Stack, next: int -> Ptr, place: int -> Place, lo: int, n: int, p: Place)
    requires ListInv(k, next) && Exactly(k.lst, place, p) && n >= 1 && next(lo + n - 1) == k.head.ptr
    requires forall d :: lo <= d < lo + n - 1 ==> next(d) == To(d + 1)
    requires forall d :: lo <= d < lo + n ==> place(d) != p
    ensures StackMoved(k, Stack(Head(To(lo), k.head.cnt + 1), Iota(lo, n) + k.lst), next, SetRange(place, lo, n, p), p)
  {
    ListPush(k, lo, n, next);
  }

  lemma PopPartialStacks(m: Mem, m': Mem, t: int, sc: int)
    requires StacksInv(m) && m.partialList(sc).lst != []
    requires var k := m.partialList(sc);
             m' == m.(partialList := Upd(m.partialList, sc,
                                         Stack(Head(m.desc(k.lst[0]).nextPartial, k.head.cnt), k.lst[1..])),
                      place := Upd(m.place, k.lst[0], HeldUsed(t)))
    ensures StacksInv(m') && ListsRely(m, m')
  {
    StackPopped(m.partialList(sc), PartialNext(m.desc), m.place, HeldUsed(t), Listed(sc));
    forall x ensures PartialMoved(m, m', x) {
      if x != sc { StackKept(m.partialList(x), PartialNext(m.desc), m.place, m'.place, Listed(x)); }
    }
    StackKept(m.availSb, FreeNext(m.desc), m.place, m'.place, Avail);
    StacksMoved(m, m');
  }

  lemma PopAvailStacks(m: Mem, m': Mem, t: int)
    requires StacksInv(m) && m.availSb.lst != []
    requires var k := m.availSb;
             m' == m.(availSb := Stack(Head(m.desc(k.lst[0]).nextFree, k.head.cnt), k.lst[1..]),
                      place := Upd(m.place, k.lst[0], HeldFree(t)))
    ensures StacksInv(m') && ListsRely(m, m')
  {
    StackPopped(m.availSb, FreeNext(m.desc), m.place, HeldFree(t), Avail);
    forall x ensures PartialMoved(m, m', x) {
      StackKept(m.partialList(x), PartialNext(m.desc), m.place, m'.place, Listed(x));
    }
    StacksMoved(m, m');
  }

  lemma PushPartialStacks(m: Mem, m': Mem, t: int, sc: int, d: int)
    requires StacksInv(m) && m.place(d) == HeldUsed(t) && m.desc(d).nextPartial == m.partialList(sc).head.ptr
    requires var k := m.partialList(sc);
             m' == m.(partialList := Upd(m.partialList, sc, Stack(Head(To(d), k.head.cnt + 1), [d] + k.lst)),
                      place := Upd(m.place, d, Listed(sc)))
    ensures StacksInv(m') && ListsRely(m, m')
  {
    StackPushed(m.partialList(sc), PartialNext(m.desc), m.place, d, 1, Listed(sc));
    assert Iota(d, 1) == [d];
    forall x ensures PartialMoved(m, m', x) {
      if x == sc {
        forall e ensures m'.place(e) == SetRange(m.place, d, 1, Listed(sc))(e) {}
      } else {
        StackKept(m.partialList(x), PartialNext(m.desc), m.place, m'.place, Listed(x));
      }
    }
    StackKept(m.availSb, FreeNext(m.desc), m.place, m'.place, Avail);
    StacksMoved(m, m');
  }

  lemma PushAvailStacks(m: Mem, m': Mem, t: int, lo: int, n: int)
    requires StacksInv(m) && n >= 1 && OrgChain(m, lo, n) && m.desc(lo + n - 1).nextFree == m.availSb.head.ptr
    requires forall d :: lo <= d < lo + n ==> m.place(d) == HeldFree(t)
    requires m' == m.(availSb := Stack(Head(To(lo), m.availSb.head.cnt + 1), Iota(lo, n) + m.availSb.lst),
                      place := SetRange(m.place, lo, n, Avail))
    ensures StacksInv(m') && ListsRely(m, m')
  {
    StackPushed(m.availSb, FreeNext(m.desc), m.place, lo, n, Avail);
    forall x ensures PartialMoved(m, m', x) {
      StackKept(m.partialList(x), PartialNext(m.desc), m.place, m'.place, Listed(x));
    }
    StacksMoved(m, m');
  }

  /** Descriptors change place, but none enters or leaves use. */
  ghost predicate PlacesMoved(m: Mem, m': Mem, t: int) {
    && m' == m.(place := m'.place, partialList := m'.partialList, availSb := m'.availSb, frontier := m'.frontier)
    && m'.frontier >= 0
    && (forall d :: PlaceMoved(m, m', t, d))
    && (forall d :: m'.place(d) == Unborn <==> d < 0 || m'.frontier <= d)
    && (forall d :: BigInv(m', d))
  }

  ghost predicate PlaceMoved(m: Mem, m': Mem, t: int, d: int) {
    var p, p' := m.place(d), m'.place(d);
    p' == p || (&& (InUse(p') <==> InUse(p))
                && !p.Active? && !p'.Active?
                && (p'.Listed? ==> m.desc(d).heap == HeapOf(p'.sc))
                && NotHeldByOther(p, t) && NotHeldByOther(p', t))
  }

  ghost predicate NotHeldByOther(p: Place, t: int) {
    (p.HeldUsed? || p.HeldFree?) ==> p.t == t
  }

  /** One descriptor changes place, away from no large allocation. */
  lemma OnePlace(c: Config, m: Mem, m': Mem, t: int, d: int, p: Place)
    requires SharedInv(c, m)
    requires m' == m.(place := Upd(m.place, d, p), partialList := m'.partialList, availSb := m'.availSb)
    requires !m.place(d).Big? && !p.Big? && !m.place(d).Unborn? && !p.Unborn?
    requires PlaceMoved(m, m', t, d)
    ensures PlacesMoved(m, m', t)
  {
    Shared(c, m);
    BigFrame(m, m');
    forall e ensures m'.place(e) == Unborn <==> e < 0 || m'.frontier <= e { assert SbInv(c, m, e); }
    forall e ensures PlaceMoved(m, m', t, e) {}
  }

  lemma PlacesMoveSb(c: Config, m: Mem, m': Mem, t: int, d: int)
    requires SbInv(c, m, d) && PlacesMoved(m, m', t)
    ensures SbInv(c, m', d)
  {
    assert PlaceMoved(m, m', t, d);
  }

  lemma PlacesMoveOwn(m: Mem, m': Mem, t: int, u: int)
    requires PlacesMoved(m, m', t) && u != t
    ensures OwnRely(m, m', u)
  {
    forall d | NotHeldByOther(m.place(d), t) ==> !NotHeldByOther(m'.place(d), t) ensures m'.place(d) == m.place(d) {
      assert PlaceMoved(m, m', t, d);
    }
  }

  lemma PlacesMove(c: Config, m: Mem, m': Mem, t: int)
    requires SharedInv(c, m) && PlacesMoved(m, m', t) && StacksInv(m') && ListsRely(m, m')
    ensures SharedInv(c, m')
    ensures forall u :: u != t ==> Rely(m, m', u)
  {
    Shared(c, m);
    forall d ensures SbInv(c, m', d) { PlacesMoveSb(c, m, m', t, d); }
    MakeShared(c, m');
    forall u | u != t ensures OwnRely(m, m', u) { PlacesMoveOwn(m, m', t, u); }
    MakeRely(m, m', t);
  }

  // ---------- superblocks entering and leaving use ----------

  /** Only superblock `d` changes: its anchor, place, chain, counters and block owners. */
  ghost predicate OneSb(m: Mem, m': Mem, d: int) {
    && m' == m.(desc := m'.desc, owner := m'.owner, place := m'.place,
                chain := m'.chain, emptied := m'.emptied, retired := m'.retired)
    && (forall e :: e != d ==> m'.desc(e) == m.desc(e) && m'.place(e) == m.place(e) && m'.chain(e) == m.chain(e)
                               && m'.emptied(e) == m.emptied(e) && m'.retired(e) == m.retired(e))
    && m'.desc(d).(anchor := m.desc(d).anchor) == m.desc(d)
    && (forall b: Block :: b.sb != d ==> m'.owner(b) == m.owner(b))
    && (m'.place(d) == m.place(d) || (!m.place(d).Listed? && !m'.place(d).Listed?))
    && !m.place(d).Avail? && !m'.place(d).Avail?
    && !m.place(d).Big? && !m'.place(d).Big?
  }

  /** What moves comes from, or goes to, thread t, the chain or nobody. */
  ghost predicate OnlyBy(m: Mem, m': Mem, d: int, t: int) {
    && (forall b: Block :: m'.owner(b) == m.owner(b) || (Neutral(m.owner(b), t) && Neutral(m'.owner(b), t)))
    && (m'.place(d) == m.place(d) || (NotHeldByOther(m.place(d), t) && NotHeldByOther(m'.place(d), t)))
    && (m.place(d).HeldUsed? && m.desc(d).anchor.state == Empty ==>
          m'.desc(d).anchor.state == Empty || m.place(d).t == t)
    && (m.place(d).HeldFree? ==> m.place(d).t == t)
  }

  /** Superblock `d` changes on behalf of thread t and keeps its invariant. */
  ghost predicate SbMoved(c: Config, m: Mem, m': Mem, d: int, t: int) {
    OneSb(m, m', d) && OnlyBy(m, m', d, t) && SbInv(c, m', d)
  }

  ghost predicate Neutral(o: Owner, t: int) {
    o == Unused || o == Chained || Mine(o, t)
  }

  lemma OneSbOthers(c: Config, m: Mem, m': Mem, d: int, e: int)
    requires SbInv(c, m, e) && OneSb(m, m', d) && e != d
    ensures SbInv(c, m', e)
  {
    SbFrame(c, m, m', e);
  }

  lemma OneSbLists(m: Mem, m': Mem, d: int)
    requires OneSb(m, m', d)
    ensures ListsKept(m, m') && BigKept(m, m')
  {
  }

  lemma OneSbOwn(m: Mem, m': Mem, d: int, t: int, u: int)
    requires OneSb(m, m', d) && OnlyBy(m, m', d, t) && u != t
    ensures OwnRely(m, m', u)
  {
  }

  lemma OneSbMove(c: Config, m: Mem, m': Mem, d: int, t: int)
    requires SharedInv(c, m) && SbMoved(c, m, m', d, t)
    ensures SharedInv(c, m') && forall u :: u != t ==> Rely(m, m', u)
  {
    Shared(c, m);
    forall e ensures SbInv(c, m', e) { if e != d { OneSbOthers(c, m, m', d, e); } }
    OneSbLists(m, m', d);
    BigFrame(m, m');
    ListsFrame(m, m');
    MakeShared(c, m');
    forall u | u != t ensures OwnRely(m, m', u) { OneSbOwn(m, m', d, t, u); }
    MakeRely(m, m', t);
  }

  // -- taking the chain of a partial superblock

  lemma TakeSb(c: Config, m: Mem, t: int, sc: int, d: int)
    requires SbInv(c, m, d) && m.place(d) == HeldUsed(t) && m.desc(d).anchor.state == Partial
    ensures var m' := Take(m, t, sc, d, m.desc(d).maxcount);
            SbMoved(c, m, m', d, t)
  {
  }

  // -- a new superblock

  lemma PublishSb(c: Config, m: Mem, t: int, sc: int, d: int)
    requires SbInv(c, m, d) && m.place(d) == HeldFree(t) && SmallClass(c, sc)
    requires m.desc(d).heap == HeapOf(sc) && m.desc(d).maxcount == c.maxcount(sc)
    ensures var m' := Publish(m, t, sc, d, c.maxcount(sc));
            SbMoved(c, m, m', d, t)
  {
    var m' := Publish(m, t, sc, d, c.maxcount(sc));
    var mx := c.maxcount(sc);
    forall i ensures m'.owner(Block(d, i)) != Unused <==> 0 <= i < mx {
      if 0 <= i < mx { assert Iota(0, mx)[i] == i; }
    }
  }

  // -- retiring an empty superblock

  lemma RetireSb(c: Config, m: Mem, t: int, d: int)
    requires SbInv(c, m, d) && m.place(d) == HeldUsed(t) && m.desc(d).anchor.state == Empty
    ensures var m' := Retire(m, t, d);
            SbMoved(c, m, m', d, t)
  {
    var m' := Retire(m, t, d);
    AllChained(c, m, d);
    forall b: Block | b.sb == d ensures Neutral(m.owner(b), t) && m'.owner(b) == Unused {
      assert b == Block(d, b.idx);
    }
  }

  /** Distinct numbers below n fill 0 .. n if there are n of them, and there are never more. */
  lemma {:induction false} Pigeonhole(q: seq<int>, n: int)
    requires NoDup(q) && n >= 0 && forall x :: x in q ==> 0 <= x < n
    ensures |q| <= n
    ensures |q| == n ==> forall x :: 0 <= x < n ==> x in q
    decreases n
  {
    if q == [] {
    } else if n == 0 {
      Holds(q, 0);
      assert false;
    } else if n - 1 in q {
      var i :| 0 <= i < |q| && q[i] == n - 1;
      var r := q[..i] + q[i + 1..];
      assert forall x :: x in r ==> x in q;
      forall x | x in r ensures 0 <= x < n - 1 {
        var j :| 0 <= j < |r| && r[j] == x;
        assert x == q[if j < i then j else j + 1];
      }
      Pigeonhole(r, n - 1);
    } else {
      forall x | x in q ensures 0 <= x < n - 1 {}
      Pigeonhole(q, n - 1);
    }
  }

  lemma Holds(q: seq<int>, i: int)
    requires 0 <= i < |q|
    ensures q[i] in q
  {
  }

  /** Every block of an empty superblock is on its chain. */
  lemma AllChained(c: Config, m: Mem, d: int)
    requires SbInv(c, m, d) && InUse(m.place(d)) && m.desc(d).anchor.state == Empty
    ensures forall i :: m.owner(Block(d, i)) == Chained || m.owner(Block(d, i)) == Unused
  {
    Pigeonhole(m.chain(d), m.desc(d).maxcount);
  }

  // -- splicing returned blocks

  /** Blocks in hand are not on the chain, so there is room for them and the superblock is not empty. */
  lemma SpliceRoom(c: Config, m: Mem, t: int, d: int, blks: seq<int>)
    requires SbInv(c, m, d) && InUse(m.place(d)) && blks != [] && NoDup(blks)
    requires forall i :: i in blks ==> m.owner(Block(d, i)) == InHand(t)
    ensures NoDup(blks + m.chain(d)) && |blks| + |m.chain(d)| <= m.desc(d).maxcount
    ensures m.desc(d).anchor.state == Full || m.desc(d).anchor.state == Partial
  {
    var q := blks + m.chain(d);
    forall i, j | 0 <= i < j < |q| ensures q[i] != q[j] {
      if i < |blks| <= j {
        var x, y := q[i], q[j];
        assert x in blks && y in m.chain(d);
      }
    }
    var first := blks[0];
    assert first in blks;
    Pigeonhole(q, m.desc(d).maxcount);
  }

  lemma SpliceLinks(link: Block -> Link, d: int, blks: seq<int>, chain: seq<int>)
    requires blks != [] && LinkedIn(link, d, blks) && LinkedIn(link, d, chain)
    requires chain != [] ==> link(Block(d, blks[|blks| - 1])) == At(Block(d, chain[0]))
    ensures LinkedIn(link, d, blks + chain)
  {
    var q := blks + chain;
    forall i, j | 0 <= i && j == i + 1 && j < |q| ensures link(Block(d, q[i])) == At(Block(d, q[j])) {
      if j < |blks| { assert q[i] == blks[i] && q[j] == blks[j]; }
      else if j == |blks| { assert q[i] == blks[|blks| - 1] && q[j] == chain[0]; }
      else { assert q[i] == chain[i - |blks|] && q[j] == chain[j - |blks|]; }
    }
  }

  /** The splice is correct whatever happened since the anchor was read: what matters is that
      the anchor holds the value read, and that the last block in hand links to its avail. */
  lemma SpliceSb(c: Config, m: Mem, t: int, d: int, blks: seq<int>, p: Place)
    requires SbInv(c, m, d) && InUse(m.place(d)) && blks != [] && NoDup(blks) && LinkedIn(m.link, d, blks)
    requires forall i :: i in blks ==> m.owner(Block(d, i)) == InHand(t)
    requires m.link(Block(d, blks[|blks| - 1])) == At(Block(d, m.desc(d).anchor.avail))
    requires p == if m.desc(d).anchor.state == Full then HeldUsed(t) else m.place(d)
    ensures var m' := Splice(m, d, blks, Flushed(m.desc(d).anchor, blks[0], |blks|, m.desc(d).maxcount), p);
            SbMoved(c, m, m', d, t)
  {
    SpliceRoom(c, m, t, d, blks);
    SpliceLinks(m.link, d, blks, m.chain(d));
    var m' := Splice(m, d, blks, Flushed(m.desc(d).anchor, blks[0], |blks|, m.desc(d).maxcount), p);
    forall i ensures m'.owner(Block(d, i)) == Chained <==> i in m'.chain(d) {}
    forall i ensures m'.owner(Block(d, i)) != Unused <==> m.owner(Block(d, i)) != Unused {}
  }
}
