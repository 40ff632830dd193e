/** Makalu's block allocator as it runs: free lists, headers and counters updated in place. */
module MakaluHeap {
  import opened MakaluBlocks
  import opened MakaluLists
  import opened MakaluCoalesce
  import opened MakaluFree
  import opened MakaluAlloc

  class BlockHeap {
    var hd: int -> Hdr
    var fl: int -> int
    var bytes: int -> int
    var total: int
    ghost var lists: int -> seq<int>
    ghost var start: int -> int

    ghost function S(): Heap
      reads this
    {
      Heap(hd, fl, bytes, total, lists, start)
    }

    constructor ()
      ensures Valid(S()) && forall p :: ViewAt(S(), p) == NoBlock
    {
      hd, fl, bytes, total := p => Nil, i => 0, i => 0, 0;
      lists, start := i => [], p => 0;
      new;
      forall p ensures TileAt(S(), {}, p) && ApartAt(S(), {}, p) {}
      forall i ensures ListAt(S(), {}, i) {}
      MakeGood(S(), {});
      forall n ensures Total(bytes, n) == 0 { TotalZero(bytes, n); }
    }

    /** MAK_remove_from_fl. */
    method RemoveFromFl(p: int)
      requires hd(p).Hd?
      modifies this
      ensures S() == Removed(old(S()), p)
    {
      var d := hd(p);
      var index := FlIndex(Len(d));
      lists := Upd(lists, index, Without(lists(index), p));
      if d.prev == 0 {
        fl := Upd(fl, index, d.next);
      } else {
        hd := Upd(hd, d.prev, SetNext(hd(d.prev), d.next));
      }
      bytes := Upd(bytes, index, bytes(index) - d.sz);
      if d.next != 0 {
        hd := Upd(hd, d.next, SetPrev(hd(d.next), d.prev));
      }
    }

    /** MAK_add_to_fl. */
    method AddToFl(p: int)
      requires hd(p).Hd?
      modifies this
      ensures S() == Added(old(S()), p)
    {
      var index := FlIndex(Len(hd(p)));
      var second := fl(index);
      fl := Upd(fl, index, p);
      lists := Upd(lists, index, [p] + lists(index));
      bytes := Upd(bytes, index, bytes(index) + hd(p).sz);
      hd := Upd(hd, p, Hd(hd(p).sz, true, second, 0));
      if second != 0 {
        hd := Upd(hd, second, SetPrev(hd(second), p));
      }
    }

    /** The greatest block start at or below p, 0 if there is none. */
    method PrevBlock(p: int, ghost out: set<int>) returns (r: int)
      requires Tiled(S(), out)
      ensures r == 0 || (r <= p && hd(r).Hd?)
      ensures forall e :: r < e <= p ==> !hd(e).Hd?
      ensures r >= 0
    {
      r := p;
      if r < 0 { r := 0; }
      forall e | e <= 0 ensures !hd(e).Hd? { assert TileAt(S(), out, e); }
      while r > 0 && !hd(r).Hd?
        invariant r >= 0 && forall e :: r < e <= p ==> !hd(e).Hd?
        invariant r <= p || r == 0
        decreases r
      {
        assert TileAt(S(), out, r);
        if hd(r) == Nil {
          r := r - 1;
        } else {
          var k := hd(r).k;
          forall e | r - k < e <= r ensures !hd(e).Hd? { assert TileAt(S(), out, start(r)) && TileAt(S(), out, e); }
          r := r - k;
        }
      }
    }

    /** MAK_free_block_ending_at. */
    method FreeBlockEndingAt(p: int, ghost out: set<int>) returns (r: int)
      requires Tiled(S(), out) && (start(p) == 0 || start(p) == p) && p >= 1 && out <= {p}
      ensures r != 0 ==> EndsAt(S(), out, p, r)
      ensures r == 0 ==> forall q :: !EndsAt(S(), out, p, q)
    {
      var q := p - 1;
      while hd(q).Fwd?
        invariant 0 <= q <= p - 1 && start(q) == start(p - 1)
        decreases q
      {
        assert TileAt(S(), out, q);
        assert TileAt(S(), out, start(q));
        q := q - hd(q).k;
      }
      if hd(q).Hd? {
        FoundHeader(S(), out, p, q);
        return if hd(q).free then q else 0;
      }
      ghost var x := q;
      q := PrevBlock(p - 1, out);
      FoundNil(S(), out, p, x, q);
      if q != 0 && hd(q).free && q * HBLKSIZE + hd(q).sz == p * HBLKSIZE {
        return q;
      }
      return 0;
    }

    /** Makes y, which follows x, part of x; `listed`, one of the two, leaves its free list first. */
    method Merge(x: int, y: int, listed: int)
      requires hd(x).Hd? && hd(y).Hd? && hd(listed).Hd? && x != y
      modifies this
      ensures S() == Merged(Removed(old(S()), listed), x, y)
    {
      RemoveFromFl(listed);
      start := Joined(start, x, y);
      hd := Upd(hd, x, SetSize(hd(x), SizeOf(hd(x)) + SizeOf(hd(y))));
      hd := Upd(hd, y, Nil);
    }

    /** Coalesce with the predecessor, if possible. */
    method TakePrev(p: int) returns (x: int, ghost prev: int)
      requires InHand(S(), p)
      modifies this
      ensures PrevFound(old(S()), p, prev) && S() == AbsorbPrev(old(S()), p, prev) && x == Lo(p, prev)
    {
      ghost var h := S();
      BlockFacts(h, {p}, p);
      Parts(h, {p});
      var q := FreeBlockEndingAt(p, {p});
      x, prev := p, q;
      if q != 0 {
        NoOverflow(h, {p}, q, p);
        if hd(p).sz + hd(q).sz < MAX_SIGNED {
          Merge(q, p, q);
          x := q;
        }
      }
    }

    /** Coalesce with the successor, if possible. */
    method TakeNext(x: int, next: int)
      requires InHand(S(), x) && next == x + Len(hd(x))
      modifies this
      ensures S() == AbsorbNext(old(S()), x)
    {
      ghost var h := S();
      BlockFacts(h, {x}, x);
      if hd(next).Hd? && hd(next).free {
        Parts(h, {x});
        NoOverflow(h, {x}, x, next);
        if hd(x).sz + hd(next).sz < MAX_SIGNED {
          Merge(x, next, next);
        }
      }
    }

    /** What MAK_newfreehblk and MAK_freehblk do once the block at p is set up: coalesce it with its
        neighbours, then put the result on its list. */
    method Coalesce(p: int)
      requires InHand(S(), p)
      modifies this
      ensures Good(S(), {}) && total == old(total)
      ensures forall c :: old(Counted(S(), c)) ==> Counted(S(), c + old(Len(hd(p))) * HBLKSIZE)
      ensures exists lo, n :: Freed(old(S()), S(), p, old(Len(hd(p))), lo, n)
    {
      ghost var h := S();
      var next := p + Blocks(hd(p).sz);
      var x; ghost var prev;
      x, prev := TakePrev(p);
      AbsorbPrevOk(h, p, prev);
      TakeNext(x, next);
      AbsorbNextOk(AbsorbPrev(h, p, prev), x);
      AddToFl(x);
      assert S() == Coalesced(h, p, prev);
      CoalescedOk(h, p, prev);
    }

    /** MAK_newfreehblk: n pages from p on are new to the heap. */
    method NewFree(p: int, n: int)
      requires Valid(S()) && NewPages(S(), p, n)
      modifies this
      ensures Valid(S()) && total == old(total) + n * HBLKSIZE
      ensures exists lo, m :: Freed(old(S()), S(), p, n, lo, m)
    {
      ghost var h := S();
      InstalledOk(h, p, n);
      hd := Upd(hd, p, Hd(n * HBLKSIZE, false, 0, 0));
      start := Claimed(start, p, p + n, p);
      ghost var h1 := S();
      assert Counted(h1, total);
      Coalesce(p);
      ghost var h2 := S();
      total := total + n * HBLKSIZE;
      AgreeGood(h2, S(), {});
      ghost var lo, m :| Freed(h1, h2, p, n, lo, m);
      FreedAlso(h1, h2, h, S(), p, n, lo, m);
    }

    /** MAK_freehblk: the block at p, in use until now, is free. A free one is refused. */
    method Free(p: int) returns (ok: bool)
      requires Valid(S()) && hd(p).Hd?
      modifies this
      ensures Valid(S())
      ensures ok <==> !old(FreeAt(S(), p))
      ensures !ok ==> S() == old(S())
      ensures ok ==>
                var len := old(Blocks(hd(p).sz));
                total == old(total) + len * HBLKSIZE && exists lo, n :: Freed(old(S()), S(), p, len, lo, n)
    {
      if hd(p).free { return false; }
      ok := true;
      ghost var h := S();
      ReleasedOk(h, p);
      var len := Blocks(hd(p).sz);
      RemoveCounts(p, len);
      hd := Upd(hd, p, Hd(len * HBLKSIZE, true, hd(p).next, hd(p).prev));
      ghost var h1 := S();
      AgreeGood(Released(h, p), h1, {p});
      assert Counted(h1, total);
      BlockFacts(h, {}, p);
      Coalesce(p);
      ghost var h2 := S();
      total := total + len * HBLKSIZE;
      AgreeGood(h2, S(), {});
      ghost var lo, n :| Freed(h1, h2, p, len, lo, n);
      ReleasedViews(h, p);
      FreedAlso(h1, h2, h, S(), p, len, lo, n);
    }

    /** MAK_remove_counts. */
    method RemoveCounts(p: int, n: int)
      modifies this`hd
      ensures forall e :: hd(e) == if p < e < p + n then Nil else old(hd)(e)
    {
      var e := p + 1;
      while e < p + n
        invariant p + 1 <= e && (e <= p + n || e == p + 1)
        invariant forall x :: hd(x) == if p < x < e then Nil else old(hd)(x)
      {
        hd := Upd(hd, e, Nil);
        e := e + 1;
      }
    }

    /** MAK_install_counts. */
    method InstallCounts(p: int, n: int)
      modifies this`hd
      ensures forall e :: hd(e) == if p < e < p + n then Fwd(Count(e - p)) else old(hd)(e)
    {
      var e := p + 1;
      while e < p + n
        invariant p + 1 <= e && (e <= p + n || e == p + 1)
        invariant forall x :: hd(x) == if p < x < e then Fwd(Count(x - p)) else old(hd)(x)
      {
        hd := Upd(hd, e, Fwd(Count(e - p)));
        e := e + 1;
      }
    }

    /** MAK_get_first_part. */
    method GetFirstPart(p: int, need: int)
      requires hd(p).Hd?
      modifies this
      ensures S() == FirstPart(old(S()), p, need)
    {
      var size := hd(p).sz;
      RemoveFromFl(p);
      if Blocks(size) == need { return; }
      ghost var h1 := S();
      var rest := p + need;
      hd := Upd(hd, rest, Hd(size - need * HBLKSIZE, false, 0, 0));
      start := Claimed(start, rest, p + Blocks(size), rest);
      assert S() == WithRest(h1, p, need, size);
      AddToFl(rest);
    }

    /** The rest of MAK_allochblk_nth once block p of list n is chosen. */
    method Take(p: int, sz: int)
      requires Valid(S()) && Fits(S(), p, sz)
      modifies this
      ensures Valid(S()) && total == old(total) - Blocks(sz) * HBLKSIZE
      ensures Taken(old(S()), S(), p, sz)
    {
      ghost var h := S();
      GetFirstPart(p, Blocks(sz));
      FirstPartTotal(h, p, Blocks(sz));
      PutToUse(p, sz);
      TakeOk(h, S(), p, sz);
    }

    /** The block gets its object size and its counts. */
    method PutToUse(p: int, sz: int)
      modifies this
      ensures SetUp(old(S()), S(), p, sz) && total == old(total) - Blocks(sz) * HBLKSIZE
    {
      hd := Upd(hd, p, Hd(sz, false, NextOf(hd(p)), PrevOf(hd(p))));
      total := total - Blocks(sz) * HBLKSIZE;
      InstallCounts(p, Blocks(sz));
    }

    /** MAK_allochblk_nth: the first block of list n that is worth taking. */
    method AllocNth(sz: int, n: int, maySplit: bool) returns (r: int)
      requires Valid(S()) && sz >= 1
      modifies this
      ensures Valid(S())
      ensures r == 0 ==> S() == old(S()) && forall q :: q in lists(n) ==> !Suits(S(), q, sz, maySplit)
      ensures r != 0 ==> total == old(total) - Blocks(sz) * HBLKSIZE && Taken(old(S()), S(), r, sz)
      ensures r != 0 ==> Picks(old(S()), n, sz, maySplit, r)
    {
      var need := Blocks(sz);
      ghost var q := lists(n);
      assert ListAt(S(), {}, n) by { assert GoodAt(S(), {}, n); }
      var p := fl(n);
      ghost var i := 0;
      while p != 0
        invariant 0 <= i <= |q| && p == At(q, i) && S() == old(S())
        invariant Passed(S(), q, i, sz, maySplit) && forall j :: 0 <= j < i ==> !Worth(S(), q, j, sz, maySplit)
        decreases |q| - i
      {
        assert NodeAt(hd, q, i);
        assert q[i] in q;
        BlockFacts(S(), {}, p);
        var skip := Skips(hd, p, need, maySplit);
        SkipOk(S(), n, i, sz, maySplit);
        if !skip {
          Take(p, sz);
          return p;
        }
        p := hd(p).next;
        i := i + 1;
      }
      assert i == |q| by { assert i < |q| ==> NodeAt(hd, q, i); }
      AllPassed(S(), q, sz, maySplit);
      r := 0;
    }

    /** MAK_allochblk: an exact fit if there is one, else a block of the first list that has one large enough.
        It fails only if no free block is large enough. */
    method Alloc(sz: int) returns (r: int)
      requires Valid(S()) && sz >= 1
      modifies this
      ensures Valid(S())
      ensures r == 0 <==> forall q :: old(FreeAt(S(), q)) ==> old(Len(hd(q))) < Blocks(sz)
      ensures r == 0 ==> S() == old(S())
      ensures r != 0 ==> total == old(total) - Blocks(sz) * HBLKSIZE && Taken(old(S()), S(), r, sz)
      ensures r != 0 ==> Best(old(S()), sz, r)
    {
      var blocks := Blocks(sz);
      ghost var h := S();
      if blocks * HBLKSIZE >= MAX_SIGNED {
        forall q | FreeAt(h, q) ensures Len(h.hd(q)) < blocks { BelowTop(h, q); }
        return 0;
      }
      var startList := FlIndex(blocks);
      r := AllocNth(sz, startList, false);
      if r != 0 { return; }
      ghost var first := startList;
      NoExact(h, sz);
      if startList < UNIQUE_THRESHOLD {
        startList := startList + 1;
      }
      var i := startList;
      while i <= N_HBLK_FLS
        invariant S() == h && startList <= i
        invariant forall k, q :: startList <= k < i && q in h.lists(k) ==> !Suits(h, q, sz, true)
      {
        r := AllocNth(sz, i, true);
        if r != 0 {
          NoneBelow(h, sz, startList, i);
          return;
        }
        i := i + 1;
      }
      Exhausted(h, sz, first, startList, i);
      return 0;
    }
  }

  lemma BelowTop(h: Heap, q: int)
    requires Good(h, {}) && FreeAt(h, q)
    ensures Len(h.hd(q)) * HBLKSIZE < MAX_SIGNED
  {
    BlockFacts(h, {}, q);
    assert TileAt(h, {}, q) by { assert GoodAt(h, {}, q); }
    var last := q + Len(h.hd(q)) - 1;
    assert h.start(last) == q;
    assert TileAt(h, {}, last) by { assert GoodAt(h, {}, last); }
  }

  /** The lists searched are all that could have helped: shorter lists hold smaller blocks, and up to
      UNIQUE_THRESHOLD the first list holds exact fits only. */
  lemma Exhausted(h: Heap, sz: int, first: int, startList: int, i: int)
    requires Good(h, {}) && sz >= 1 && first == FlIndex(Blocks(sz)) && i > N_HBLK_FLS
    requires startList == if first < UNIQUE_THRESHOLD then first + 1 else first
    requires forall q :: q in h.lists(first) ==> !Suits(h, q, sz, false)
    requires forall k, q :: startList <= k < i && q in h.lists(k) ==> !Suits(h, q, sz, true)
    ensures forall q :: FreeAt(h, q) ==> Len(h.hd(q)) < Blocks(sz)
  {
    forall q | FreeAt(h, q) ensures Len(h.hd(q)) < Blocks(sz) {
      var k := FlIndex(Len(h.hd(q)));
      assert ListAt(h, {}, k) by { assert GoodAt(h, {}, k); }
      assert q in h.lists(k);
      assert k == first ==> !Suits(h, q, sz, false);
      assert startList <= k < i ==> !Suits(h, q, sz, true);
      if Len(h.hd(q)) >= Blocks(sz) {
        FlIndexMonotone(Blocks(sz), Len(h.hd(q)));
        assert false;
      }
    }
  }

  /** What Valid says to a reader: blocks do not overlap, free ones are never adjacent, and each free
      block is at exactly one place of exactly one list, the one for its size. */
  lemma ValidMeans(h: Heap, p: int, q: int)
    requires Valid(h) && h.hd(p).Hd? && h.hd(q).Hd?
    ensures p < q ==> p + Len(h.hd(p)) <= q
    ensures FreeAt(h, p) && FreeAt(h, q) ==> p + Len(h.hd(p)) != q
    ensures FreeAt(h, p) ==> exists i, k ::
                && 0 <= k < |h.lists(i)| && h.lists(i)[k] == p && i == FlIndex(Len(h.hd(p)))
                && forall i', k' :: 0 <= k' < |h.lists(i')| && h.lists(i')[k'] == p ==> i' == i && k' == k
  {
    assert GoodAt(h, {}, p) && GoodAt(h, {}, q);
    if FreeAt(h, p) {
      var i := FlIndex(Len(h.hd(p)));
      assert ListAt(h, {}, i) by { assert GoodAt(h, {}, i); }
      assert p in h.lists(i);
      var k :| 0 <= k < |h.lists(i)| && h.lists(i)[k] == p;
      forall i', k' | 0 <= k' < |h.lists(i')| && h.lists(i')[k'] == p ensures i' == i && k' == k {
        assert ListAt(h, {}, i') by { assert GoodAt(h, {}, i'); }
        assert h.lists(i')[k'] in h.lists(i');
      }
    }
  }

  lemma FirstPartTotal(h: Heap, p: int, need: int)
    requires h.hd(p).Hd?
    ensures FirstPart(h, p, need).total == h.total
  {
  }

  lemma TakeOk(h: Heap, h': Heap, p: int, sz: int)
    requires Valid(h) && Fits(h, p, sz) && SetUp(FirstPart(h, p, Blocks(sz)), h', p, sz)
    requires h'.total == h.total - Blocks(sz) * HBLKSIZE
    ensures Valid(h') && Taken(h, h', p, sz)
  {
    var a := Allocated(h, p, sz);
    SameOutcome(h, h', p, sz);
    AllocatedOk(h, p, sz);
    AgreeGood(a, h', {});
    AgreeTaken(h, a, h', p, sz);
    assert Counted(a, h'.total);
  }

  lemma AgreeTaken(h: Heap, h1: Heap, h2: Heap, p: int, sz: int)
    requires Taken(h, h1, p, sz) && Agree(h1, h2)
    ensures Taken(h, h2, p, sz)
  {
    forall e ensures ViewAt(h2, e) == ViewAt(h1, e) {}
  }

  /** The tests of the search loop: is block p passed over? */
  predicate Skips(hd: int -> Hdr, p: int, need: int, maySplit: bool)
    requires hd(p).Hd?
  {
    var avail, next := hd(p).sz, hd(p).next;
    || avail < need * HBLKSIZE
    || (avail != need * HBLKSIZE && !maySplit)
    || (avail != need * HBLKSIZE && next != 0 && SizeOf(hd(next)) < avail && SizeOf(hd(next)) >= need * HBLKSIZE)
  }

  /** Block p of the heap would do. */
  ghost predicate Suits(h: Heap, p: int, sz: int, maySplit: bool) {
    if maySplit then Len(h.hd(p)) >= Blocks(sz) else Len(h.hd(p)) == Blocks(sz)
  }

  /** Block i of list q is worth taking: it suits, and it is an exact fit, or the last of the list, or the
      next one is too short or not shorter. */
  ghost predicate Worth(h: Heap, q: seq<int>, i: int, sz: int, maySplit: bool) {
    && 0 <= i < |q| && Suits(h, q[i], sz, maySplit)
    && (Len(h.hd(q[i])) == Blocks(sz) || i == |q| - 1
        || Len(h.hd(q[i + 1])) < Blocks(sz) || Len(h.hd(q[i + 1])) >= Len(h.hd(q[i])))
  }

  /** r is the first block of list n that is worth taking. */
  ghost predicate Picks(h: Heap, n: int, sz: int, maySplit: bool, r: int) {
    exists i :: Worth(h, h.lists(n), i, sz, maySplit) && h.lists(n)[i] == r
                && forall j :: 0 <= j < i ==> !Worth(h, h.lists(n), j, sz, maySplit)
  }

  ghost predicate HasExact(h: Heap, sz: int) { exists q :: FreeAt(h, q) && Len(h.hd(q)) == Blocks(sz) }

  /** No free block on a list before n is large enough. */
  ghost predicate TooShortBefore(h: Heap, n: int, sz: int) {
    forall q :: FreeAt(h, q) && FlIndex(Len(h.hd(q))) < n ==> Len(h.hd(q)) < Blocks(sz)
  }

  /** r is an exact fit if there is one, and otherwise comes from the first list that has a block large enough. */
  ghost predicate Best(h: Heap, sz: int, r: int) {
    if HasExact(h, sz) then Picks(h, FlIndex(Blocks(sz)), sz, false, r) && Len(h.hd(r)) == Blocks(sz)
    else exists n :: Picks(h, n, sz, true, r) && TooShortBefore(h, n, sz)
  }

  lemma NoExact(h: Heap, sz: int)
    requires Good(h, {}) && forall q :: q in h.lists(FlIndex(Blocks(sz))) ==> !Suits(h, q, sz, false)
    ensures !HasExact(h, sz)
  {
    var n := FlIndex(Blocks(sz));
    assert ListAt(h, {}, n) by { assert GoodAt(h, {}, n); }
  }

  lemma NoneBelow(h: Heap, sz: int, startList: int, i: int)
    requires Good(h, {}) && sz >= 1 && !HasExact(h, sz)
    requires var first := FlIndex(Blocks(sz)); startList == if first < UNIQUE_THRESHOLD then first + 1 else first
    requires forall k, q :: startList <= k < i && q in h.lists(k) ==> !Suits(h, q, sz, true)
    ensures TooShortBefore(h, i, sz)
  {
    forall q | FreeAt(h, q) && FlIndex(Len(h.hd(q))) < i ensures Len(h.hd(q)) < Blocks(sz) {
      var k := FlIndex(Len(h.hd(q)));
      assert ListAt(h, {}, k) by { assert GoodAt(h, {}, k); }
      assert q in h.lists(k) && Len(h.hd(q)) != Blocks(sz);
      assert startList <= k ==> !Suits(h, q, sz, true);
      if Len(h.hd(q)) > Blocks(sz) { FlIndexMonotone(Blocks(sz), Len(h.hd(q))); }
    }
  }

  /** The blocks passed do not suit, unless the next one does. */
  ghost predicate Passed(h: Heap, q: seq<int>, i: int, sz: int, maySplit: bool) {
    || (forall j :: 0 <= j < i && j < |q| ==> !Suits(h, q[j], sz, maySplit))
    || (maySplit && 0 <= i < |q| && Suits(h, q[i], sz, maySplit))
  }

  lemma SkipOk(h: Heap, n: int, i: int, sz: int, maySplit: bool)
    requires Good(h, {}) && ListAt(h, {}, n) && 0 <= i < |h.lists(n)| && Passed(h, h.lists(n), i, sz, maySplit)
             && sz >= 1
    requires h.hd(h.lists(n)[i]).Hd?
    ensures if Skips(h.hd, h.lists(n)[i], Blocks(sz), maySplit) then Passed(h, h.lists(n), i + 1, sz, maySplit)
            else Fits(h, h.lists(n)[i], sz)
    ensures Skips(h.hd, h.lists(n)[i], Blocks(sz), maySplit) <==> !Worth(h, h.lists(n), i, sz, maySplit)
  {
    var q := h.lists(n);
    var p := q[i];
    assert p in q;
    BlockFacts(h, {}, p);
    assert NodeAt(h.hd, q, i);
    if i + 1 < |q| {
      var next := q[i + 1];
      assert next in q;
      BlockFacts(h, {}, next);
    }
  }

  lemma AllPassed(h: Heap, q: seq<int>, sz: int, maySplit: bool)
    requires Passed(h, q, |q|, sz, maySplit)
    ensures forall p :: p in q ==> !Suits(h, p, sz, maySplit)
  {
  }

  lemma ReleasedViews(h: Heap, p: int)
    requires Good(h, {}) && h.hd(p).Hd? && !h.hd(p).free
    ensures forall e :: e != p ==> ViewAt(Released(h, p), e) == ViewAt(h, e)
  {
    Parts(h, {});
    InteriorNotFree(h, {}, p);
  }

  /** Freed speaks of the state before only outside block p. */
  lemma FreedAlso(h1: Heap, h2: Heap, h: Heap, h': Heap, p: int, len: int, lo: int, n: int)
    requires Freed(h1, h2, p, len, lo, n) && len >= 1
    requires forall e :: e != p ==> ViewAt(h, e) == ViewAt(h1, e)
    requires forall e :: ViewAt(h', e) == ViewAt(h2, e)
    ensures Freed(h, h', p, len, lo, n)
  {
  }

  const MAX_SIGNED := 0x8000_0000_0000_0000

  /** Adjacent blocks lie below the top of the address space, so their sizes do not overflow a
      signed word when added. */
  lemma NoOverflow(h: Heap, out: set<int>, x: int, y: int)
    requires Tiled(h, out) && h.hd(x).Hd? && h.hd(y).Hd? && y == x + Len(h.hd(x))
    ensures h.hd(x).sz + h.hd(y).sz < MAX_SIGNED
  {
    assert TileAt(h, out, x) && TileAt(h, out, y);
    var last := y + Len(h.hd(y)) - 1;
    assert h.start(last) == y;
    assert TileAt(h, out, last);
  }

  lemma {:induction false} TotalZero(bytes: int -> int, n: int)
    requires forall i :: bytes(i) == 0
    ensures Total(bytes, n) == 0
    decreases n
  {
    if n >= 0 { TotalZero(bytes, n - 1); }
  }
}
