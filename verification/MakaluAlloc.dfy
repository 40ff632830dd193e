/** Allocating blocks: taking the first part of a free block, and finding one whenever there is one. */
module MakaluAlloc {
  import opened MakaluBlocks
  import opened MakaluLists
  import opened MakaluCoalesce
  import opened MakaluFree

  /** The block at r, free before, is in use for objects of sz bytes; what is left of it is free. */
  ghost predicate Taken(h: Heap, h': Heap, r: int, sz: int) {
    var need, v := Blocks(sz), ViewAt(h, r);
    && v.FreeBlock? && need <= v.pages && ViewAt(h', r) == UsedBlock(sz)
    && (need < v.pages ==> ViewAt(h', r + need) == FreeBlock(v.pages - need))
    && forall e :: e != r && !(need < v.pages && e == r + need) ==> ViewAt(h', e) == ViewAt(h, e)
  }

  /** The allocation as one change of state. */
  ghost function Allocated(h: Heap, p: int, sz: int): Heap {
    var h2 := Split(Removed(h, p), p, sz);
    if Blocks(sz) < Len(h.hd(p)) then Added(h2, p + Blocks(sz)) else h2
  }

  ghost predicate Fits(h: Heap, p: int, sz: int) {
    Good(h, {}) && FreeAt(h, p) && sz >= 1 && Blocks(sz) <= Len(h.hd(p))
  }

  lemma RemovedFacts(h: Heap, p: int)
    requires Good(h, {}) && FreeAt(h, p)
    ensures var h1 := Removed(h, p);
            && Good(h1, {p}) && FreeAt(h1, p) && Len(h1.hd(p)) == Len(h.hd(p)) && SizeOf(h1.hd(p)) == h.hd(p).sz
            && (forall e :: ViewAt(h1, e) == ViewAt(h, e))
            && (forall c :: Counted(h, c) ==> Counted(h1, c - Len(h.hd(p)) * HBLKSIZE))
  {
    RemovedOk(h, {}, p);
    assert {} + {p} == {p};
    ViewShape(h, Removed(h, p));
    BlockFacts(h, {}, p);
  }

  /** The remainder has a block in use before it and no free block after it. */
  lemma RestApart(h: Heap, h1: Heap, p: int, sz: int)
    requires Good(h, {}) && FreeAt(h, p) && (forall e :: ViewAt(h1, e) == ViewAt(h, e))
    requires Good(h1, {p}) && FreeAt(h1, p) && sz >= 1 && Blocks(sz) < Len(h1.hd(p)) && Len(h1.hd(p)) == Len(h.hd(p))
    requires var h2, rest := Split(h1, p, sz), p + Blocks(sz);
             Good(h2, {rest}) && Len(h2.hd(rest)) == Len(h1.hd(p)) - Blocks(sz)
    ensures var h2, rest := Split(h1, p, sz), p + Blocks(sz);
            && !FreeAt(h2, rest + Len(h2.hd(rest)))
            && forall e :: FreeAt(h2, e) && e != rest ==> e + Len(h2.hd(e)) != rest
  {
    var h2, rest, end := Split(h1, p, sz), p + Blocks(sz), p + Len(h1.hd(p));
    assert ApartAt(h, {}, p) by { assert GoodAt(h, {}, p); }
    assert ViewAt(h1, end) == ViewAt(h, end);
    assert h2.hd(end) == h1.hd(end);
    forall e | FreeAt(h2, e) && e != rest ensures e + Len(h2.hd(e)) != rest {
      BlockFacts(h2, {rest}, e);
      assert TileAt(h2, {rest}, e) by { assert GoodAt(h2, {rest}, e); }
      assert TileAt(h2, {rest}, p) by { assert GoodAt(h2, {rest}, p); }
      assert h2.start(rest - 1) == p;
    }
  }

  lemma AllocatedOk(h: Heap, p: int, sz: int)
    requires Fits(h, p, sz)
    ensures Good(Allocated(h, p, sz), {}) && Taken(h, Allocated(h, p, sz), p, sz)
    ensures forall c :: Counted(h, c) ==> Counted(Allocated(h, p, sz), c - Blocks(sz) * HBLKSIZE)
  {
    var h1 := Removed(h, p);
    RemovedFacts(h, p);
    SplitOk(h1, p, sz);
    var h2, need, rest := Split(h1, p, sz), Blocks(sz), p + Blocks(sz);
    SplitViews(h1, p, sz);
    BlockFacts(h, {}, p);
    if need < Len(h.hd(p)) {
      RestApart(h, h1, p, sz);
      AddRest(h1, h2, p, sz);
      forall c | Counted(h, c) ensures Counted(Allocated(h, p, sz), c - need * HBLKSIZE) {
        assert Counted(h1, c - Len(h.hd(p)) * HBLKSIZE);
        assert Counted(h2, c - Len(h.hd(p)) * HBLKSIZE);
      }
    }
  }

  lemma AddRest(h1: Heap, h2: Heap, p: int, sz: int)
    requires var rest := p + Blocks(sz);
             && Good(h2, {rest}) && h2.hd(rest).Hd? && rest >= 1
             && !FreeAt(h2, rest + Len(h2.hd(rest)))
             && forall e :: FreeAt(h2, e) && e != rest ==> e + Len(h2.hd(e)) != rest
    ensures var rest := p + Blocks(sz);
            var h' := Added(h2, rest);
            && Good(h', {}) && ViewAt(h', rest) == FreeBlock(Len(h2.hd(rest)))
            && (forall e :: e != rest ==> ViewAt(h', e) == ViewAt(h2, e))
            && forall c :: Counted(h2, c) ==> Counted(h', c + Len(h2.hd(rest)) * HBLKSIZE)
  {
    var rest := p + Blocks(sz);
    AddedOk(h2, rest);
    AddedView(h2, rest);
    BlockFacts(h2, {rest}, rest);
  }

  lemma SplitViews(h: Heap, p: int, sz: int)
    requires Good(h, {p}) && FreeAt(h, p) && sz >= 1 && Blocks(sz) <= Len(h.hd(p))
    ensures var h2, rest := Split(h, p, sz), p + Blocks(sz);
            && ViewAt(h2, p) == UsedBlock(sz)
            && forall e :: e != p && !(e == rest && Blocks(sz) < Len(h.hd(p))) ==> ViewAt(h2, e) == ViewAt(h, e)
  {
    Parts(h, {p});
    InteriorNotFree(h, {p}, p);
  }

  // ---------- the order in which the code does it ----------

  /** A header for what remains of a block of `size` bytes after its first `need` pages. */
  ghost function WithRest(h: Heap, p: int, need: int, size: int): Heap {
    h.(hd := Upd(h.hd, p + need, Hd(size - need * HBLKSIZE, false, 0, 0)),
    start := Claimed(h.start, p + need, p + Blocks(size), p + need))
  }

  /** MAK_get_first_part: the remainder is set up and listed before the header of the block is. */
  ghost function FirstPart(h: Heap, p: int, need: int): Heap {
    if Len(h.hd(p)) == need then Removed(h, p)
    else Added(WithRest(Removed(h, p), p, need, SizeOf(h.hd(p))), p + need)
  }

  /** Then the header and the counts. */
  ghost predicate SetUp(h: Heap, h': Heap, p: int, sz: int) {
    && h'.fl == h.fl && h'.bytes == h.bytes && h'.lists == h.lists && h'.start == h.start
    && h'.hd(p) == Hd(sz, false, NextOf(h.hd(p)), PrevOf(h.hd(p)))
    && forall e :: e != p ==>
      h'.hd(e) == if p < e < p + Blocks(sz) then Fwd(Count(e - p)) else h.hd(e)
  }

  lemma SameOutcome(h: Heap, h': Heap, p: int, sz: int)
    requires Fits(h, p, sz) && SetUp(FirstPart(h, p, Blocks(sz)), h', p, sz)
    ensures Agree(Allocated(h, p, sz), h')
  {
    RemovedFacts(h, p);
    BlockFacts(h, {}, p);
    if Blocks(sz) < Len(h.hd(p)) {
      SecondElsewhere(h, p, sz);
      SameSplit(h, h', p, sz);
    } else {
      SameWhole(h, h', p, sz);
    }
  }

  lemma SameWhole(h: Heap, h': Heap, p: int, sz: int)
    requires Blocks(sz) == Len(h.hd(p)) == Len(Removed(h, p).hd(p)) && SetUp(Removed(h, p), h', p, sz)
    ensures Agree(Split(Removed(h, p), p, sz), h')
  {
  }

  /** The head of the remainder's list is not part of the block being split. */
  lemma SecondElsewhere(h: Heap, p: int, sz: int)
    requires Fits(h, p, sz) && Blocks(sz) < Len(h.hd(p))
    ensures var second := Removed(h, p).fl(FlIndex(Blocks(h.hd(p).sz - Blocks(sz) * HBLKSIZE)));
            second == 0 || second < p || second >= p + Len(h.hd(p))
  {
    var h1 := Removed(h, p);
    RemovedFacts(h, p);
    var i := FlIndex(Blocks(h.hd(p).sz - Blocks(sz) * HBLKSIZE));
    assert ListAt(h1, {p}, i) by { assert GoodAt(h1, {p}, i); }
    var second := h1.fl(i);
    if second != 0 {
      assert second in h1.lists(i);
      Parts(h1, {p});
      InteriorNotFree(h1, {p}, p);
    }
  }

  lemma SameSplit(h: Heap, h': Heap, p: int, sz: int)
    requires Blocks(sz) < Len(h.hd(p)) && sz >= 1 && p >= 1 && h.hd(p).Hd?
    requires var h1 := Removed(h, p); Len(h1.hd(p)) == Len(h.hd(p)) && SizeOf(h1.hd(p)) == SizeOf(h.hd(p))
    requires SetUp(FirstPart(h, p, Blocks(sz)), h', p, sz)
    requires var second := Removed(h, p).fl(FlIndex(Blocks(h.hd(p).sz - Blocks(sz) * HBLKSIZE)));
             second == 0 || second < p || second >= p + Len(h.hd(p))
    ensures Agree(Added(Split(Removed(h, p), p, sz), p + Blocks(sz)), h')
  {
  }
}
