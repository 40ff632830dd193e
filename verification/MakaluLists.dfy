/** Removing a block from its doubly linked free list and adding one. */
module MakaluLists {
  import opened MakaluBlocks

  ghost function ShapeOf(d: Hdr): Hdr { if d.Hd? then Hd(d.sz, d.free, 0, 0) else d }

  /** The headers differ at most in their links. */
  ghost predicate Shape(hd: int -> Hdr, hd': int -> Hdr) { forall x :: ShapeOf(hd'(x)) == ShapeOf(hd(x)) }

  lemma TiledShape(h: Heap, h': Heap, out: set<int>)
    requires Tiled(h, out) && Shape(h.hd, h'.hd) && h'.start == h.start
    ensures Tiled(h', out)
  {
    forall p ensures TileAt(h', out, p) {
      assert TileAt(h, out, p);
      assert ShapeOf(h'.hd(p)) == ShapeOf(h.hd(p)) && ShapeOf(h'.hd(h.start(p))) == ShapeOf(h.hd(h.start(p)));
    }
  }

  lemma TiledOut(h: Heap, out: set<int>, p: int)
    requires Tiled(h, out) && FreeAt(h, p)
    ensures Tiled(h, out + {p})
  {
    forall x ensures TileAt(h, out + {p}, x) { assert TileAt(h, out, x); }
  }

  lemma ApartShape(h: Heap, h': Heap, out: set<int>, out': set<int>)
    requires Apart(h, out) && Shape(h.hd, h'.hd) && out <= out'
    ensures Apart(h', out')
  {
    forall p ensures ApartAt(h', out', p) {
      assert ApartAt(h, out, p);
      var e := p + Len(h.hd(p));
      assert ShapeOf(h'.hd(p)) == ShapeOf(h.hd(p)) && ShapeOf(h'.hd(e)) == ShapeOf(h.hd(e));
    }
  }

  // ---------- unlinking ----------

  ghost function Unlinked(hd: int -> Hdr, p: int): int -> Hdr {
    var d := hd(p);
    var hd1 := if PrevOf(d) == 0 then hd else Upd(hd, PrevOf(d), SetNext(hd(PrevOf(d)), NextOf(d)));
    if NextOf(d) == 0 then hd1 else Upd(hd1, NextOf(d), SetPrev(hd1(NextOf(d)), PrevOf(d)))
  }

  lemma DListRemove(hd: int -> Hdr, head: int, q: seq<int>, k: int)
    requires DList(hd, head, q) && 0 <= k < |q|
    ensures var q' := q[..k] + q[k + 1..];
            && DList(Unlinked(hd, q[k]), if k == 0 then At(q, 1) else head, q')
            && (PrevOf(hd(q[k])) == 0 <==> k == 0) && NextOf(hd(q[k])) == At(q, k + 1)
            && Shape(hd, Unlinked(hd, q[k])) && forall x :: x !in q ==> Unlinked(hd, q[k])(x) == hd(x)
  {
    var q', hd' := q[..k] + q[k + 1..], Unlinked(hd, q[k]);
    assert NodeAt(hd, q, k) && NodeAt(hd, q, k - 1) && NodeAt(hd, q, k + 1);
    forall i ensures NodeAt(hd', q', i) { DListRemoveAt(hd, head, q, k, i); }
    assert forall i :: 0 <= i < |q'| ==> q'[i] == if i < k then q[i] else q[i + 1];
  }

  lemma DListRemoveAt(hd: int -> Hdr, head: int, q: seq<int>, k: int, i: int)
    requires DList(hd, head, q) && 0 <= k < |q|
    ensures NodeAt(Unlinked(hd, q[k]), q[..k] + q[k + 1..], i)
  {
    var q' := q[..k] + q[k + 1..];
    if 0 <= i < |q'| {
      var j := if i < k then i else i + 1;
      assert q'[i] == q[j];
      assert NodeAt(hd, q, k) && NodeAt(hd, q, j);
      assert k > 0 ==> NodeAt(hd, q, k - 1);
      assert k + 1 < |q| ==> NodeAt(hd, q, k + 1);
    }
  }

  /** The block at p leaves its list: it is in hand from now on. */
  lemma RemovedOk(h: Heap, out: set<int>, p: int)
    requires Good(h, out) && FreeAt(h, p) && p !in out
    ensures var h' := Removed(h, p);
            && Good(h', out + {p}) && Shape(h.hd, h'.hd) && h'.start == h.start && h'.total == h.total
            && forall x :: Counted(h, x) ==> Counted(h', x - h.hd(p).sz)
  {
    Parts(h, out);
    var h', i := Removed(h, p), FlIndex(Len(h.hd(p)));
    RemovedLists(h, out, p);
    TiledShape(h, h', out);
    TiledOut(h', out, p);
    ApartShape(h, h', out, out + {p});
    IndexRange(h, out, p);
    forall n | n >= N_HBLK_FLS ensures Total(h'.bytes, n) == Total(h.bytes, n) - h.hd(p).sz {
      TotalUpd(h.bytes, i, h.bytes(i) - h.hd(p).sz, n);
    }
    MakeGood(h', out + {p});
  }

  lemma IndexRange(h: Heap, out: set<int>, p: int)
    requires Tiled(h, out) && h.hd(p).Hd?
    ensures Len(h.hd(p)) >= 1 && 1 <= FlIndex(Len(h.hd(p))) <= N_HBLK_FLS
  {
    assert TileAt(h, out, p);
    FlIndexMonotone(Len(h.hd(p)), Len(h.hd(p)));
  }

  lemma RemovedLists(h: Heap, out: set<int>, p: int)
    requires ListsOk(h, out) && FreeAt(h, p) && p !in out
    ensures ListsOk(Removed(h, p), out + {p}) && Shape(h.hd, Removed(h, p).hd) && FreeAt(Removed(h, p), p)
  {
    var h', i := Removed(h, p), FlIndex(Len(h.hd(p)));
    var q := h.lists(i);
    assert ListAt(h, out, i);
    assert p in q;
    var k :| 0 <= k < |q| && q[k] == p;
    DListRemove(h.hd, h.fl(i), q, k);
    assert ShapeOf(h'.hd(p)) == ShapeOf(h.hd(p));
    forall j ensures ListAt(h', out + {p}, j) {
      assert ListAt(h, out, j);
      if j == i { RemovedHere(h, out, p, k); } else { RemovedElsewhere(h, out, p, k, j); }
    }
  }

  lemma RemovedHere(h: Heap, out: set<int>, p: int, k: int)
    requires FreeAt(h, p) && p !in out
    requires var i := FlIndex(Len(h.hd(p))); ListAt(h, out, i) && 0 <= k < |h.lists(i)| && h.lists(i)[k] == p
    ensures ListAt(Removed(h, p), out + {p}, FlIndex(Len(h.hd(p))))
  {
    var h', i := Removed(h, p), FlIndex(Len(h.hd(p)));
    var q := h.lists(i);
    var q' := q[..k] + q[k + 1..];
    DListRemove(h.hd, h.fl(i), q, k);
    WithoutIs(q, k);
    SumWithout(h.hd, q, k);
    forall x ensures SizeOf(h'.hd(x)) == SizeOf(h.hd(x)) { assert ShapeOf(h'.hd(x)) == ShapeOf(h.hd(x)); }
    SumSame(h.hd, h'.hd, q');
    InWithout(q, k);
    forall x ensures x in q' <==> FreeAt(h', x) && x !in out + {p} && i == FlIndex(Len(h'.hd(x))) {
      assert ShapeOf(h'.hd(x)) == ShapeOf(h.hd(x));
    }
  }

  lemma InWithout(q: seq<int>, k: int)
    requires NoDup(q) && 0 <= k < |q|
    ensures forall x :: x in q[..k] + q[k + 1..] <==> x in q && x != q[k]
  {
    var q' := q[..k] + q[k + 1..];
    forall x | x in q && x != q[k] ensures x in q' {
      var i :| 0 <= i < |q| && q[i] == x;
      assert q'[if i < k then i else i - 1] == x;
    }
    forall x | x in q' ensures x in q && x != q[k] {
      var i :| 0 <= i < |q'| && q'[i] == x;
      assert q[if i < k then i else i + 1] == x;
    }
  }

  lemma RemovedElsewhere(h: Heap, out: set<int>, p: int, k: int, j: int)
    requires FreeAt(h, p) && p !in out && ListAt(h, out, j) && j != FlIndex(Len(h.hd(p)))
    requires var i := FlIndex(Len(h.hd(p))); ListAt(h, out, i) && 0 <= k < |h.lists(i)| && h.lists(i)[k] == p
    ensures ListAt(Removed(h, p), out + {p}, j)
  {
    var h', i := Removed(h, p), FlIndex(Len(h.hd(p)));
    DListRemove(h.hd, h.fl(i), h.lists(i), k);
    ListSame(h, h', out, out + {p}, j);
  }

  /** A list none of whose blocks changes. */
  lemma ListSame(h: Heap, h': Heap, out: set<int>, out': set<int>, j: int)
    requires ListAt(h, out, j) && h'.lists(j) == h.lists(j) && h'.fl(j) == h.fl(j) && h'.bytes(j) == h.bytes(j)
    requires forall x :: x in h.lists(j) ==> h'.hd(x) == h.hd(x)
    requires forall x :: (FreeAt(h', x) && x !in out' && j == FlIndex(Len(h'.hd(x)))) <==>
                         (FreeAt(h, x) && x !in out && j == FlIndex(Len(h.hd(x))))
    ensures ListAt(h', out', j)
  {
    var q := h.lists(j);
    forall i ensures NodeAt(h'.hd, q, i) {
      assert NodeAt(h.hd, q, i);
      if 0 <= i < |q| {
        var x := q[i];
        assert x in q;
      }
    }
    SumSame(h.hd, h'.hd, q);
  }

  // ---------- linking ----------

  ghost function Pushed(hd: int -> Hdr, p: int, second: int): int -> Hdr {
    var hd1 := Upd(hd, p, Hd(SizeOf(hd(p)), true, second, 0));
    if second == 0 then hd1 else Upd(hd1, second, SetPrev(hd1(second), p))
  }

  lemma DListAdd(hd: int -> Hdr, head: int, q: seq<int>, p: int)
    requires DList(hd, head, q) && p !in q && p != 0 && hd(p).Hd?
    ensures var hd' := Pushed(hd, p, head);
            && DList(hd', p, [p] + q)
            && (forall x :: x !in q && x != p ==> hd'(x) == hd(x))
            && Shape(Upd(hd, p, hd(p).(free := true)), hd')
  {
    var q', hd' := [p] + q, Pushed(hd, p, head);
    assert q != [] ==> NodeAt(hd, q, 0);
    forall i ensures NodeAt(hd', q', i) {
      assert NodeAt(hd, q, i - 1);
      if 1 <= i < |q'| { assert q'[i] == q[i - 1] && q[i - 1] in q; }
    }
    assert forall i :: 0 <= i < |q'| ==> q'[i] == if i == 0 then p else q[i - 1];
  }

  /** The block in hand goes on the list for its size; it has no free neighbour. */
  lemma AddedOk(h: Heap, p: int)
    requires Good(h, {p}) && h.hd(p).Hd? && p != 0
    requires !FreeAt(h, p + Len(h.hd(p))) && forall e :: FreeAt(h, e) && e != p ==> e + Len(h.hd(e)) != p
    ensures var h' := Added(h, p);
            && Good(h', {}) && Shape(Upd(h.hd, p, h.hd(p).(free := true)), h'.hd) && h'.start == h.start
            && h'.total == h.total
            && forall x :: Counted(h, x) ==> Counted(h', x + h.hd(p).sz)
  {
    Parts(h, {p});
    var h', i := Added(h, p), FlIndex(Len(h.hd(p)));
    AddedLists(h, p);
    AddedTiled(h, p);
    AddedApart(h, p);
    IndexRange(h, {p}, p);
    forall n | n >= N_HBLK_FLS ensures Total(h'.bytes, n) == Total(h.bytes, n) + h.hd(p).sz {
      TotalUpd(h.bytes, i, h.bytes(i) + h.hd(p).sz, n);
    }
    MakeGood(h', {});
  }

  lemma AddedLists(h: Heap, p: int)
    requires ListsOk(h, {p}) && h.hd(p).Hd? && p != 0
    ensures ListsOk(Added(h, p), {}) && Shape(Upd(h.hd, p, h.hd(p).(free := true)), Added(h, p).hd)
  {
    var h', i := Added(h, p), FlIndex(Len(h.hd(p)));
    assert ListAt(h, {p}, i);
    DListAdd(h.hd, h.fl(i), h.lists(i), p);
    forall j ensures ListAt(h', {}, j) {
      assert ListAt(h, {p}, j);
      if j == i { AddedHere(h, p); } else { AddedElsewhere(h, p, j); }
    }
  }

  lemma AddedHere(h: Heap, p: int)
    requires h.hd(p).Hd? && p != 0 && ListAt(h, {p}, FlIndex(Len(h.hd(p))))
    ensures ListAt(Added(h, p), {}, FlIndex(Len(h.hd(p))))
  {
    var h', i := Added(h, p), FlIndex(Len(h.hd(p)));
    var q := h.lists(i);
    DListAdd(h.hd, h.fl(i), q, p);
    var hd1 := Upd(h.hd, p, h.hd(p).(free := true));
    forall x ensures SizeOf(h'.hd(x)) == SizeOf(h.hd(x)) { assert ShapeOf(h'.hd(x)) == ShapeOf(hd1(x)); }
    SumSame(h.hd, h'.hd, [p] + q);
    assert ([p] + q)[1..] == q;
    forall x ensures x in [p] + q <==> FreeAt(h', x) && i == FlIndex(Len(h'.hd(x))) {
      assert ShapeOf(h'.hd(x)) == ShapeOf(hd1(x));
    }
  }

  lemma AddedElsewhere(h: Heap, p: int, j: int)
    requires h.hd(p).Hd? && p != 0 && ListAt(h, {p}, FlIndex(Len(h.hd(p)))) && ListAt(h, {p}, j)
             && j != FlIndex(Len(h.hd(p)))
    ensures ListAt(Added(h, p), {}, j)
  {
    var h', i := Added(h, p), FlIndex(Len(h.hd(p)));
    DListAdd(h.hd, h.fl(i), h.lists(i), p);
    var hd1 := Upd(h.hd, p, h.hd(p).(free := true));
    forall x ensures ShapeOf(h'.hd(x)) == ShapeOf(hd1(x)) {}
    ListSame(h, h', {p}, {}, j);
  }

  lemma AddedTiled(h: Heap, p: int)
    requires Tiled(h, {p}) && h.hd(p).Hd? && Shape(Upd(h.hd, p, h.hd(p).(free := true)), Added(h, p).hd)
    ensures Tiled(Added(h, p), {})
  {
    var h', hd1 := Added(h, p), Upd(h.hd, p, h.hd(p).(free := true));
    forall x ensures TileAt(h', {}, x) {
      assert TileAt(h, {p}, x);
      assert ShapeOf(h'.hd(x)) == ShapeOf(hd1(x)) && ShapeOf(h'.hd(h.start(x))) == ShapeOf(hd1(h.start(x)));
    }
  }

  lemma AddedApart(h: Heap, p: int)
    requires Apart(h, {p}) && h.hd(p).Hd? && Shape(Upd(h.hd, p, h.hd(p).(free := true)), Added(h, p).hd)
    requires !FreeAt(h, p + Len(h.hd(p))) && forall e :: FreeAt(h, e) && e != p ==> e + Len(h.hd(e)) != p
    requires Tiled(h, {p})
    ensures Apart(Added(h, p), {})
  {
    var h', hd1 := Added(h, p), Upd(h.hd, p, h.hd(p).(free := true));
    forall x ensures ApartAt(h', {}, x) {
      assert ApartAt(h, {p}, x) && TileAt(h, {p}, p);
      var e := x + Len(h.hd(x));
      assert ShapeOf(h'.hd(x)) == ShapeOf(hd1(x)) && ShapeOf(h'.hd(e)) == ShapeOf(hd1(e));
    }
  }
}
