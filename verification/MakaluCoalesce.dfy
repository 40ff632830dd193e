/** Changing the tiling: releasing, merging, installing and splitting blocks that are in hand. */
module MakaluCoalesce {
  import opened MakaluBlocks
  import opened MakaluLists

  lemma BlocksSum(a: int, b: int)
    requires a % HBLKSIZE == 0
    ensures Blocks(a + b) == Blocks(a) + Blocks(b)
    ensures Blocks(a) * HBLKSIZE == a
  {
  }

  /** None of the lists is concerned by a change to blocks in hand. */
  lemma ListsSame(h: Heap, h': Heap, out: set<int>, out': set<int>)
    requires ListsOk(h, out) && h'.lists == h.lists && h'.fl == h.fl && h'.bytes == h.bytes
    requires forall x :: FreeAt(h, x) && x !in out ==> h'.hd(x) == h.hd(x)
    requires forall x :: FreeAt(h', x) && x !in out' <==> FreeAt(h, x) && x !in out
    ensures ListsOk(h', out')
  {
    forall j ensures ListAt(h', out', j) {
      assert ListAt(h, out, j);
      ListSame(h, h', out, out', j);
    }
  }

  // ---------- merging ----------

  ghost function Joined(start: int -> int, x: int, y: int): int -> int { e => if start(e) == y then x else start(e) }

  /** The pages lo .. hi belong to block x. */
  ghost function Claimed(start: int -> int, lo: int, hi: int, x: int): int -> int {
    e => if lo <= e < hi then x else start(e)
  }

  /** Block y, which follows x, becomes part of it; both are in hand. */
  ghost function Merged(h: Heap, x: int, y: int): Heap {
    h.(hd := Upd(Upd(h.hd, x, SetSize(h.hd(x), SizeOf(h.hd(x)) + SizeOf(h.hd(y)))), y, Nil),
    start := Joined(h.start, x, y))
  }

  lemma MergedTiled(h: Heap, x: int, y: int)
    requires Tiled(h, {x, y}) && h.hd(x).Hd? && h.hd(y).Hd? && y == x + Len(h.hd(x)) && x != y
    ensures Tiled(Merged(h, x, y), {x})
    ensures Len(Merged(h, x, y).hd(x)) == Len(h.hd(x)) + Len(h.hd(y))
  {
    var h' := Merged(h, x, y);
    assert TileAt(h, {x, y}, x) && TileAt(h, {x, y}, y);
    BlocksSum(h.hd(x).sz, h.hd(y).sz);
    forall p ensures TileAt(h', {x}, p) { assert TileAt(h, {x, y}, p); }
  }

  lemma MergedOk(h: Heap, x: int, y: int)
    requires Good(h, {x, y}) && h.hd(x).Hd? && h.hd(y).Hd? && y == x + Len(h.hd(x)) && x != y
    ensures Good(Merged(h, x, y), {x})
    ensures Len(Merged(h, x, y).hd(x)) == Len(h.hd(x)) + Len(h.hd(y))
  {
    Parts(h, {x, y});
    var h' := Merged(h, x, y);
    MergedTiled(h, x, y);
    ListsSame(h, h', {x, y}, {x});
    forall p ensures ApartAt(h', {x}, p) { assert ApartAt(h, {x, y}, p); }
    MakeGood(h', {x});
  }

  // ---------- releasing ----------

  /** The block in use at p is marked free, its counts are removed, its size is that of the block. */
  ghost function Released(h: Heap, p: int): Heap {
    var n := Len(h.hd(p));
    h.(hd := e => if e == p then Hd(n * HBLKSIZE, true, NextOf(h.hd(p)), PrevOf(h.hd(p)))
    else if p < e < p + n then Nil else h.hd(e))
  }

  lemma ReleasedOk(h: Heap, p: int)
    requires Good(h, {}) && h.hd(p).Hd? && !h.hd(p).free
    ensures Good(Released(h, p), {p}) && Len(Released(h, p).hd(p)) == Len(h.hd(p))
  {
    Parts(h, {});
    var h' := Released(h, p);
    assert TileAt(h, {}, p);
    forall e ensures TileAt(h', {p}, e) { assert TileAt(h, {}, e); assert TileAt(h, {}, h.start(e)); }
    InteriorNotFree(h, {}, p);
    ListsSame(h, h', {}, {p});
    forall e ensures ApartAt(h', {p}, e) { assert ApartAt(h, {}, e); }
    MakeGood(h', {p});
  }

  /** No block starts inside another. */
  lemma InteriorNotFree(h: Heap, out: set<int>, p: int)
    requires Tiled(h, out) && h.hd(p).Hd?
    ensures forall e :: p < e < p + Len(h.hd(p)) ==> !h.hd(e).Hd?
  {
    assert TileAt(h, out, p);
    forall e | p < e < p + Len(h.hd(p)) ensures !h.hd(e).Hd? { assert TileAt(h, out, e); }
  }

  // ---------- new memory ----------

  /** Pages p .. p + n, new to the heap, become one block in hand. */
  ghost function Installed(h: Heap, p: int, n: int): Heap {
    h.(hd := Upd(h.hd, p, Hd(n * HBLKSIZE, false, 0, 0)), start := Claimed(h.start, p, p + n, p))
  }

  ghost predicate NewPages(h: Heap, p: int, n: int) {
    1 <= p && 1 <= n && p + n <= TOP_PAGE && forall e :: p <= e < p + n ==> h.start(e) == 0
  }

  lemma InstalledOk(h: Heap, p: int, n: int)
    requires Good(h, {}) && NewPages(h, p, n)
    ensures Good(Installed(h, p, n), {p}) && Len(Installed(h, p, n).hd(p)) == n
  {
    Parts(h, {});
    var h' := Installed(h, p, n);
    BlocksSum(n * HBLKSIZE, 0);
    assert TileAt(h, {}, p);
    forall e ensures TileAt(h', {p}, e) { InstalledTile(h, p, n, e); }
    ListsSame(h, h', {}, {p});
    forall e ensures ApartAt(h', {p}, e) { assert ApartAt(h, {}, e); }
    MakeGood(h', {p});
  }

  lemma InstalledTile(h: Heap, p: int, n: int, e: int)
    requires Tiled(h, {}) && NewPages(h, p, n) && Blocks(n * HBLKSIZE) == n
    ensures TileAt(Installed(h, p, n), {p}, e)
  {
    assert TileAt(h, {}, e) && TileAt(h, {}, p);
    if h.hd(e).Hd? {
      forall x | e <= x < e + Len(h.hd(e)) ensures Installed(h, p, n).start(x) == e { assert h.start(x) == e; }
    }
  }

  // ---------- splitting ----------

  /** The free block in hand at p is put to use for objects of sz bytes; its first n pages are
      given counts, the rest, if any, becomes a block in hand. */
  ghost function Split(h: Heap, p: int, sz: int): Heap {
    var n, d := Blocks(sz), h.hd(p);
    var rest := p + n;
    h.(hd := e => if e == p then Hd(sz, false, NextOf(d), PrevOf(d))
    else if p < e < p + n then Fwd(Count(e - p))
    else if e == rest && n < Len(d) then Hd(SizeOf(d) - n * HBLKSIZE, false, 0, 0)
    else h.hd(e),
    start := Claimed(h.start, rest, p + Len(d), rest))
  }

  lemma SplitOk(h: Heap, p: int, sz: int)
    requires Good(h, {p}) && FreeAt(h, p) && sz >= 1 && Blocks(sz) <= Len(h.hd(p))
    ensures var n, rest := Blocks(sz), p + Blocks(sz);
            if n < Len(h.hd(p)) then Good(Split(h, p, sz), {rest}) && Len(Split(h, p, sz).hd(rest)) == Len(h.hd(p)) - n
            else Good(Split(h, p, sz), {})
  {
    Parts(h, {p});
    var h', n := Split(h, p, sz), Blocks(sz);
    var rest, len := p + n, Len(h.hd(p));
    var out := if n < len then {rest} else {};
    assert TileAt(h, {p}, p);
    BlocksSum(n * HBLKSIZE, h.hd(p).sz - n * HBLKSIZE);
    InteriorNotFree(h, {p}, p);
    forall e ensures TileAt(h', out, e) { SplitTile(h, p, sz, e); }
    ListsSame(h, h', {p}, out);
    forall e ensures ApartAt(h', out, e) { assert ApartAt(h, {p}, e); }
    MakeGood(h', out);
  }

  lemma SplitTile(h: Heap, p: int, sz: int, e: int)
    requires Tiled(h, {p}) && FreeAt(h, p) && sz >= 1 && Blocks(sz) <= Len(h.hd(p))
    ensures TileAt(Split(h, p, sz), if Blocks(sz) < Len(h.hd(p)) then {p + Blocks(sz)} else {}, e)
  {
    var n := Blocks(sz);
    assert TileAt(h, {p}, p) && TileAt(h, {p}, e) && TileAt(h, {p}, h.start(e));
    BlocksSum(n * HBLKSIZE, h.hd(p).sz - n * HBLKSIZE);
    if h.hd(e).Hd? && e != p {
      forall x | e <= x < e + Len(h.hd(e)) ensures Split(h, p, sz).start(x) == e { assert h.start(x) == e; }
    }
  }

  // ---------- states that agree at every page; the total may differ ----------

  ghost predicate Agree(h: Heap, h': Heap) {
    && h'.fl == h.fl && h'.bytes == h.bytes && h'.lists == h.lists
    && (forall e :: h'.hd(e) == h.hd(e)) && (forall e :: h'.start(e) == h.start(e))
  }

  lemma AgreeGood(h: Heap, h': Heap, out: set<int>)
    requires Good(h, out) && Agree(h, h')
    ensures Good(h', out)
  {
    Parts(h, out);
    forall p ensures TileAt(h', out, p) && ApartAt(h', out, p) { assert TileAt(h, out, p) && ApartAt(h, out, p); }
    ListsSame(h, h', out, out);
    MakeGood(h', out);
  }
}
