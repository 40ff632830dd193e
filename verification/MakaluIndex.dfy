/** Makalu's two-level header index. A page number is split into a key, which selects a bottom index
    through a hash table of chains, and a position in that bottom index. Bottom indices are also linked
    in key order. Bottom indices are named by their keys; NONE stands for null and for MAK_all_nils.
*/
module MakaluIndex {
  import MakaluBlocks

  const BOTTOM_SZ := 1024
  const TOP_SZ := 2048
  const NONE := -1

  /** What an index cell holds: nothing, a forwarding count, or a header. */
  datatype Cell = Nil | Fwd(k: int) | Head(header: int)

  function Key(p: int): int { p / BOTTOM_SZ }
  function Hash(key: int): int { key % TOP_SZ }

  function Upd<B>(f: int -> B, a: int, b: B): int -> B { x => if x == a then b else f(x) }

  // ---------- chains and the ordered list ----------

  /** Following `link` from `head` visits the keys of q and ends. */
  ghost predicate Chain(link: int -> int, head: int, q: seq<int>)
    decreases |q|
  {
    if q == [] then head == NONE else head == q[0] && head != NONE && q[0] !in q[1..] && Chain(link, link(q[0]), q[1..])
  }

  lemma {:induction false} ChainSame(link: int -> int, link': int -> int, head: int, q: seq<int>)
    requires Chain(link, head, q) && forall k :: k in q ==> link'(k) == link(k)
    ensures Chain(link', head, q)
    decreases |q|
  {
    if q != [] {
      var k := q[0];
      assert k in q;
      ChainSame(link, link', link(k), q[1..]);
    }
  }

  /** Each chain holds exactly the keys of its hash value. */
  ghost predicate ChainOk(top: int -> int, link: int -> int, chains: int -> seq<int>, order: seq<int>, v: int) {
    Chain(link, top(v), chains(v)) && forall k :: k in chains(v) <==> k in order && Hash(k) == v
  }

  ghost predicate ChainsOk(top: int -> int, link: int -> int, chains: int -> seq<int>, order: seq<int>) {
    forall v :: ChainOk(top, link, chains, order, v)
  }

  lemma ChainsAdd(top: int -> int, link: int -> int, chains: int -> seq<int>, order: seq<int>, order': seq<int>,
                  hi: int)
    requires ChainsOk(top, link, chains, order) && hi !in order && hi >= 0
    requires forall k :: k in order' <==> k in order || k == hi
    ensures var v := Hash(hi);
            ChainsOk(Upd(top, v, hi), Upd(link, hi, top(v)), Upd(chains, v, [hi] + chains(v)), order')
  {
    var v := Hash(hi);
    var top', link', chains' := Upd(top, v, hi), Upd(link, hi, top(v)), Upd(chains, v, [hi] + chains(v));
    forall w ensures ChainOk(top', link', chains', order', w) {
      assert ChainOk(top, link, chains, order, w);
      ChainSame(link, link', top(w), chains(w));
      if w == v { assert chains'(w)[1..] == chains(w); }
    }
  }

  ghost function At(q: seq<int>, i: int): int { if 0 <= i < |q| then q[i] else NONE }

  ghost predicate Ascending(q: seq<int>) { forall i, j :: 0 <= i < j < |q| ==> q[i] < q[j] }

  ghost predicate LinkAt(asc: int -> int, desc: int -> int, q: seq<int>, i: int) {
    0 <= i < |q| ==> asc(q[i]) == At(q, i + 1) && desc(q[i]) == At(q, i - 1)
  }

  ghost predicate OrderedAt(first: int, last: int, asc: int -> int, desc: int -> int, q: seq<int>, i: int) {
    Ascending(q) && first == At(q, 0) && last == At(q, |q| - 1) && LinkAt(asc, desc, q, i)
  }

  /** The bottom indices in ascending order of their keys, linked both ways. */
  ghost predicate Ordered(first: int, last: int, asc: int -> int, desc: int -> int, q: seq<int>) {
    forall i :: OrderedAt(first, last, asc, desc, q, i)
  }

  function AscWith(asc: int -> int, pi: int, hi: int, p: int): int -> int {
    var a := Upd(asc, hi, p);
    if pi == NONE then a else Upd(a, pi, hi)
  }

  function DescWith(desc: int -> int, pi: int, hi: int, p: int): int -> int {
    var d := Upd(desc, hi, pi);
    if p == NONE then d else Upd(d, p, hi)
  }

  ghost function Inserted(q: seq<int>, i: int, hi: int): (r: seq<int>)
    requires 0 <= i <= |q|
    ensures |r| == |q| + 1
    ensures forall j :: 0 <= j < |r| ==> r[j] == if j < i then q[j] else if j == i then hi else q[j - 1]
  {
    q[..i] + [hi] + q[i..]
  }

  /** hi lies between the keys before and after position i. */
  ghost predicate Between(q: seq<int>, i: int, hi: int) {
    0 <= i <= |q| && (i > 0 ==> q[i - 1] < hi) && (i < |q| ==> hi < q[i])
  }

  lemma InsertAscending(q: seq<int>, i: int, hi: int)
    requires Ascending(q) && Between(q, i, hi)
    ensures Ascending(Inserted(q, i, hi))
  {
  }

  lemma InsertLink(asc: int -> int, desc: int -> int, q: seq<int>, i: int, hi: int, j: int)
    requires Ascending(q) && Between(q, i, hi) && hi >= 0 && (forall k :: 0 <= k < |q| ==> q[k] >= 0)
    requires LinkAt(asc, desc, q, if j < i then j else j - 1)
    ensures LinkAt(AscWith(asc, At(q, i - 1), hi, At(q, i)), DescWith(desc, At(q, i - 1), hi, At(q, i)),
            Inserted(q, i, hi), j)
  {
  }

  /** A new key goes between its neighbours. */
  lemma InsertOrdered(first: int, last: int, asc: int -> int, desc: int -> int, q: seq<int>, i: int, hi: int)
    requires Ordered(first, last, asc, desc, q) && Between(q, i, hi) && hi >= 0 && forall k :: k in q ==> k >= 0
    ensures var pi, p := At(q, i - 1), At(q, i);
            Ordered(if pi == NONE then hi else first, if p == NONE then hi else last,
                    AscWith(asc, pi, hi, p), DescWith(desc, pi, hi, p), Inserted(q, i, hi))
  {
    var pi, p := At(q, i - 1), At(q, i);
    assert OrderedAt(first, last, asc, desc, q, 0);
    InsertAscending(q, i, hi);
    forall k | 0 <= k < |q| ensures q[k] >= 0 { assert q[k] in q; }
    InsertEnds(first, last, asc, desc, q, i, hi);
    var first', last' := if pi == NONE then hi else first, if p == NONE then hi else last;
    var asc', desc' := AscWith(asc, pi, hi, p), DescWith(desc, pi, hi, p);
    var q' := Inserted(q, i, hi);
    forall j ensures OrderedAt(first', last', asc', desc', q', j) {
      assert OrderedAt(first, last, asc, desc, q, if j < i then j else j - 1);
      InsertLink(asc, desc, q, i, hi, j);
    }
  }

  lemma InsertEnds(first: int, last: int, asc: int -> int, desc: int -> int, q: seq<int>, i: int, hi: int)
    requires first == At(q, 0) && last == At(q, |q| - 1) && 0 <= i <= |q| && hi >= 0
             && forall k :: 0 <= k < |q| ==> q[k] >= 0
    ensures (if At(q, i - 1) == NONE then hi else first) == At(Inserted(q, i, hi), 0)
    ensures (if At(q, i) == NONE then hi else last) == At(Inserted(q, i, hi), |q|)
  {
  }

  lemma InsertMembers(q: seq<int>, i: int, hi: int)
    requires 0 <= i <= |q|
    ensures forall k :: k in Inserted(q, i, hi) <==> k in q || k == hi
  {
    assert q == q[..i] + q[i..];
  }

  // ---------- forwarding counts ----------

  /** A count never leads past the start of its block: no header is jumped over. */
  ghost predicate Forwards(cell: int -> Cell) {
    forall p :: cell(p).Fwd? ==> cell(p).k >= 1 && forall x :: p - cell(p).k < x <= p ==> !cell(x).Head?
  }

  /** The pages of a block of n pages at h after MAK_install_counts. */
  ghost predicate Counted(cell: int -> Cell, h: int, n: int) {
    cell(h).Head? && forall e :: h < e < h + n ==> cell(e) == Fwd(MakaluBlocks.Count(e - h))
  }

  // ---------- what installing and removing headers and counts does to the cells ----------

  datatype Op =
    | PutHeader(p: int, header: int)
    | PutCounts(h: int, n: int)
    | DropCounts(h: int, n: int)
    | DropHeader(p: int)

  ghost function Did(cell: int -> Cell, op: Op): int -> Cell {
    match op
    case PutHeader(p, header) => Upd(cell, p, Head(header))
    case PutCounts(h, n) => e => if h < e < h + n then Fwd(MakaluBlocks.Count(e - h)) else cell(e)
    case DropCounts(h, n) => e => if h < e < h + n then Nil else cell(e)
    case DropHeader(p) => Upd(cell, p, Nil)
  }

  /** The blocks in the index, each with the number of pages that have a header or a count. */
  type Blocks = map<int, int>

  ghost predicate Within(blocks: Blocks, h: int, p: int) { h in blocks && h <= p < h + blocks[h] }

  /** Headers go to pages of no block, counts to pages of no other block, and they leave as they came. */
  ghost predicate May(blocks: Blocks, op: Op) {
    match op
    case PutHeader(p, _) => forall h :: !Within(blocks, h, p)
    case PutCounts(h, n) =>
      && n >= 1 && h in blocks && blocks[h] == 1
      && forall g, e :: Within(blocks, g, e) && g != h ==> !(h < e < h + n)
    case DropCounts(h, n) => h in blocks && blocks[h] == n
    case DropHeader(p) => p in blocks && blocks[p] == 1
  }

  ghost function BlocksAfter(blocks: Blocks, op: Op): Blocks {
    match op
    case PutHeader(p, _) => blocks[p := 1]
    case PutCounts(h, n) => blocks[h := n]
    case DropCounts(h, n) => blocks[h := 1]
    case DropHeader(p) => blocks - {p}
  }

  ghost predicate LaidAt(cell: int -> Cell, blocks: Blocks, x: int) {
    && (cell(x).Head? <==> x in blocks)
    && (x in blocks ==> blocks[x] >= 1 && Counted(cell, x, blocks[x]))
    && (cell(x).Fwd? ==> exists h :: Within(blocks, h, x) && h < x)
  }

  /** The cells are those of these blocks and no others. */
  ghost predicate Laid(cell: int -> Cell, blocks: Blocks) { forall x :: LaidAt(cell, blocks, x) }

  lemma DidLaid(cell: int -> Cell, blocks: Blocks, op: Op)
    requires Laid(cell, blocks) && May(blocks, op)
    ensures Laid(Did(cell, op), BlocksAfter(blocks, op))
  {
    forall x ensures LaidAt(Did(cell, op), BlocksAfter(blocks, op), x) { DidLaidAt(cell, blocks, op, x); }
  }

  /** A page belongs to at most one block. */
  lemma OneBlock(cell: int -> Cell, blocks: Blocks, g: int, h: int, e: int)
    requires Laid(cell, blocks) && Within(blocks, g, e) && Within(blocks, h, e)
    ensures g == h
  {
    assert LaidAt(cell, blocks, g) && LaidAt(cell, blocks, h);
  }

  ghost function Owner(cell: int -> Cell, blocks: Blocks, x: int): (h: int)
    requires Laid(cell, blocks) && cell(x).Fwd?
    ensures Within(blocks, h, x) && h < x
  {
    assert LaidAt(cell, blocks, x);
    var h :| Within(blocks, h, x) && h < x; h
  }

  lemma DidLaidAt(cell: int -> Cell, blocks: Blocks, op: Op, x: int)
    requires Laid(cell, blocks) && May(blocks, op)
    ensures LaidAt(Did(cell, op), BlocksAfter(blocks, op), x)
  {
    assert LaidAt(cell, blocks, x);
    match op
    case PutHeader(p, header) => PutHeaderLaid(cell, blocks, p, header, x);
    case PutCounts(h, n) => PutCountsLaid(cell, blocks, h, n, x);
    case DropCounts(h, n) => DropCountsLaid(cell, blocks, h, n, x);
    case DropHeader(p) => DropHeaderLaid(cell, blocks, p, x);
  }

  lemma PutHeaderLaid(cell: int -> Cell, blocks: Blocks, p: int, header: int, x: int)
    requires Laid(cell, blocks) && May(blocks, PutHeader(p, header)) && LaidAt(cell, blocks, x)
    ensures LaidAt(Did(cell, PutHeader(p, header)), blocks[p := 1], x)
  {
    assert x in blocks && x < p < x + blocks[x] ==> Within(blocks, x, p);
    if x != p && cell(x).Fwd? {
      var g := Owner(cell, blocks, x);
      assert LaidAt(cell, blocks, g) && (g == p ==> Within(blocks, p, p));
      assert Within(blocks[p := 1], g, x);
    }
  }

  lemma PutCountsLaid(cell: int -> Cell, blocks: Blocks, h: int, n: int, x: int)
    requires Laid(cell, blocks) && May(blocks, PutCounts(h, n)) && LaidAt(cell, blocks, x)
    ensures LaidAt(Did(cell, PutCounts(h, n)), blocks[h := n], x)
  {
    var cell' := Did(cell, PutCounts(h, n));
    assert LaidAt(cell, blocks, h);
    if x in blocks && x != h {
      assert Within(blocks, x, x);
      forall e | x < e < x + blocks[x] ensures cell'(e) == cell(e) { assert Within(blocks, x, e); }
    }
    if h < x < h + n {
      assert Within(blocks[h := n], h, x);
    } else if cell(x).Fwd? {
      var g := Owner(cell, blocks, x);
      assert Within(blocks[h := n], g, x);
    }
  }

  lemma DropCountsLaid(cell: int -> Cell, blocks: Blocks, h: int, n: int, x: int)
    requires Laid(cell, blocks) && May(blocks, DropCounts(h, n)) && LaidAt(cell, blocks, x)
    ensures LaidAt(Did(cell, DropCounts(h, n)), blocks[h := 1], x)
  {
    var cell' := Did(cell, DropCounts(h, n));
    assert LaidAt(cell, blocks, h);
    if x in blocks && x != h {
      forall e | x <= e < x + blocks[x] ensures cell'(e) == cell(e) {
        assert Within(blocks, x, e);
        if Within(blocks, h, e) { OneBlock(cell, blocks, x, h, e); }
      }
    }
    if cell(x).Fwd? && !(h < x < h + n) {
      var g := Owner(cell, blocks, x);
      assert Within(blocks[h := 1], g, x);
    }
  }

  lemma DropHeaderLaid(cell: int -> Cell, blocks: Blocks, p: int, x: int)
    requires Laid(cell, blocks) && May(blocks, DropHeader(p)) && LaidAt(cell, blocks, x)
    ensures LaidAt(Did(cell, DropHeader(p)), blocks - {p}, x)
  {
    assert LaidAt(cell, blocks, p);
    if x != p && cell(x).Fwd? {
      var g := Owner(cell, blocks, x);
      assert Within(blocks - {p}, g, x);
    }
  }

  /** Then no count jumps over a header. */
  lemma LaidForwards(cell: int -> Cell, blocks: Blocks)
    requires Laid(cell, blocks)
    ensures Forwards(cell)
  {
    forall p | cell(p).Fwd? ensures cell(p).k >= 1 && forall x :: p - cell(p).k < x <= p ==> !cell(x).Head? {
      assert LaidAt(cell, blocks, p);
      var h :| Within(blocks, h, p) && h < p;
      assert LaidAt(cell, blocks, h);
      CountsForward(cell, h, blocks[h], p);
    }
  }

  ghost function CellsAfter(ops: seq<Op>): int -> Cell
    decreases |ops|
  {
    if ops == [] then p => Nil else Did(CellsAfter(ops[..|ops| - 1]), ops[|ops| - 1])
  }

  ghost function AllBlocks(ops: seq<Op>): Blocks
    decreases |ops|
  {
    if ops == [] then map[] else BlocksAfter(AllBlocks(ops[..|ops| - 1]), ops[|ops| - 1])
  }

  ghost predicate LegalOps(ops: seq<Op>)
    decreases |ops|
  {
    ops != [] ==> LegalOps(ops[..|ops| - 1]) && May(AllBlocks(ops[..|ops| - 1]), ops[|ops| - 1])
  }

  /** After any sequence of installs and removals the cells are those of the blocks that are left, and
      no count jumps over a header: what MAK_prev_block and the interior lookup rely on. */
  lemma {:induction false} RunForwards(ops: seq<Op>)
    requires LegalOps(ops)
    ensures Laid(CellsAfter(ops), AllBlocks(ops)) && Forwards(CellsAfter(ops))
    decreases |ops|
  {
    if ops == [] {
      forall x ensures LaidAt(CellsAfter(ops), AllBlocks(ops), x) {}
    } else {
      RunForwards(ops[..|ops| - 1]);
      DidLaid(CellsAfter(ops[..|ops| - 1]), AllBlocks(ops[..|ops| - 1]), ops[|ops| - 1]);
    }
    LaidForwards(CellsAfter(ops), AllBlocks(ops));
  }

  // ---------- the tables ----------

  /** The hash table and the ordered list hold the same bottom indices. */
  ghost predicate TablesOk(top: int -> int, link: int -> int, chains: int -> seq<int>, order: seq<int>,
                           first: int, last: int, asc: int -> int, desc: int -> int) {
    forall v :: TablesAt(top, link, chains, order, first, last, asc, desc, v)
  }

  ghost predicate TablesAt(top: int -> int, link: int -> int, chains: int -> seq<int>, order: seq<int>,
                           first: int, last: int, asc: int -> int, desc: int -> int, v: int) {
    ChainOk(top, link, chains, order, v) && OrderedAt(first, last, asc, desc, order, v) && (v in order ==> v >= 0)
  }

  lemma TablesParts(top: int -> int, link: int -> int, chains: int -> seq<int>, order: seq<int>,
                    first: int, last: int, asc: int -> int, desc: int -> int)
    requires TablesOk(top, link, chains, order, first, last, asc, desc)
    ensures ChainsOk(top, link, chains, order) && Ordered(first, last, asc, desc, order)
            && forall k :: k in order ==> k >= 0
  {
    forall v ensures ChainOk(top, link, chains, order, v) && OrderedAt(first, last, asc, desc, order, v)
                     && (v in order ==> v >= 0) {
      assert TablesAt(top, link, chains, order, first, last, asc, desc, v);
    }
  }

  lemma TablesAdd(top: int -> int, link: int -> int, chains: int -> seq<int>, order: seq<int>,
                  first: int, last: int, asc: int -> int, desc: int -> int, hi: int, i: int)
    requires TablesOk(top, link, chains, order, first, last, asc, desc) && hi !in order && hi >= 0
             && Between(order, i, hi)
    ensures var v, pi, p := Hash(hi), At(order, i - 1), At(order, i);
            TablesOk(Upd(top, v, hi), Upd(link, hi, top(v)), Upd(chains, v, [hi] + chains(v)), Inserted(order, i, hi),
                     if pi == NONE then hi else first, if p == NONE then hi else last,
                     AscWith(asc, pi, hi, p), DescWith(desc, pi, hi, p))
    ensures forall k :: k in Inserted(order, i, hi) <==> k in order || k == hi
  {
    TablesParts(top, link, chains, order, first, last, asc, desc);
    InsertMembers(order, i, hi);
    ChainsAdd(top, link, chains, order, Inserted(order, i, hi), hi);
    InsertOrdered(first, last, asc, desc, order, i, hi);
    MakeTables(Upd(top, Hash(hi), hi), Upd(link, hi, top(Hash(hi))), Upd(chains, Hash(hi), [hi] + chains(Hash(hi))),
               Inserted(order, i, hi), if At(order, i - 1) == NONE then hi else first,
               if At(order, i) == NONE then hi else last,
               AscWith(asc, At(order, i - 1), hi, At(order, i)), DescWith(desc, At(order, i - 1), hi, At(order, i)));
  }

  lemma MakeTables(top: int -> int, link: int -> int, chains: int -> seq<int>, order: seq<int>,
                   first: int, last: int, asc: int -> int, desc: int -> int)
    requires ChainsOk(top, link, chains, order) && Ordered(first, last, asc, desc, order)
             && forall k :: k in order ==> k >= 0
    ensures TablesOk(top, link, chains, order, first, last, asc, desc)
  {
    forall v ensures TablesAt(top, link, chains, order, first, last, asc, desc, v) {
      assert ChainOk(top, link, chains, order, v) && OrderedAt(first, last, asc, desc, order, v);
    }
  }

  /** Without a bottom index a page has nothing. */
  ghost predicate CellsOk(cell: int -> Cell, order: seq<int>) {
    forall p :: Key(p) !in order ==> cell(p) == Nil
  }

  class Index {
    var top: int -> int              // MAK_top_index
    var hashLink: int -> int
    var asc: int -> int
    var desc: int -> int
    var first: int                   // MAK_all_bottom_indices
    var last: int                    // MAK_all_bottom_indices_end
    var cell: int -> Cell            // the cells of all bottom indices, by page
    ghost var chains: int -> seq<int>
    ghost var order: seq<int>

    ghost predicate Valid()
      reads this
    {
      TablesOk(top, hashLink, chains, order, first, last, asc, desc) && CellsOk(cell, order)
    }

    constructor ()
      ensures Valid() && forall p :: cell(p) == Nil
    {
      top, hashLink, asc, desc := v => NONE, k => NONE, k => NONE, k => NONE;
      first, last, cell := NONE, NONE, p => Nil;
      chains, order := v => [], [];
    }

    /** GET_BI: the key itself if its bottom index exists, NONE otherwise. */
    method GetBi(key: int) returns (r: int)
      requires Valid() && key >= 0
      ensures r == if key in order then key else NONE
    {
      r := top(Hash(key));
      assert TablesAt(top, hashLink, chains, order, first, last, asc, desc, Hash(key));
      ghost var q := chains(Hash(key));
      ghost var rest := q;
      while r != key && r != NONE
        invariant Chain(hashLink, r, rest)
        invariant key in q <==> key in rest
        decreases |rest|
      {
        assert rest == [rest[0]] + rest[1..];
        rest := rest[1..];
        r := hashLink(r);
      }
      assert r == key ==> key in rest by { if r == key { assert rest[0] == key; } }
    }

    /** HDR. */
    method Hdr(p: int) returns (c: Cell)
      requires Valid() && p >= 0
      ensures c == cell(p)
    {
      var bi := GetBi(Key(p));
      if bi == NONE { return Nil; }
      return cell(p);
    }
  
    /** The neighbours of a new key in the ordered list. */
    method FindPlace(hi: int) returns (pi: int, p: int, ghost i: int)
      requires Valid() && hi !in order
      ensures Between(order, i, hi) && pi == At(order, i - 1) && p == At(order, i)
    {
      TablesParts(top, hashLink, chains, order, first, last, asc, desc);
      assert OrderedAt(first, last, asc, desc, order, 0);
      pi, p, i := NONE, first, 0;
      while p != NONE && p < hi
        invariant 0 <= i <= |order| && p == At(order, i) && pi == At(order, i - 1)
        invariant i > 0 ==> order[i - 1] < hi
        decreases |order| - i
      {
        assert OrderedAt(first, last, asc, desc, order, i);
        pi := p;
        p := asc(p);
        i := i + 1;
      }
      assert i < |order| ==> order[i] in order;
    }

    /** get_index: makes sure there is a bottom index for a page. */
    method GetIndex(page: int)
      requires Valid() && page >= 0
      modifies this
      ensures Valid() && cell == old(cell)
      ensures forall k :: k in order <==> k in old(order) || k == Key(page)
    {
      var hi := Key(page);
      var found := GetBi(hi);
      if found != NONE { return; }
      AddBottom(hi);
    }

    /** A new, empty bottom index: at the head of its chain and at its place in the list. */
    method AddBottom(hi: int)
      requires Valid() && hi >= 0 && hi !in order
      modifies this
      ensures Valid() && cell == old(cell)
      ensures forall k :: k in order <==> k in old(order) || k == hi
    {
      var pi, p; ghost var i;
      pi, p, i := FindPlace(hi);
      TablesAdd(top, hashLink, chains, order, first, last, asc, desc, hi, i);
      chains, order := Upd(chains, Hash(hi), [hi] + chains(Hash(hi))), Inserted(order, i, hi);
      hashLink, top := Upd(hashLink, hi, top(Hash(hi))), Upd(top, Hash(hi), hi);
      asc, desc := AscWith(asc, pi, hi, p), DescWith(desc, pi, hi, p);
      first, last := if pi == NONE then hi else first, if p == NONE then hi else last;
    }
  
    /** SET_HDR on a page whose bottom index exists. */
    method SetCell(p: int, c: Cell)
      requires Valid() && Key(p) in order
      modifies this`cell
      ensures Valid() && cell == Upd(old(cell), p, c)
    {
      cell := Upd(cell, p, c);
    }

    /** The index part of MAK_install_header. It keeps every count from jumping over a header exactly if
        none jumps over this page. */
    method InstallHeader(p: int, header: int)
      requires Valid() && p >= 0
      modifies this
      ensures Valid() && forall e :: cell(e) == Did(old(cell), PutHeader(p, header))(e)
      ensures old(Forwards(cell)) ==> (Forwards(cell) <==> old(NotJumped(cell, p)))
    {
      GetIndex(p);
      SetCell(p, Head(header));
      if old(Forwards(cell)) { HeaderForwards(old(cell), p, header); }
    }

    /** The index part of MAK_remove_header. */
    method RemoveHeader(p: int)
      requires Valid() && cell(p).Head?
      modifies this
      ensures Valid() && forall e :: cell(e) == Did(old(cell), DropHeader(p))(e)
      ensures old(Forwards(cell)) ==> Forwards(cell)
    {
      SetCell(p, Nil);
    }

    /** MAK_remove_counts. */
    method RemoveCounts(h: int, n: int)
      requires Valid() && forall e :: h < e < h + n ==> cell(e).Fwd?
      modifies this
      ensures Valid() && forall e :: cell(e) == Did(old(cell), DropCounts(h, n))(e)
      ensures old(Forwards(cell)) ==> Forwards(cell)
    {
      var p := h + 1;
      while p < h + n
        invariant h + 1 <= p && (p <= h + n || p == h + 1) && Valid() && order == old(order)
        invariant forall e :: cell(e) == if h < e < p then Nil else old(cell)(e)
      {
        assert old(cell)(p).Fwd?;
        SetCell(p, Nil);
        p := p + 1;
      }
    }

    /** Bottom indices for all pages of a block: one every BOTTOM_SZ pages, and that of the last page. */
    method CoverPages(h: int, n: int)
      requires Valid() && h >= 0 && n >= 1
      modifies this
      ensures Valid() && cell == old(cell)
      ensures forall e :: h <= e < h + n ==> Key(e) in order
    {
      var p := h;
      while p < h + n
        invariant h <= p < h + n + BOTTOM_SZ && Valid() && cell == old(cell)
        invariant forall e :: h <= e <= p - BOTTOM_SZ ==> Key(e) in order
        invariant p == h || p - BOTTOM_SZ >= h
      {
        GetIndex(p);
        forall e | h <= e <= p ensures Key(e) in order {
          if p > h && e > p - BOTTOM_SZ { KeyNear(p - BOTTOM_SZ, e, p); }
        }
        p := p + BOTTOM_SZ;
      }
      GetIndex(h + n - 1);
      forall e | h <= e < h + n ensures Key(e) in order {
        if e > p - BOTTOM_SZ { KeyNear(p - BOTTOM_SZ, e, h + n - 1); }
      }
    }

    /** MAK_install_counts. */
    method InstallCounts(h: int, n: int)
      requires Valid() && h >= 0 && n >= 1
      modifies this
      ensures Valid() && forall e :: cell(e) == Did(old(cell), PutCounts(h, n))(e)
      ensures old(Forwards(cell)) ==> Forwards(cell)
    {
      CoverPages(h, n);
      var p := h + 1;
      while p < h + n
        invariant h + 1 <= p <= h + n || p == h + 1
        invariant Valid() && forall e :: h <= e < h + n ==> Key(e) in order
        invariant forall e :: cell(e) == if h < e < p then Fwd(MakaluBlocks.Count(e - h)) else old(cell)(e)
      {
        SetCell(p, Fwd(MakaluBlocks.Count(p - h)));
        p := p + 1;
      }
      if old(Forwards(cell)) { PutCountsForwards(old(cell), cell, h, n); }
    }

    /** Following forwarding counts from any page of a block ends at its first page, whatever its size. */
    method FindStart(p: int, ghost h: int, ghost n: int) returns (r: int)
      requires Valid() && h >= 0 && Counted(cell, h, n) && h <= p < h + n
      ensures r == h
    {
      r := p;
      var c := Hdr(r);
      while c.Fwd?
        invariant h <= r < h + n && c == cell(r)
        decreases r
      {
        r := r - c.k;
        c := Hdr(r);
      }
    }

    /** The bottom index to start from when that of the key does not exist. */
    method LastBefore(hi: int) returns (bi: int, ghost i: int)
      requires Valid() && hi !in order
      ensures -1 <= i < |order| && bi == At(order, i)
      ensures i >= 0 ==> order[i] < hi
      ensures i + 1 < |order| ==> order[i + 1] > hi
    {
      TablesParts(top, hashLink, chains, order, first, last, asc, desc);
      assert OrderedAt(first, last, asc, desc, order, 0);
      bi, i := last, |order| - 1;
      while bi != NONE && bi > hi
        invariant -1 <= i < |order| && bi == At(order, i)
        invariant i + 1 < |order| ==> order[i + 1] > hi
        decreases i
      {
        assert OrderedAt(first, last, asc, desc, order, i);
        bi := desc(bi);
        i := i - 1;
      }
      assert i >= 0 ==> order[i] in order;
    }

    /** The highest block start in bottom index bi at or below position j. */
    method ScanDown(bi: int, j0: int, ghost p: int) returns (r: int)
      requires Forwards(cell) && 0 <= j0 < BOTTOM_SZ && Clear(cell, bi * BOTTOM_SZ + j0, p) && bi >= 0
      ensures r == NONE || (r >= 0 && cell(r).Head? && r <= bi * BOTTOM_SZ + j0 && Clear(cell, r, p))
      ensures r == NONE ==> Clear(cell, bi * BOTTOM_SZ - 1, p)
    {
      var j := j0;
      while j >= 0
        invariant j <= j0 && Clear(cell, if j >= 0 then bi * BOTTOM_SZ + j else bi * BOTTOM_SZ - 1, p)
        decreases j
      {
        var c := cell(bi * BOTTOM_SZ + j);
        match c
        case Nil => j := j - 1;
        case Fwd(k) => j := j - k;
        case Head(_) => return bi * BOTTOM_SZ + j;
      }
      return NONE;
    }

    /** MAK_prev_block: the greatest block start at or below p, NONE if there is none. */
    method PrevBlock(p: int) returns (r: int)
      requires Valid() && Forwards(cell) && p >= 0
      ensures r == NONE || (0 <= r <= p && cell(r).Head?)
      ensures forall e :: r < e <= p ==> !cell(e).Head?
      ensures r == NONE ==> forall e :: e <= p ==> !cell(e).Head?
    {
      TablesParts(top, hashLink, chains, order, first, last, asc, desc);
      assert OrderedAt(first, last, asc, desc, order, 0);
      var j := p % BOTTOM_SZ;
      var bi := GetBi(Key(p));
      ghost var i: int;
      if bi == NONE {
        bi, i := LastBefore(Key(p));
        StartClear(cell, order, i, p);
        j := BOTTOM_SZ - 1;
      } else {
        i :| 0 <= i < |order| && order[i] == bi;
      }
      assert i >= 0 ==> order[i] in order;
      while bi != NONE
        invariant -1 <= i < |order| && bi == At(order, i) && 0 <= j < BOTTOM_SZ
        invariant i >= 0 ==> Clear(cell, bi * BOTTOM_SZ + j, p) && bi * BOTTOM_SZ + j <= p
        invariant i < 0 ==> forall e :: e <= p ==> !cell(e).Head?
        invariant i >= 0 ==> order[i] >= 0
        decreases i
      {
        assert order[i] in order;
        r := ScanDown(bi, j, p);
        if r != NONE { return; }
        GapClear(cell, order, i, p);
        assert OrderedAt(first, last, asc, desc, order, i);
        assert i > 0 ==> order[i - 1] < order[i];
        j := BOTTOM_SZ - 1;
        bi := desc(bi);
        i := i - 1;
        assert i >= 0 ==> order[i] in order;
      }
      return NONE;
    }
  }

  /** If page p has no bottom index, the search starts at the end of the last one below it. */
  lemma StartClear(cell: int -> Cell, order: seq<int>, i: int, p: int)
    requires CellsOk(cell, order) && Ascending(order) && -1 <= i < |order| && Key(p) !in order
    requires (i >= 0 ==> order[i] < Key(p)) && (i + 1 < |order| ==> order[i + 1] > Key(p))
    ensures if i >= 0 then Clear(cell, order[i] * BOTTOM_SZ + BOTTOM_SZ - 1, p)
            && order[i] * BOTTOM_SZ + BOTTOM_SZ - 1 <= p
            else forall e :: e <= p ==> !cell(e).Head?
  {
    forall e | e <= p && (i >= 0 ==> order[i] * BOTTOM_SZ + BOTTOM_SZ - 1 < e) ensures !cell(e).Head? {
      assert Key(e) <= Key(p);
      assert forall k :: 0 <= k < |order| ==> order[k] != Key(e);
    }
  }

  /** No block starts above page `from` up to page p. */
  ghost predicate Clear(cell: int -> Cell, from: int, p: int) { forall e :: from < e <= p ==> !cell(e).Head? }

  /** Between the key at position i and the one before it there is no bottom index, hence no block. */
  lemma GapClear(cell: int -> Cell, order: seq<int>, i: int, p: int)
    requires CellsOk(cell, order) && Ascending(order) && 0 <= i < |order| && Clear(cell, order[i] * BOTTOM_SZ - 1, p)
    ensures if i > 0 then Clear(cell, order[i - 1] * BOTTOM_SZ + BOTTOM_SZ - 1, p)
            else forall e :: e <= p ==> !cell(e).Head?
  {
    forall e | e <= p && (i > 0 ==> order[i - 1] * BOTTOM_SZ + BOTTOM_SZ - 1 < e) ensures !cell(e).Head? {
      if Key(e) in order {
        var k :| 0 <= k < |order| && order[k] == Key(e);
        assert k >= i;
      }
    }
  }

  /** Pages less than a bottom index apart have at most two keys between them. */
  lemma KeyNear(a: int, e: int, b: int)
    requires a <= e <= b <= a + BOTTOM_SZ
    ensures Key(e) == Key(a) || Key(e) == Key(b)
  {
  }

  ghost predicate NotJumped(cell: int -> Cell, p: int) { forall x :: p < x && cell(x).Fwd? ==> p <= x - cell(x).k }

  /** A header may be installed exactly on the pages that no count jumps over. */
  lemma HeaderForwards(cell: int -> Cell, p: int, header: int)
    requires Forwards(cell)
    ensures Forwards(Upd(cell, p, Head(header))) <==> NotJumped(cell, p)
  {
    var cell' := Upd(cell, p, Head(header));
    if Forwards(cell') {
      forall x | p < x && cell(x).Fwd? ensures p <= x - cell(x).k { assert cell'(x).Fwd? && cell'(p).Head?; }
    }
  }

  lemma PutCountsForwards(cell: int -> Cell, cell': int -> Cell, h: int, n: int)
    requires Forwards(cell)
    requires forall e :: cell'(e) == if h < e < h + n then Fwd(MakaluBlocks.Count(e - h)) else cell(e)
    ensures Forwards(cell')
  {
    forall p | cell'(p).Fwd? ensures cell'(p).k >= 1 && forall x :: p - cell'(p).k < x <= p ==> !cell'(x).Head? {
      if !(h < p < h + n) { assert cell(p).Fwd?; }
      forall x | p - cell'(p).k < x <= p ensures !cell'(x).Head? { assert !(h < x < h + n) ==> cell'(x) == cell(x); }
    }
  }

  /** After MAK_install_counts no count of the block jumps over a header. */
  lemma CountsForward(cell: int -> Cell, h: int, n: int, e: int)
    requires Counted(cell, h, n) && h < e < h + n
    ensures 1 <= cell(e).k <= e - h && cell(e).k <= MakaluBlocks.MAX_JUMP
    ensures forall x :: e - cell(e).k < x <= e ==> !cell(x).Head?
  {
  }
}
