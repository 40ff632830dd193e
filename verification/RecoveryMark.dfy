/** The mark phase of Ralloc's recovery: a worklist kept in two parallel stacks, one of nodes and
    one of the filter functions that will find the children of each node.

    A filter is named by a tag: the type a pointer was declared with. Which children a block has
    may depend on the tag it was first reached with.
*/
module RecoveryMark {

  /** A pointer found in a block, with the type it is declared to point to. */
  datatype Typed = Typed(addr: int, tag: int)

  /** What the filter functions read from memory: the non-null pointers in a block seen as a type. */
  type Kids = Typed -> seq<Typed>

  // ---------- what marking must compute ----------

  /** The in-range addresses among some pointers. */
  ghost function Targets(region: set<int>, ps: seq<Typed>): set<int> {
    set p | p in ps && p.addr in region :: p.addr
  }

  ghost function Children(region: set<int>, kids: Kids, tag: int -> int, a: int): set<int> {
    Targets(region, kids(Typed(a, tag(a))))
  }

  /** Closed under children, where each block is seen as the type `tag` gives it. */
  ghost predicate Closed(region: set<int>, kids: Kids, tag: int -> int, s: set<int>) {
    forall a :: a in s ==> Children(region, kids, tag, a) <= s
  }

  /** s is the least closed set that contains the in-range roots. */
  ghost predicate Reachable(region: set<int>, roots: seq<Typed>, kids: Kids, tag: int -> int, s: set<int>) {
    && Targets(region, roots) <= s && Closed(region, kids, tag, s)
    && forall z :: Targets(region, roots) <= z && Closed(region, kids, tag, z) ==> s <= z
  }

  /** The type of the first pointer to an address decides how the block there is seen. */
  ghost predicate FirstSeen(region: set<int>, ps: seq<Typed>, tag: int -> int) {
    forall i :: 0 <= i < |ps| && ps[i].addr in region && IsFirst(ps, i) ==> tag(ps[i].addr) == ps[i].tag
  }

  ghost predicate IsFirst(ps: seq<Typed>, i: int)
    requires 0 <= i < |ps|
  {
    forall j :: 0 <= j < i ==> ps[j].addr != ps[i].addr
  }

  function Differing(p: Typed): seq<Typed> { if p == Typed(1, 1) then [Typed(2, 0)] else [] }

  lemma FromRoots(t: int, roots: seq<Typed>, tag: int -> int, s: set<int>)
    requires (t == 0 || t == 1) && roots == [Typed(1, t), Typed(1, 1 - t)]
    requires FirstSeen({1, 2}, roots, tag) && Reachable({1, 2}, roots, Differing, tag, s)
    ensures s == if t == 0 then {1} else {1, 2}
  {
    var region, z := {1, 2}, if t == 0 then {1} else {1, 2};
    assert IsFirst(roots, 0);
    assert Targets(region, roots) == {1} by { assert roots[0] in roots; }
    assert Children(region, Differing, tag, 1) == (if t == 0 then {} else {2}) by {
      if t == 1 { assert Differing(Typed(1, 1))[0] == Typed(2, 0); }
    }
    assert Children(region, Differing, tag, 2) == {};
    assert Closed(region, Differing, tag, z);
    assert 1 in s && (t == 1 ==> 2 in s);
  }

  /** Where filters disagree, it does matter: with the same memory and the same two roots, the block
      at 2 is found in one order of the roots and not in the other. */
  lemma OrderMatters(tag: int -> int, tag': int -> int, s: set<int>, s': set<int>)
    requires var roots := [Typed(1, 0), Typed(1, 1)];
             FirstSeen({1, 2}, roots, tag) && Reachable({1, 2}, roots, Differing, tag, s)
    requires var roots := [Typed(1, 1), Typed(1, 0)];
             FirstSeen({1, 2}, roots, tag') && Reachable({1, 2}, roots, Differing, tag', s')
    ensures 2 !in s && 2 in s'
  {
    FromRoots(0, [Typed(1, 0), Typed(1, 1)], tag, s);
    FromRoots(1, [Typed(1, 1), Typed(1, 0)], tag', s');
  }

  // ---------- the state of the search ----------

  /** Every marked block that is no longer on the stack, except those being filtered,
      has had its children marked. */
  ghost predicate Scanned(region: set<int>, kids: Kids, tag: int -> int, marked: set<int>, nodes: seq<int>,
                          current: set<int>) {
    forall a :: a in marked && a !in nodes && a !in current ==> Children(region, kids, tag, a) <= marked
  }

  /** Whatever is marked lies in every set that contains the roots and is closed under the
      children of the blocks marked so far. */
  ghost predicate Minimal(region: set<int>, kids: Kids, tag: int -> int, marked: set<int>, roots: seq<Typed>) {
    forall z :: Targets(region, roots) <= z
                && (forall a :: a in z && a in marked ==> Children(region, kids, tag, a) <= z) ==>
                  marked <= z
  }

  /** Pointer p is a root or lies in a marked block. */
  ghost predicate Leads(kids: Kids, tag: int -> int, marked: set<int>, roots: seq<Typed>, p: Typed) {
    p in roots || exists b :: b in marked && p in kids(Typed(b, tag(b)))
  }

  /** h holds the roots and, with a typed pointer, those found where it points. */
  ghost predicate TypedClosed(region: set<int>, roots: seq<Typed>, kids: Kids, h: iset<Typed>) {
    && (forall p :: p in roots && p.addr in region ==> p in h)
    && (forall p, q :: p in h && q in kids(p) && q.addr in region ==> q in h)
  }

  ghost predicate TypedIn(tag: int -> int, marked: set<int>, h: iset<Typed>) {
    forall a :: a in marked ==> Typed(a, tag(a)) in h
  }

  /** Each marked block is seen as the type of a pointer to which the roots lead. */
  ghost predicate WellTyped(region: set<int>, kids: Kids, tag: int -> int, marked: set<int>, roots: seq<Typed>) {
    forall h :: TypedClosed(region, roots, kids, h) ==> TypedIn(tag, marked, h)
  }

  /** Whenever two typed pointers of h point to one block, both types find the same children in it. */
  ghost predicate Agree(region: set<int>, kids: Kids, h: iset<Typed>) {
    forall p, q :: p in h && q in h && p.addr == q.addr ==> Targets(region, kids(p)) == Targets(region, kids(q))
  }

  /** What two runs both mark is closed under children. */
  lemma BothClosed(region: set<int>, roots: seq<Typed>, kids: Kids, tag: int -> int, tag': int -> int,
                   s: set<int>, s': set<int>, h: iset<Typed>)
    requires TypedClosed(region, roots, kids, h) && Agree(region, kids, h)
    requires Closed(region, kids, tag, s) && WellTyped(region, kids, tag, s, roots)
    requires Closed(region, kids, tag', s') && WellTyped(region, kids, tag', s', roots)
    ensures Closed(region, kids, tag, s * s')
  {
    assert TypedIn(tag, s, h) && TypedIn(tag', s', h);
    forall a | a in s * s' ensures Children(region, kids, tag, a) <= s * s' {
      assert Typed(a, tag(a)) in h && Typed(a, tag'(a)) in h;
      assert Children(region, kids, tag, a) == Children(region, kids, tag', a);
    }
  }

  /** If filters agree wherever the roots lead, the order in which pointers are met does not matter: any
      two runs mark the same set, although each block may be seen as a different type. */
  lemma ReachableUnique(region: set<int>, roots: seq<Typed>, roots': seq<Typed>, kids: Kids, tag: int -> int,
                        tag': int -> int, s: set<int>, s': set<int>, h: iset<Typed>)
    requires forall p :: p in roots <==> p in roots'
    requires TypedClosed(region, roots, kids, h) && Agree(region, kids, h)
    requires Reachable(region, roots, kids, tag, s) && WellTyped(region, kids, tag, s, roots)
    requires Reachable(region, roots', kids, tag', s') && WellTyped(region, kids, tag', s', roots')
    ensures s == s'
  {
    SameRoots(region, roots, roots', kids, tag', s');
    BothClosed(region, roots, kids, tag, tag', s, s', h);
    BothClosed(region, roots, kids, tag', tag, s', s, h);
    assert s' * s == s * s' && Targets(region, roots) == Targets(region, roots');
  }

  lemma SameRoots(region: set<int>, roots: seq<Typed>, roots': seq<Typed>, kids: Kids, tag: int -> int, s: set<int>)
    requires forall p :: p in roots <==> p in roots'
    requires WellTyped(region, kids, tag, s, roots')
    ensures WellTyped(region, kids, tag, s, roots) && Targets(region, roots) == Targets(region, roots')
  {
    forall h | TypedClosed(region, roots, kids, h) ensures TypedIn(tag, s, h) {
      assert TypedClosed(region, roots', kids, h);
    }
  }

  ghost function Seen(tag: int -> int, p: Typed): int -> int {
    a => if a == p.addr then p.tag else tag(a)
  }

  lemma MarkMinimal(region: set<int>, kids: Kids, tag: int -> int, marked: set<int>, roots: seq<Typed>, p: Typed)
    requires Minimal(region, kids, tag, marked, roots) && Leads(kids, tag, marked, roots, p)
    requires p.addr in region && p.addr !in marked
    ensures Minimal(region, kids, Seen(tag, p), marked + {p.addr}, roots)
  {
    var tag', marked' := Seen(tag, p), marked + {p.addr};
    forall z | Targets(region, roots) <= z
               && (forall a :: a in z && a in marked' ==> Children(region, kids, tag', a) <= z)
      ensures marked' <= z {
      forall a | a in z && a in marked ensures Children(region, kids, tag, a) <= z {
        assert Children(region, kids, tag', a) == Children(region, kids, tag, a);
      }
      assert marked <= z;
      if p !in roots {
        var b :| b in marked && p in kids(Typed(b, tag(b)));
        assert p.addr in Children(region, kids, tag, b);
      }
    }
  }

  lemma MarkWellTyped(region: set<int>, kids: Kids, tag: int -> int, marked: set<int>, roots: seq<Typed>, p: Typed)
    requires WellTyped(region, kids, tag, marked, roots) && Leads(kids, tag, marked, roots, p)
    requires p.addr in region && p.addr !in marked
    ensures WellTyped(region, kids, Seen(tag, p), marked + {p.addr}, roots)
  {
    forall h | TypedClosed(region, roots, kids, h) ensures TypedIn(Seen(tag, p), marked + {p.addr}, h) {
      assert TypedIn(tag, marked, h);
      assert p in h by {
        if p !in roots { var b :| b in marked && p in kids(Typed(b, tag(b))); }
      }
      assert p == Typed(p.addr, p.tag);
    }
  }

  lemma StillLeads(kids: Kids, tag: int -> int, marked: set<int>, roots: seq<Typed>, p: Typed)
    requires p.addr !in marked
    ensures forall q :: Leads(kids, tag, marked, roots, q) ==> Leads(kids, Seen(tag, p), marked + {p.addr}, roots, q)
  {
    var tag', marked' := Seen(tag, p), marked + {p.addr};
    forall q | Leads(kids, tag, marked, roots, q) ensures Leads(kids, tag', marked', roots, q) {
      if q !in roots {
        var b :| b in marked && q in kids(Typed(b, tag(b)));
        assert b in marked' && tag'(b) == tag(b);
      }
    }
  }

  lemma MarkScanned(region: set<int>, kids: Kids, tag: int -> int, marked: set<int>, nodes: seq<int>,
                    current: set<int>, p: Typed)
    requires Scanned(region, kids, tag, marked, nodes, current) && p.addr !in marked
    ensures Scanned(region, kids, Seen(tag, p), marked + {p.addr}, nodes + [p.addr], current)
  {
    forall a | a in marked && a !in nodes && a !in current
      ensures Children(region, kids, Seen(tag, p), a) <= marked + {p.addr} {
      assert Children(region, kids, Seen(tag, p), a) == Children(region, kids, tag, a);
    }
  }

  lemma SearchDone(region: set<int>, kids: Kids, tag: int -> int, marked: set<int>, roots: seq<Typed>)
    requires Targets(region, roots) <= marked
    requires Scanned(region, kids, tag, marked, [], {}) && Minimal(region, kids, tag, marked, roots)
    ensures Reachable(region, roots, kids, tag, marked)
  {
    forall z | Targets(region, roots) <= z && Closed(region, kids, tag, z) ensures marked <= z {}
  }

  lemma TargetsNext(region: set<int>, ps: seq<Typed>, i: int)
    requires 0 <= i < |ps|
    ensures Targets(region, ps[..i + 1]) ==
            Targets(region, ps[..i]) + (if ps[i].addr in region then {ps[i].addr} else {})
    ensures forall j :: 0 <= j < i && ps[j].addr in region ==> ps[j].addr in Targets(region, ps[..i])
  {
    assert ps[..i + 1] == ps[..i] + [ps[i]];
    forall j | 0 <= j < i && ps[j].addr in region ensures ps[j].addr in Targets(region, ps[..i]) {
      assert ps[..i][j] in ps[..i];
    }
  }

  lemma FirstNext(region: set<int>, ps: seq<Typed>, i: int, tag: int -> int, tag': int -> int)
    requires 0 <= i < |ps| && FirstSeen(region, ps[..i], tag)
    requires forall j :: 0 <= j < i && ps[j].addr in region ==> tag'(ps[j].addr) == tag(ps[j].addr)
    requires ps[i].addr in region && ps[i].addr !in Targets(region, ps[..i]) ==> tag'(ps[i].addr) == ps[i].tag
    ensures FirstSeen(region, ps[..i + 1], tag')
  {
    var qs := ps[..i + 1];
    forall n | 0 <= n < |qs| && qs[n].addr in region && IsFirst(qs, n) ensures tag'(qs[n].addr) == qs[n].tag {
      if n < i {
        assert ps[..i][n] == qs[n];
        assert IsFirst(ps[..i], n);
      } else {
        forall p | p in ps[..i] ensures p.addr != ps[i].addr {
          var j :| 0 <= j < i && ps[..i][j] == p;
          assert p == qs[j];
        }
      }
    }
  }

  lemma FirstKept(region: set<int>, roots: seq<Typed>, tag: int -> int, tag': int -> int, marked: set<int>)
    requires FirstSeen(region, roots, tag) && Targets(region, roots) <= marked
    requires forall a :: a in marked ==> tag'(a) == tag(a)
    ensures FirstSeen(region, roots, tag')
  {
    forall i | 0 <= i < |roots| && roots[i].addr in region ensures roots[i].addr in marked { assert roots[i] in roots; }
  }

  // ---------- the collector ----------

  class Collector {
    const region: set<int>
    const kids: Kids
    var marked: set<int>
    var nodes: seq<int>            // to_filter_node, its top last
    var filters: seq<int>          // to_filter_func

    // The type each marked block was first reached with.
    ghost var tag: int -> int

    constructor (region: set<int>, kids: Kids)
      ensures this.region == region && this.kids == kids
      ensures marked == {} && nodes == [] && filters == []
    {
      this.region, this.kids := region, kids;
      marked, nodes, filters := {}, [], [];
      tag := a => 0;
    }

    /** The stacks run in step, hold marked blocks only, and pair each with its own filter. */
    ghost predicate Paired()
      reads this
    {
      && marked <= region && |nodes| == |filters|
      && forall i :: 0 <= i < |nodes| ==> nodes[i] in marked && filters[i] == tag(nodes[i])
    }

    ghost predicate Searching(roots: seq<Typed>, current: set<int>)
      reads this
    {
      && Paired() && Scanned(region, kids, tag, marked, nodes, current)
      && Minimal(region, kids, tag, marked, roots) && WellTyped(region, kids, tag, marked, roots)
    }

    /** mark_func. */
    method Mark(p: Typed, ghost roots: seq<Typed>, ghost current: set<int>)
      requires Searching(roots, current) && Leads(kids, tag, marked, roots, p)
      modifies this
      ensures Searching(roots, current)
      ensures marked == old(marked) + (if p.addr in region then {p.addr} else {})
      ensures forall a :: a in old(marked) ==> tag(a) == old(tag)(a)
      ensures forall q :: old(Leads(kids, tag, marked, roots, q)) ==> Leads(kids, tag, marked, roots, q)
      ensures marked == old(marked) ==> nodes == old(nodes)
      ensures p.addr in region && p.addr !in old(marked) ==> tag(p.addr) == p.tag
    {
      if p.addr !in region { return; }
      if p.addr !in marked {
        MarkMinimal(region, kids, tag, marked, roots, p);
        MarkWellTyped(region, kids, tag, marked, roots, p);
        StillLeads(kids, tag, marked, roots, p);
        MarkScanned(region, kids, tag, marked, nodes, current, p);
        marked := marked + {p.addr};
        nodes := nodes + [p.addr];
        filters := filters + [p.tag];
        tag := Seen(tag, p);
      }
    }

    /** Marks everything in `ps`: the roots, or the children of the block being filtered. */
    method MarkAll(ps: seq<Typed>, ghost roots: seq<Typed>, ghost current: set<int>)
      requires Searching(roots, current) && forall p :: p in ps ==> Leads(kids, tag, marked, roots, p)
      modifies this
      ensures Searching(roots, current)
      ensures marked == old(marked) + Targets(region, ps)
      ensures forall a :: a in old(marked) ==> tag(a) == old(tag)(a)
      ensures marked == old(marked) ==> nodes == old(nodes)
      ensures old(marked) == {} ==> FirstSeen(region, ps, tag)
    {
      var i := 0;
      while i < |ps|
        invariant 0 <= i <= |ps|
        invariant Searching(roots, current) && forall p :: p in ps ==> Leads(kids, tag, marked, roots, p)
        invariant marked == old(marked) + Targets(region, ps[..i])
        invariant forall a :: a in old(marked) ==> tag(a) == old(tag)(a)
        invariant marked == old(marked) ==> nodes == old(nodes)
        invariant old(marked) == {} ==> FirstSeen(region, ps[..i], tag)
      {
        TargetsNext(region, ps, i);
        var p := ps[i];
        ghost var was := tag;
        assert p in ps;
        Mark(p, roots, current);
        if old(marked) == {} { FirstNext(region, ps, i, was, tag); }
        i := i + 1;
      }
      assert ps[..i] == ps;
    }

    /** Pops the top of both stacks and filters it. */
    method FilterTop(ghost roots: seq<Typed>)
      requires nodes != [] && Searching(roots, {})
      modifies this
      ensures Searching(roots, {})
      ensures old(marked) <= marked && (marked == old(marked) ==> |nodes| < |old(nodes)|)
      ensures forall a :: a in old(marked) ==> tag(a) == old(tag)(a)
    {
      var top := |nodes| - 1;
      var node, filter := nodes[top], filters[top];
      assert nodes == nodes[..top] + [node];
      nodes, filters := nodes[..top], filters[..top];
      MarkAll(kids(Typed(node, filter)), roots, {node});
      assert Children(region, kids, tag, node) <= marked;
    }

    /** The whole mark phase: it terminates and marks exactly what is reachable. */
    method MarkFrom(roots: seq<Typed>)
      requires marked == {} && nodes == [] && filters == []
      modifies this
      ensures Reachable(region, roots, kids, tag, marked)
      ensures WellTyped(region, kids, tag, marked, roots) && FirstSeen(region, roots, tag)
    {
      MarkAll(roots, roots, {});
      while nodes != []
        invariant Searching(roots, {}) && Targets(region, roots) <= marked && FirstSeen(region, roots, tag)
        decreases region - marked, |nodes|
      {
        ghost var was, tags := marked, tag;
        FilterTop(roots);
        FirstKept(region, roots, tags, tag, was);
        assert was < marked ==> region - marked < region - was;
      }
      SearchDone(region, kids, tag, marked, roots);
    }
  }
}
