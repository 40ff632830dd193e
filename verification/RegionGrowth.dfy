/** The region allocator: threads load the frontier, compute a new one, and install it by CAS. */
module RegionGrowth {
  import opened SizeClasses

  const PAGESIZE := 4096

  predicate IsPow2(a: int)
    decreases a
  {
    a == 1 || (a > 1 && a % 2 == 0 && IsPow2(a / 2))
  }

  /** A request that is not refused outright. */
  predicate GoodRequest(align: int, size: int) { size > 0 && align >= 8 && IsPow2(align) }

  function Pow2(k: nat): int { if k == 0 then 1 else 2 * Pow2(k - 1) }

  /** Some bytes, and an alignment of at least that of a pointer: a power of two from 2^3 on. */
  lemma GoodIff(align: int, size: int)
    ensures GoodRequest(align, size) <==> size > 0 && exists k: nat :: k >= 3 && align == Pow2(k)
  {
    assert Pow2(0) == 1 && Pow2(1) == 2 && Pow2(2) == 4 && Pow2(3) == 8;
    if IsPow2(align) && align >= 8 {
      var k := Log2(align);
      assert k >= 3;
    }
    forall k: nat | k >= 3 && align == Pow2(k) ensures align >= 8 && IsPow2(align) { PowIsPow(k); }
  }

  lemma {:induction false} Log2(a: int) returns (k: nat)
    requires IsPow2(a)
    ensures a == Pow2(k)
    decreases a
  {
    if a == 1 { k := 0; } else { k := Log2(a / 2); k := k + 1; }
  }

  lemma {:induction false} PowIsPow(k: nat)
    ensures IsPow2(Pow2(k)) && Pow2(k) >= if k >= 3 then 8 else 1
  {
    if k > 0 {
      PowIsPow(k - 1);
      TwiceIsPow(Pow2(k - 1));
    }
  }

  lemma TwiceIsPow(a: int)
    requires IsPow2(a)
    ensures IsPow2(2 * a)
  {
    assert 2 * a / 2 == a && 2 * a % 2 == 0;
  }

  function AlignUp(x: int, a: int): (r: int)
    requires a > 0
    ensures x <= r < x + a && r % a == 0
  {
    var adj := x % a;
    AlignIs(x, a);
    if adj != 0 then x + (a - adj) else x
  }

  lemma AlignIs(x: int, a: int)
    requires a > 0
    ensures x % a != 0 ==> (x + (a - x % a)) % a == 0
  {
    var q := x / a;
    assert x == q * a + x % a;
    assert x + (a - x % a) == q * a + a;
    Arith.Distrib(q, 1, a);
    Arith.DivUnique(q * a + a, a, q + 1, 0);
  }

  datatype Grant = Grant(start: int, len: int, align: int)

  /** What the last call of a thread returned: -1, 1 with the address granted, or 0. */
  datatype Ret = Nothing | Refused | Granted(res: int) | Raced

  /** A thread that has loaded the frontier; auxiliary: n counts the grants made by then. */
  datatype Pc = Idle(ret: Ret) | Loaded(seen: int, align: int, size: int, n: int)

  datatype State = State(base: int, bound: int, curr: int, pc: int -> Pc, grants: seq<Grant>)

  datatype Action = Request(t: int, align: int, size: int) | Cas(t: int)

  function Upd(f: int -> Pc, a: int, b: Pc): int -> Pc { x => if x == a then b else f(x) }

  /** Refused if the request is malformed or the file is too small; otherwise on to the CAS. */
  ghost function Apply(s: State, a: Action): State {
    match a
    case Request(t, align, size) =>
      if GoodRequest(align, size) && AlignUp(s.curr, align) + size <= s.bound then
        s.(pc := Upd(s.pc, t, Loaded(s.curr, align, size, |s.grants|)))
      else s.(pc := Upd(s.pc, t, Idle(Refused)))
    case Cas(t) =>
      if s.pc(t).Idle? || !GoodRequest(s.pc(t).align, s.pc(t).size) then s
      else if s.curr == s.pc(t).seen then
        var res := AlignUp(s.pc(t).seen, s.pc(t).align);
        s.(curr := res + s.pc(t).size, grants := s.grants + [Grant(res, s.pc(t).size, s.pc(t).align)],
        pc := Upd(s.pc, t, Idle(Granted(res))))
      else s.(pc := Upd(s.pc, t, Idle(Raced)))
  }

  /** One call at a time per thread. */
  ghost predicate Allowed(s: State, a: Action) { a.Request? <==> s.pc(a.t).Idle? }

  // ---------- the invariant ----------

  ghost predicate GrantOk(s: State, i: int) {
    0 <= i < |s.grants| ==>
      var g := s.grants[i];
      && g.len > 0 && g.align > 0 && g.start % g.align == 0
      && s.base <= g.start && g.start + g.len <= s.curr
  }

  ghost predicate PcOk(s: State, t: int) {
    s.pc(t).Loaded? ==>
      && GoodRequest(s.pc(t).align, s.pc(t).size)
      && s.base <= s.pc(t).seen <= s.curr && AlignUp(s.pc(t).seen, s.pc(t).align) + s.pc(t).size <= s.bound
      && s.pc(t).n <= |s.grants| && (s.pc(t).seen == s.curr <==> s.pc(t).n == |s.grants|)
  }

  /** Grants lie between the base and the frontier, in the order in which they were made. */
  ghost predicate Inv(s: State) {
    && s.base <= s.curr <= s.bound
    && (forall i :: GrantOk(s, i)) && (forall t :: PcOk(s, t))
    && forall i, j :: 0 <= i < j < |s.grants| ==> s.grants[i].start + s.grants[i].len <= s.grants[j].start
  }

  lemma StepKeepsInv(s: State, a: Action)
    requires Inv(s)
    ensures Inv(Apply(s, a))
    ensures s.curr <= Apply(s, a).curr && (|Apply(s, a).grants| > |s.grants| ==> s.curr < Apply(s, a).curr)
  {
    var s' := Apply(s, a);
    assert PcOk(s, a.t);
    forall i ensures GrantOk(s', i) { assert GrantOk(s, i); }
    forall t ensures PcOk(s', t) { assert PcOk(s, t); }
    forall i, j | 0 <= i < j < |s'.grants| ensures s'.grants[i].start + s'.grants[i].len <= s'.grants[j].start {
      assert GrantOk(s, i);
    }
  }

  ghost function Run(s: State, acts: seq<Action>): State
    decreases |acts|
  {
    if acts == [] then s else Apply(Run(s, acts[..|acts| - 1]), acts[|acts| - 1])
  }

  lemma {:induction false} RunKeepsInv(s: State, acts: seq<Action>)
    requires Inv(s)
    ensures Inv(Run(s, acts)) && s.curr <= Run(s, acts).curr
    decreases |acts|
  {
    if acts != [] {
      RunKeepsInv(s, acts[..|acts| - 1]);
      StepKeepsInv(Run(s, acts[..|acts| - 1]), acts[|acts| - 1]);
    }
  }

  /** Under any interleaving the ranges granted are disjoint, aligned as asked, and inside the file. */
  lemma GrantsDisjoint(s: State, acts: seq<Action>, i: int, j: int)
    requires Inv(s) && 0 <= i < j < |Run(s, acts).grants|
    ensures var g, g' := Run(s, acts).grants[i], Run(s, acts).grants[j];
            && g.start + g.len <= g'.start && g.align > 0 && g'.align > 0
            && g.start % g.align == 0 && g'.start % g'.align == 0
            && s.base <= g.start && g'.start + g'.len <= s.bound
  {
    RunKeepsInv(s, acts);
    RunBounds(s, acts);
    assert GrantOk(Run(s, acts), i) && GrantOk(Run(s, acts), j);
  }

  lemma {:induction false} RunBounds(s: State, acts: seq<Action>)
    ensures Run(s, acts).base == s.base && Run(s, acts).bound == s.bound
    decreases |acts|
  {
    if acts != [] { RunBounds(s, acts[..|acts| - 1]); }
  }

  // ---------- what a call gets ----------

  ghost predicate Legal(s: State, acts: seq<Action>)
    decreases |acts|
  {
    acts != [] ==> Legal(s, acts[..|acts| - 1]) && Allowed(Run(s, acts[..|acts| - 1]), acts[|acts| - 1])
  }

  /** The last request thread t has made. */
  ghost function LastRequest(acts: seq<Action>, t: int): Action
    decreases |acts|
  {
    if acts == [] then Cas(t) else
    var a := acts[|acts| - 1];
    if a.t == t && a.Request? then a else LastRequest(acts[..|acts| - 1], t)
  }

  ghost predicate Serving(pc: Pc, a: Action) { pc.Loaded? ==> a.Request? && a.align == pc.align && a.size == pc.size }

  lemma {:induction false} ServesLastRequest(s: State, acts: seq<Action>, t: int)
    requires s.pc(t).Idle? && Legal(s, acts)
    ensures Serving(Run(s, acts).pc(t), LastRequest(acts, t))
    decreases |acts|
  {
    if acts != [] { ServesLastRequest(s, acts[..|acts| - 1], t); }
  }

  /** Some place past the frontier is aligned and leaves room in the file. */
  ghost predicate Room(s: State, align: int, size: int)
    requires align > 0
  {
    exists x :: s.curr <= x && x % align == 0 && x + size <= s.bound
  }

  /** A request gets as far as the CAS if and only if it is well formed and there is room; otherwise it is
      refused. Nothing is granted yet. */
  lemma RequestIff(s: State, t: int, align: int, size: int)
    requires s.pc(t).Idle?
    ensures var s' := Apply(s, Request(t, align, size));
            && s'.curr == s.curr && s'.grants == s.grants
            && (s'.pc(t).Loaded? || s'.pc(t) == Idle(Refused))
            && (s'.pc(t).Loaded? <==> GoodRequest(align, size) && Room(s, align, size))
  {
    if GoodRequest(align, size) {
      var r := AlignUp(s.curr, align);
      forall x | s.curr <= x && x % align == 0 ensures r <= x { Arith.NextMultiple(r, x, align); }
    }
  }

  ghost predicate Outcome(p: State, p': State, align: int, size: int, ret: Ret)
    requires align > 0
  {
    match ret
    case Granted(res) =>
      && res % align == 0 && p.curr <= res < p.curr + align && p'.curr == res + size
      && p'.grants == p.grants + [Grant(res, size, align)]
    case Raced => p'.curr == p.curr && p'.grants == p.grants
    case _ => false
  }

  /** A call that comes to its CAS is granted what it asked for, at the first aligned place past the frontier,
      or nothing. */
  lemma GrantAsAsked(s: State, acts: seq<Action>, t: int)
    requires Inv(s) && s.pc(t).Idle? && Legal(s, acts) && Run(s, acts).pc(t).Loaded?
    ensures var p, a := Run(s, acts), LastRequest(acts, t);
            var p' := Apply(p, Cas(t));
            a.Request? && a.align > 0 && p'.pc(t).Idle? && Outcome(p, p', a.align, a.size, p'.pc(t).ret)
  {
    RunKeepsInv(s, acts);
    ServesLastRequest(s, acts, t);
    assert PcOk(Run(s, acts), t);
  }

  /** The frontier has no ABA problem: a CAS succeeds exactly if nothing was granted since the load. */
  lemma CasIffQuiet(s: State, t: int)
    requires Inv(s) && s.pc(t).Loaded?
    ensures |Apply(s, Cas(t)).grants| == |s.grants| + 1 <==> s.pc(t).n == |s.grants|
  {
    assert PcOk(s, t);
  }

  // ---------- the superblock region ----------

  /** Every request asks for whole superblocks, on a page boundary or better. */
  ghost predicate SbRequest(a: Action) {
    a.Request? ==> a.size % SBSIZE == 0 && (a.align == PAGESIZE || a.align == SBSIZE)
  }

  ghost predicate SbAligned(s: State) {
    && s.curr % SBSIZE == 0
    && forall t :: s.pc(t).Loaded? ==>
      s.pc(t).seen % SBSIZE == 0 && s.pc(t).size % SBSIZE == 0 && (s.pc(t).align == PAGESIZE || s.pc(t).align == SBSIZE)
  }

  /** The superblock frontier stays aligned to superblocks although most requests ask for pages only. */
  lemma SbStaysAligned(s: State, a: Action)
    requires SbAligned(s) && SbRequest(a)
    ensures SbAligned(Apply(s, a))
    ensures |Apply(s, a).grants| > |s.grants| ==> Apply(s, a).grants[|s.grants|].start == s.curr
  {
    if s.pc(a.t).Loaded? { SbNext(s.pc(a.t).seen, s.pc(a.t).size, s.pc(a.t).align); }
  }

  lemma SbNext(x: int, size: int, align: int)
    requires x % SBSIZE == 0 && size % SBSIZE == 0 && (align == PAGESIZE || align == SBSIZE)
    ensures AlignUp(x, align) == x && (x + size) % SBSIZE == 0
  {
    var q, r := x / SBSIZE, size / SBSIZE;
    Arith.DivUnique(x, PAGESIZE, 16 * q, 0);
    Arith.DivUnique(x + size, SBSIZE, q + r, 0);
  }

  lemma {:induction false} SbRunAligned(s: State, acts: seq<Action>)
    requires SbAligned(s) && forall a :: a in acts ==> SbRequest(a)
    ensures SbAligned(Run(s, acts))
    decreases |acts|
  {
    if acts != [] {
      SbRunAligned(s, acts[..|acts| - 1]);
      SbStaysAligned(Run(s, acts[..|acts| - 1]), acts[|acts| - 1]);
    }
  }

  /** Without the alignment of the first request this would fail: a page-aligned frontier stays where
      it is, off the superblock grid. */
  lemma PageAlignedOnly(s: State, t: int)
    requires Inv(s) && s.curr % PAGESIZE == 0 && s.curr % SBSIZE != 0 && s.curr + SBSIZE <= s.bound
    ensures var s' := Apply(Apply(s, Request(t, PAGESIZE, SBSIZE)), Cas(t)); s'.curr % SBSIZE != 0
  {
    assert IsPow2(PAGESIZE);
  }
}
