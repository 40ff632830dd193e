/** A thread's cache for one size class: a counted list threaded through the blocks themselves.
    Blocks are addresses; 0 is null.
*/
module TCacheBin {

  /** The first words of the blocks. */
  class Memory {
    var next: int -> int

    constructor () { next := b => 0; }
  }

  /** The blocks met by following n links from b. */
  ghost function Walk(next: int -> int, b: int, n: int): seq<int>
    decreases n
  {
    if n <= 0 || b == 0 then [] else [b] + Walk(next, next(b), n - 1)
  }

  ghost predicate NoDup(q: seq<int>) { forall i, j :: 0 <= i < j < |q| ==> q[i] != q[j] }

  /** Writing to a block that is not met changes nothing. */
  lemma {:induction false} WalkSame(next: int -> int, next': int -> int, b: int, n: int, x: int)
    requires x !in Walk(next, b, n) && forall y :: y != x ==> next'(y) == next(y)
    ensures Walk(next', b, n) == Walk(next, b, n)
    decreases n
  {
    if n > 0 && b != 0 {
      assert b in Walk(next, b, n);
      WalkSame(next, next', next(b), n - 1, x);
    }
  }

  /** After k links a walk goes on from the k-th block. */
  lemma {:induction false} WalkDrop(next: int -> int, b: int, n: int, k: int)
    requires 0 <= k < |Walk(next, b, n)|
    ensures Walk(next, Walk(next, b, n)[k], n - k) == Walk(next, b, n)[k..]
    decreases n
  {
    if k > 0 { WalkDrop(next, next(b), n - 1, k - 1); }
  }

  lemma {:induction false} WalkLength(next: int -> int, b: int, n: int)
    requires n >= 0
    ensures |Walk(next, b, n)| <= n
    decreases n
  {
    if n > 0 && b != 0 { WalkLength(next, next(b), n - 1); }
  }

  class Bin {
    const mem: Memory
    var block: int
    var num: int

    constructor (mem: Memory)
      ensures this.mem == mem && Valid() && Contents() == []
    {
      this.mem, block, num := mem, 0, 0;
    }

    ghost function Contents(): seq<int>
      reads this, mem
    {
      Walk(mem.next, block, num)
    }

    /** The count is the number of distinct blocks that the links lead to. */
    ghost predicate Valid()
      reads this, mem
    {
      num >= 0 && |Contents()| == num && NoDup(Contents())
    }

    method PushBlock(b: int)
      requires Valid() && b != 0 && b !in Contents()
      modifies this, mem
      ensures Valid() && Contents() == [b] + old(Contents())
    {
      ghost var was, next := Contents(), mem.next;
      var head := block;
      mem.next := Upd(mem.next, b, head);
      WalkSame(next, mem.next, head, num, b);
      block := b;
      num := num + 1;
    }

    /** Only for an empty cache. */
    method PushList(b: int, length: int)
      requires Valid() && num == 0 && length >= 0
      requires |Walk(mem.next, b, length)| == length && NoDup(Walk(mem.next, b, length))
      modifies this
      ensures Valid() && Contents() == Walk(mem.next, b, length)
    {
      block, num := b, length;
    }

    method PopBlock() returns (r: int)
      requires Valid() && num > 0
      modifies this
      ensures Valid() && old(Contents()) == [r] + Contents()
    {
      r := block;
      WalkLength(mem.next, mem.next(r), num - 1);
      ghost var was := Contents();
      block := mem.next(r);
      num := num - 1;
      assert Contents() == was[1..];
    }

    /** The first `length` blocks leave; b is the block that follows them. */
    method PopList(b: int, length: int)
      requires Valid() && 0 <= length <= num && (length < num ==> b == Contents()[length])
      modifies this
      ensures Valid() && Contents() == old(Contents())[length..]
    {
      ghost var was := Contents();
      if length < num { WalkDrop(mem.next, block, num, length); }
      block, num := b, num - length;
      assert Contents() == was[length..];
    }
  }

  function Upd(f: int -> int, a: int, b: int): int -> int { x => if x == a then b else f(x) }
}
