/** Ralloc's size classes and the table that maps a request to its class. */
module SizeClasses {
  import opened Arith

  const SBSIZE := 65536
  const MAX_SZ := 14336
  const MAX_SZ_IDX := 40

  /** The block size of class i; four classes for each doubling from 32 on. Class 0 is for large
      allocations. */
  function BlockSize(i: int): int
    decreases i
  {
    if i <= 0 then 0 else if i <= 8 then 8 * i else 2 * BlockSize(i - 4)
  }

  /** block_num and cache_block_num. */
  function BlockNum(i: int): int {
    if BlockSize(i) <= 0 then 0 else SBSIZE / BlockSize(i)
  }

  /** The classes in the table, by group. */
  lemma Table()
    ensures BlockSize(1) == 8 && BlockSize(2) == 16 && BlockSize(3) == 24 && BlockSize(4) == 32
    ensures BlockSize(5) == 40 && BlockSize(6) == 48 && BlockSize(7) == 56 && BlockSize(8) == 64
    ensures BlockSize(9) == 80 && BlockSize(10) == 96 && BlockSize(11) == 112 && BlockSize(12) == 128
    ensures BlockSize(13) == 160 && BlockSize(14) == 192 && BlockSize(15) == 224 && BlockSize(16) == 256
    ensures BlockSize(17) == 320 && BlockSize(18) == 384 && BlockSize(19) == 448 && BlockSize(20) == 512
    ensures BlockSize(21) == 640 && BlockSize(22) == 768 && BlockSize(23) == 896 && BlockSize(24) == 1024
    ensures BlockSize(25) == 1280 && BlockSize(26) == 1536 && BlockSize(27) == 1792 && BlockSize(28) == 2048
    ensures BlockSize(29) == 2560 && BlockSize(30) == 3072 && BlockSize(31) == 3584 && BlockSize(32) == 4096
    ensures BlockSize(33) == 5120 && BlockSize(34) == 6144 && BlockSize(35) == 7168
    ensures BlockSize(36) == 8192 && BlockSize(37) == 10240 && BlockSize(38) == 12288 && BlockSize(39) == MAX_SZ
  {
  }

  lemma {:induction false} Increases(i: int, j: int)
    requires 0 <= i < j
    ensures BlockSize(i) < BlockSize(j)
    decreases j
  {
    if i + 1 < j { Increases(i, j - 1); }
    StepUp(j - 1);
  }

  lemma {:induction false} StepUp(i: int)
    requires 0 <= i
    ensures BlockSize(i) < BlockSize(i + 1)
    decreases i
  {
    if i >= 8 { StepUp(i - 4); }
  }

  lemma Bounds(i: int)
    requires 1 <= i < MAX_SZ_IDX
    ensures 8 <= BlockSize(i) <= MAX_SZ && 4 <= BlockNum(i)
    ensures BlockNum(i) * BlockSize(i) <= SBSIZE < (BlockNum(i) + 1) * BlockSize(i)
  {
    Table();
    if i < 39 { Increases(i, 39); }
    if i > 1 { Increases(1, i); }
    Fits(BlockSize(i), SBSIZE / BlockSize(i));
  }

  lemma Fits(s: int, n: int)
    requires 8 <= s <= MAX_SZ && n == SBSIZE / s
    ensures 4 <= n && n * s <= SBSIZE < (n + 1) * s
  {
    Distrib(n, 1, s);
    assert SBSIZE == n * s + SBSIZE % s;
    MulLess(n, 4, s);
  }

  /** The smallest class whose blocks hold `size` bytes. */
  ghost predicate IsClass(size: int, i: int) {
    1 <= i < MAX_SZ_IDX && size <= BlockSize(i) && forall j :: 1 <= j < i ==> BlockSize(j) < size
  }

  /** The constructor of SizeClass: the lookup table is filled by one walk over sizes and classes. */
  method BuildLookup() returns (lookup: array<int>)
    ensures fresh(lookup) && lookup.Length == MAX_SZ + 1
    ensures forall size :: 0 <= size <= MAX_SZ ==> IsClass(size, lookup[size])
  {
    lookup := new int[MAX_SZ + 1](i => 0);
    Table();
    var lookupIdx, i := 0, 1;
    while i < MAX_SZ_IDX
      invariant 1 <= i <= MAX_SZ_IDX && 0 <= lookupIdx
      invariant lookupIdx == if i == 1 then 0 else BlockSize(i - 1) + 1
      invariant i == MAX_SZ_IDX ==> lookupIdx == MAX_SZ + 1
      invariant lookupIdx <= MAX_SZ + 1
      invariant forall size :: 0 <= size < lookupIdx ==> IsClass(size, lookup[size])
    {
      var blockSize := BlockSize(i);
      Bounds(i);
      forall j | 1 <= j < i ensures BlockSize(j) < lookupIdx { if j < i - 1 { Increases(j, i - 1); } }
      ghost var from := lookupIdx;
      while lookupIdx <= blockSize
        invariant from <= lookupIdx && (lookupIdx <= blockSize + 1 || lookupIdx == from)
        invariant forall size :: 0 <= size < lookupIdx ==> IsClass(size, lookup[size])
      {
        lookup[lookupIdx] := i;
        lookupIdx := lookupIdx + 1;
      }
      if i > 1 { Increases(i - 1, i); }
      i := i + 1;
    }
  }
}
