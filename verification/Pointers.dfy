/** Ralloc's pointer encodings: self-relative pointers (pptr), and the word of a list head that packs
    an offset and a counter.

    Addresses and words are numbers below 2^64. Or-ing a 16-bit pattern into a word shifted left by 16
    is adding it; masking the low bits is taking a remainder.
*/
module Pointers {

  const WORD := 0x1_0000_0000_0000_0000      // 2^64
  const REACH := 0x1_0000_0000_0000          // 2^48
  const SHIFT := 0x1_0000                    // PPTR_PATTERN_SHIFT is 16
  const POS := 0x52b0                        // PPTR_PATTERN_POS
  const NEG := 0x52b1                        // PPTR_PATTERN_NEG

  predicate IsWord(w: int) { 0 <= w < WORD }

  predicate IsNull(off: int) { off == POS }

  /** All of the low 16 bits but the lowest agree with the pattern. */
  predicate IsValid(off: int) { off % SHIFT == POS || off % SHIFT == NEG }

  /** to_pptr_off: pointer v stored in a holder at address p; 0 is null. */
  function Encode(v: int, p: int): int {
    if v == 0 then POS
    else if v > p then ((v - p) * SHIFT) % WORD + POS
    else ((p - v) * SHIFT) % WORD + NEG
  }

  /** from_pptr_off. */
  function Decode(off: int, p: int): int {
    if !IsValid(off) || IsNull(off) then 0
    else if off % 2 == 1 then (p - off / SHIFT) % WORD
    else (p + off / SHIFT) % WORD
  }

  /** The distance fits the 48 bits that the encoding keeps of it. */
  predicate InReach(v: int, p: int) { -REACH < v - p < REACH }

  /** Decoding undoes encoding exactly for null and for targets within 2^48 bytes, among them the
      holder itself. */
  lemma RoundTrip(v: int, p: int)
    requires IsWord(v) && IsWord(p)
    ensures IsWord(Encode(v, p))
    ensures Decode(Encode(v, p), p) == v <==> v == 0 || InReach(v, p)
  {
    if v > p {
      Ahead(v, p);
    } else if v != 0 {
      Behind(v, p);
    }
  }

  lemma Parts(k: int, s: int)
    requires 0 <= k < REACH && (s == POS || s == NEG)
    ensures var w := k * SHIFT + s; w / SHIFT == k && w % SHIFT == s && w % 2 == s % 2 && IsWord(w)
  {
  }

  lemma Ahead(v: int, p: int)
    requires IsWord(v) && IsWord(p) && p < v
    ensures IsWord(Encode(v, p)) && (Decode(Encode(v, p), p) == v <==> InReach(v, p))
  {
    var k := (v - p) % REACH;
    Kept(v - p);
    Parts(k, POS);
    assert Decode(Encode(v, p), p) == if k == 0 then 0 else (p + k) % WORD;
    assert k <= v - p && (k == v - p <==> v - p < REACH);
    assert (p + k) % WORD == p + k;
  }

  lemma Behind(v: int, p: int)
    requires IsWord(v) && IsWord(p) && 0 < v <= p
    ensures IsWord(Encode(v, p)) && (Decode(Encode(v, p), p) == v <==> InReach(v, p))
  {
    var k := (p - v) % REACH;
    Kept(p - v);
    Parts(k, NEG);
    assert Decode(Encode(v, p), p) == (p - k) % WORD;
    assert k <= p - v && (k == p - v <==> p - v < REACH);
    assert (p - k) % WORD == p - k;
  }

  /** Shifting left by 16 in a word keeps the low 48 bits of a distance. */
  lemma Kept(d: int)
    requires 0 <= d < WORD
    ensures (d * SHIFT) % WORD == (d % REACH) * SHIFT
  {
  }

  /** Moving holder and target together does not change the encoding. */
  lemma Relocate(v: int, p: int, d: int)
    requires IsWord(v) && IsWord(p) && v != 0 && v + d != 0
    ensures Encode(v + d, p + d) == Encode(v, p)
  {
  }

  /** Within reach different pointers have different encodings. */
  lemma Injective(v: int, w: int, p: int)
    requires IsWord(v) && IsWord(w) && IsWord(p) && (v == 0 || InReach(v, p)) && (w == 0 || InReach(w, p))
    ensures Encode(v, p) == Encode(w, p) <==> v == w
  {
    RoundTrip(v, p);
    RoundTrip(w, p);
  }

  /** atomic_pptr at address p. */
  class AtomicPptr {
    const p: int
    var off: int

    ghost predicate Valid()
      reads this
    {
      IsWord(p) && off == Encode(Decode(off, p), p) && IsWord(Decode(off, p))
        && (Decode(off, p) == 0 || InReach(Decode(off, p), p))
    }

    constructor (p: int, v: int)
      requires IsWord(p) && IsWord(v) && (v == 0 || InReach(v, p))
      ensures Valid() && this.p == p && Decode(off, p) == v
    {
      RoundTrip(v, p);
      this.p := p;
      off := Encode(v, p);
    }

    method Load() returns (v: int)
      requires Valid()
      ensures v == Decode(off, p)
    {
      v := Decode(off, p);
    }

    method Store(v: int)
      requires Valid() && IsWord(v) && (v == 0 || InReach(v, p))
      modifies this
      ensures Valid() && Decode(off, p) == v
    {
      RoundTrip(v, p);
      off := Encode(v, p);
    }

    /** compare_exchange_strong on the encoded word is compare-and-swap on the pointer; on failure the
        current pointer is returned as `seen`. */
    method CompareExchange(expected: int, desired: int) returns (ok: bool, seen: int)
      requires Valid() && IsWord(expected) && (expected == 0 || InReach(expected, p))
      requires IsWord(desired) && (desired == 0 || InReach(desired, p))
      modifies this
      ensures Valid()
      ensures ok <==> old(Decode(off, p)) == expected
      ensures Decode(off, p) == if ok then desired else old(Decode(off, p))
      ensures seen == if ok then expected else old(Decode(off, p))
    {
      var oldOff, newOff := Encode(expected, p), Encode(desired, p);
      Injective(expected, Decode(off, p), p);
      RoundTrip(desired, p);
      ok := off == oldOff;
      if ok {
        off, seen := newOff, expected;
      } else {
        seen := if IsNull(off) then 0 else Decode(off, p);
      }
    }
  }

  // ---------- list heads: a 30-bit offset and a 34-bit counter ----------

  const OFFSETS := 0x4000_0000               // 2^MAX_DESC_OFFSET_BITS
  const COUNTERS := 0x4_0000_0000            // 2^34

  /** A descriptor pointer and its counter; 0 is null. */
  datatype PtrCnt = PtrCnt(ptr: int, cnt: int)

  /** The word for a pointer into the region at `base`. Or-ing the offset is adding it while it fits
      its 30 bits. */
  function Pack(x: PtrCnt, base: int): int {
    (x.cnt * OFFSETS) % WORD + (if x.ptr == 0 then 0 else x.ptr - base)
  }

  function Unpack(w: int, base: int): PtrCnt {
    PtrCnt(if w % OFFSETS == 0 then 0 else base + w % OFFSETS, w / OFFSETS)
  }

  /** Packing is undone exactly for counters below 2^34 and for pointers that are not the start of the
      region: offset zero stands for null. */
  lemma PackRoundTrip(x: PtrCnt, base: int)
    requires x.cnt >= 0 && base > 0 && (x.ptr == 0 || base <= x.ptr < base + OFFSETS)
    ensures Unpack(Pack(x, base), base) == x <==> x.cnt < COUNTERS && x.ptr != base
  {
    CounterKept(x.cnt);
    var o := if x.ptr == 0 then 0 else x.ptr - base;
    var c := x.cnt % COUNTERS;
    assert Pack(x, base) == c * OFFSETS + o;
  }

  lemma CounterKept(c: int)
    requires c >= 0
    ensures (c * OFFSETS) % WORD == (c % COUNTERS) * OFFSETS
  {
  }
}
