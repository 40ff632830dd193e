/** Makalu's flush tables: a small direct-mapped set of cache lines that still have to be written
    back. A line that is displaced is written back on the spot.
*/
module FlushTable {
  import opened UndoLog

  /** The start of the cache line that holds address a. */
  function LineStart(a: int): int { a - a % CACHE_LINE }

  class Table {
    const slots: array<int>            // start addresses of lines; 0 is NULL
    ghost var written: set<int>        // lines clwb has been issued for

    constructor (size: nat)
      requires size > 0
      ensures fresh(slots) && slots.Length == size && Waiting() == {} && written == {}
    {
      slots := new int[size](i => 0);
      written := {};
    }

    ghost function Waiting(): set<int>
      reads this, slots
    {
      set i | 0 <= i < slots.Length && slots[i] != 0 :: slots[i]
    }

    /** The one slot that the line of address a can be in. */
    function Slot(a: int): int
      requires slots.Length > 0
    {
      a / CACHE_LINE % slots.Length
    }

    /** add_to_flush_table. The loop visits each line of the range, but every round enters the first. */
    method Add(start: int, size: nat)
      requires slots.Length > 0 && LineStart(start) > 0
      modifies this, slots
      ensures written >= old(written)
      ensures Waiting() + written ==
              old(Waiting() + written) + (if LineStart(start) < start + size then {LineStart(start)} else {})
      ensures LineStart(start) < start + size ==> slots[Slot(start)] == LineStart(start)
      ensures forall i :: 0 <= i < slots.Length && i != Slot(start) ==> slots[i] == old(slots[i])
      ensures old(Waiting() + written) == {} ==> (Covered(start, size) <==> start % CACHE_LINE + size <= CACHE_LINE)
    {
      var clStart := LineStart(start);
      var end := start + size;
      var i := clStart;
      var cle := (clStart / CACHE_LINE) % slots.Length;
      ghost var seen := Waiting() + written;
      while i < end
        invariant clStart <= i && written >= old(written)
        invariant clStart < i ==> clStart < end && slots[cle] == clStart
        invariant forall k :: 0 <= k < slots.Length && k != cle ==> slots[k] == old(slots[k])
        invariant Waiting() + written == seen + (if clStart < i then {clStart} else {})
        decreases end - i
      {
        if slots[cle] != clStart {
          Replace(cle, clStart);
        }
        i := i + CACHE_LINE;
      }
      assert clStart < end ==> slots[cle] in Waiting();
      assert cle == Slot(start);
      CoversIff(start, size);
    }

    /** Every line of the range is waiting or has been written back. */
    ghost predicate Covered(start: int, size: nat)
      reads this, slots
    {
      forall b :: start <= b < start + size ==> LineStart(b) in Waiting() + written
    }

    /** One slot gets a new line; the line it held is written back. */
    method Replace(k: int, line: int)
      requires 0 <= k < slots.Length && line > 0
      modifies this, slots
      ensures written >= old(written) && slots[k] == line
      ensures forall i :: 0 <= i < slots.Length && i != k ==> slots[i] == old(slots[i])
      ensures Waiting() + written == old(Waiting() + written) + {line}
    {
      ghost var was := Waiting();
      if slots[k] != 0 {
        written := written + {slots[k]};
      }
      slots[k] := line;
      forall l ensures l in Waiting() + written <==> l in was + old(written) + {line} {
        if l in was {
          var i :| 0 <= i < slots.Length && old(slots[i]) == l;
          assert i != k ==> slots[i] == l;
        }
        assert slots[k] in Waiting();
      }
    }

    /** flush_all_entry: every waiting line is written back and the table is empty again. */
    method FlushAll()
      modifies this, slots
      ensures Waiting() == {} && written == old(Waiting() + written)
    {
      ghost var all := Waiting() + written;
      var i := 0;
      while i < slots.Length
        invariant 0 <= i <= slots.Length
        invariant forall k :: 0 <= k < i ==> slots[k] == 0
        invariant forall k :: i <= k < slots.Length ==> slots[k] == old(slots[k])
        invariant written == old(written) + (set k | 0 <= k < i && old(slots[k]) != 0 :: old(slots[k]))
      {
        if slots[i] != 0 {
          written := written + {slots[i]};
          slots[i] := 0;
        }
        i := i + 1;
      }
    }
  }

  /** A range lies within one line exactly if it does not reach past the end of its first line. */
  lemma CoversIff(start: int, size: nat)
    ensures (forall b :: start <= b < start + size ==> LineStart(b) == LineStart(start)) <==>
            start % CACHE_LINE + size <= CACHE_LINE
  {
    if start % CACHE_LINE + size > CACHE_LINE {
      var b := LineStart(start) + CACHE_LINE;
      assert start <= b < start + size && LineStart(b) != LineStart(start);
    }
  }

  const MAX_LOG_SZ := 4096

  /** The range that MAK_init_persistent_logs hands over, of the whole log: with nothing in the table but
      this range, its second line is neither waiting nor written back, and flushing does not help. */
  method FlushNewLog(logStart: int, size: nat) returns (t: Table)
    requires logStart > 0 && logStart % CACHE_LINE == 0 && size > 0
    ensures fresh(t) && t.Waiting() == {} && t.written == {logStart}
    ensures !t.Covered(logStart, MAX_LOG_SZ)
  {
    t := new Table(size);
    t.Add(logStart, MAX_LOG_SZ);
    t.FlushAll();
    assert t.written == {logStart};
    var b := logStart + CACHE_LINE;
    assert logStart <= b < logStart + MAX_LOG_SZ && LineStart(b) == b;
  }
}
