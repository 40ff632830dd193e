/** Calls of push and pop, and what a run shows of them: the contents before and after each action, and
    what each call returns. Nothing here knows how the calls are carried out.
*/
module ArrayCalls {

  datatype Action = Continue(t: int, spurious: bool) | Push(t: int, v: int) | Pop(t: int)

  /** What a call returns: nothing from a push; from a pop "empty" or a value. */
  datatype Ret = Nothing | Empty | Value(x: int)

  datatype Change = Change(before: seq<int>, after: seq<int>)

  /** The last call of thread t. */
  ghost function LastCall(acts: seq<Action>, t: int): Action
    decreases |acts|
  {
    if acts == [] then Continue(t, false) else
    var a := acts[|acts| - 1];
    if a.t == t && !a.Continue? then a else LastCall(acts[..|acts| - 1], t)
  }

  /** trace[i] are the contents after the first i actions. */
  ghost predicate IsTrace(acts: seq<Action>, trace: seq<seq<int>>) { |trace| == |acts| + 1 }

  ghost function ChangeBy(q: seq<int>, q': seq<int>): seq<Change> { if q' == q then [] else [Change(q, q')] }

  /** How thread t has changed the contents since its last call began. */
  ghost function Changes(acts: seq<Action>, trace: seq<seq<int>>, t: int): seq<Change>
    requires IsTrace(acts, trace)
    decreases |acts|
  {
    if acts == [] then [] else
    var k := |acts| - 1;
    var here := ChangeBy(trace[k], trace[k + 1]);
    if acts[k].t != t then Changes(acts[..k], trace[..k + 1], t)
    else if acts[k].Continue? then Changes(acts[..k], trace[..k + 1], t) + here
    else here
  }

  /** How many elements there have been at the moments since then. */
  ghost function Lengths(acts: seq<Action>, trace: seq<seq<int>>, t: int): set<int>
    requires IsTrace(acts, trace)
    decreases |acts|
  {
    var k := |acts| - 1;
    var now := {|trace[k + 1]|};
    if acts == [] || (acts[k].t == t && !acts[k].Continue?) then now
    else Lengths(acts[..k], trace[..k + 1], t) + now
  }

  /** A call that has returned did what it was called for, once: a push added its argument at the end; a
      pop took and returned the first element, or of a stack the last, or there was none at a moment
      of the call. */
  ghost predicate Answered(call: Action, ret: Ret, changes: seq<Change>, lengths: set<int>, fifo: bool) {
    match call
    case Continue(_, _) => changes == []
    case Push(_, v) => ret == Nothing && exists q :: changes == [Change(q, q + [v])]
    case Pop(_) =>
      match ret {
        case Nothing => false
        case Empty => changes == [] && 0 in lengths
        case Value(x) => exists q :: changes == [Change(if fifo then [x] + q else q + [x], q)]
      }
  }
}
