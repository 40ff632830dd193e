/** The array stack with helping: top holds the topmost element itself, which is copied to the node
    array in a separate step that any thread may take. Counters are unbounded.
*/
module ArrayStack {
  import opened ArrayCalls

  datatype Top = Top(value: int, index: int, counter: int)
  datatype Node = Node(value: int, counter: int)

  /** r is the top that was read. Auxiliary: `was` tells whether the stack was empty then. */
  datatype Pc =
    | Idle(ret: Ret)                         // what the last call returned
    | Full                                   // "stack is full!"
    | PushLoad(v: int)
    | PushFinishLoad(v: int, r: Top)
    | PushFinishCas(v: int, r: Top, x: int)
    | PushCounter(v: int, r: Top)
    | PushCas(v: int, r: Top, c: int)
    | PopLoad
    | PopFinishLoad(r: Top, was: bool)
    | PopFinishCas(r: Top, x: int, was: bool)
    | PopBelow(r: Top, was: bool)
    | PopCas(r: Top, below: Node)

  datatype State = State(
    size: int,
    top: Top,
    nodes: int -> Node,
    pc: int -> Pc,
    last: int -> int)        // auxiliary: the latest counter of a top at each index

  ghost function Upd<A(!new), B>(f: A -> B, a: A, b: B): A -> B { x => if x == a then b else f(x) }

  /** The values in slots 1 .. n. */
  ghost function Values(nodes: int -> Node, n: int): (r: seq<int>)
    ensures n >= 0 ==> |r| == n
    ensures forall i :: 0 <= i < |r| ==> r[i] == nodes(i + 1).value
  {
    if n <= 0 then [] else seq(n, i requires 0 <= i < n => nodes(i + 1).value)
  }

  /** The abstract stack, its top last. Index 0 means empty. */
  ghost function Contents(s: State): seq<int> {
    if s.top.index <= 0 then [] else Values(s.nodes, s.top.index - 1) + [s.top.value]
  }

  // ---------- the steps ----------

  ghost function Go(s: State, t: int, pc: Pc): State { s.(pc := Upd(s.pc, t, pc)) }

  /** The CAS of finish, having read value x from the node. */
  ghost function Finish(s: State, r: Top, x: int): State {
    if s.nodes(r.index) == Node(x, r.counter - 1) then
      s.(nodes := Upd(s.nodes, r.index, Node(r.value, r.counter)))
    else s
  }

  /** top takes a new value. */
  ghost function Move(s: State, r: Top): State { s.(top := r, last := Upd(s.last, r.index, r.counter)) }

  ghost function Step(s: State, t: int, spurious: bool): State {
    match s.pc(t)
    case Idle(_) => s
    case Full => s
    case PushLoad(v) => Go(s, t, PushFinishLoad(v, s.top))
    case PushFinishLoad(v, r) => Go(s, t, PushFinishCas(v, r, s.nodes(r.index).value))
    case PushFinishCas(v, r, x) => Go(Finish(s, r, x), t, PushCounter(v, r))
    case PushCounter(v, r) =>
      Go(s, t, if r.index == s.size - 1 then Full else PushCas(v, r, s.nodes(r.index + 1).counter))
    case PushCas(v, r, c) =>
      if Pushes(s, t, spurious) then Go(Move(s, Top(v, r.index + 1, c + 1)), t, Idle(Nothing))
      else Go(s, t, PushLoad(v))
    case PopLoad => Go(s, t, PopFinishLoad(s.top, Contents(s) == []))
    case PopFinishLoad(r, was) => Go(s, t, PopFinishCas(r, s.nodes(r.index).value, was))
    case PopFinishCas(r, x, was) => Go(Finish(s, r, x), t, PopBelow(r, was))
    case PopBelow(r, was) => Go(s, t, if r.index == 0 then Idle(Empty) else PopCas(r, s.nodes(r.index - 1)))
    case PopCas(r, below) =>
      if Pops(s, t, spurious) then
        Go(Move(s, Top(below.value, r.index - 1, below.counter + 1)), t, Idle(Value(r.value)))
      else Go(s, t, PopLoad)
  }

  /** The push of thread t is about to take effect. */
  ghost predicate Pushes(s: State, t: int, spurious: bool) { s.pc(t).PushCas? && s.top == s.pc(t).r && !spurious }

  /** The pop of thread t is about to take effect and return its top's value. */
  ghost predicate Pops(s: State, t: int, spurious: bool) { s.pc(t).PopCas? && s.top == s.pc(t).r && !spurious }

  ghost predicate Allowed(s: State, a: Action) { a.Continue? || s.pc(a.t).Idle? }

  ghost function Apply(s: State, a: Action): State {
    match a
    case Continue(t, spurious) => Step(s, t, spurious)
    case Push(t, v) => Go(s, t, PushLoad(v))
    case Pop(t) => Go(s, t, PopLoad)
  }

  // ---------- the invariant ----------

  /** Away from top every node is finished: its counter is the latest one used at its index. */
  ghost predicate NodeOk(s: State, j: int) {
    0 <= j < s.size && j != s.top.index ==> s.nodes(j).counter == s.last(j)
  }

  /** The node at top is finished, or one behind. */
  ghost predicate TopOk(s: State) {
    && 0 <= s.top.index < s.size && s.last(s.top.index) == s.top.counter
    && (s.nodes(s.top.index) == Node(s.top.value, s.top.counter) || s.nodes(s.top.index).counter == s.top.counter - 1)
  }

  ghost predicate SharedInv(s: State) { TopOk(s) && forall j :: NodeOk(s, j) }

  /** r was top at some time: index and counter never come back, so if they are those of the
      current top, r is the current top. */
  ghost predicate Seen(s: State, r: Top) {
    && 0 <= r.index < s.size && r.counter <= s.last(r.index)
    && (r.index == s.top.index && r.counter == s.top.counter ==> r == s.top)
  }

  ghost predicate Finished(s: State) { s.nodes(s.top.index) == Node(s.top.value, s.top.counter) }

  ghost predicate Local(s: State, pc: Pc) {
    match pc
    case PushFinishLoad(v, r) => Seen(s, r)
    case PushFinishCas(v, r, x) => Seen(s, r) && (s.top == r && !Finished(s) ==> x == s.nodes(r.index).value)
    case PushCounter(v, r) => Seen(s, r) && (s.top == r ==> Finished(s))
    case PushCas(v, r, c) =>
      Seen(s, r) && r.index + 1 < s.size && (s.top == r ==> Finished(s) && c == s.last(r.index + 1))
    case PopFinishLoad(r, was) => Seen(s, r) && (r.index == 0 ==> was)
    case PopFinishCas(r, x, was) =>
      Seen(s, r) && (r.index == 0 ==> was) && (s.top == r && !Finished(s) ==> x == s.nodes(r.index).value)
    case PopBelow(r, was) => Seen(s, r) && (r.index == 0 ==> was) && (s.top == r ==> Finished(s))
    case PopCas(r, below) =>
      Seen(s, r) && r.index >= 1 && (s.top == r ==> Finished(s) && below == s.nodes(r.index - 1))
    case _ => true
  }

  ghost predicate Inv(s: State) { SharedInv(s) && forall t :: Local(s, s.pc(t)) }

  /** Nothing moves, but the node at top may get finished. */
  ghost predicate Stays(s: State, s': State) {
    && s'.top == s.top && s'.last == s.last && (s'.nodes == s.nodes || Finished(s'))
    && forall j :: j != s.top.index ==> s'.nodes(j) == s.nodes(j)
  }

  /** top moves to a pair of index and counter never used before. */
  ghost predicate Moves(s: State, s': State) {
    && s'.nodes == s.nodes && s'.top.counter == s.last(s'.top.index) + 1
    && forall j :: s'.last(j) == if j == s'.top.index then s'.top.counter else s.last(j)
  }

  ghost predicate Grows(s: State, s': State) { s'.size == s.size && (Stays(s, s') || Moves(s, s')) }

  lemma LocalStable(s: State, s': State, pc: Pc)
    requires SharedInv(s) && SharedInv(s') && Grows(s, s') && Local(s, pc)
    ensures Local(s', pc)
  {
  }

  // ---------- each step ----------

  /** A late finish changes nothing; a timely one finishes the node at top. */
  lemma FinishDone(s: State, r: Top, x: int)
    requires SharedInv(s) && Seen(s, r) && (s.top == r && !Finished(s) ==> x == s.nodes(r.index).value)
    ensures var s' := Finish(s, r, x);
            && SharedInv(s') && Grows(s, s') && Seen(s', r) && (s'.top == r ==> Finished(s'))
            && Contents(s') == Contents(s)
            && (s.top != r || Finished(s) ==> s' == s)
  {
    assert NodeOk(s, r.index);
    var s' := Finish(s, r, x);
    forall j ensures NodeOk(s', j) { assert NodeOk(s, j); }
    if s.top.index > 0 { assert Values(s'.nodes, s.top.index - 1) == Values(s.nodes, s.top.index - 1); }
  }

  lemma PushStep(s: State, t: int, spurious: bool)
    requires Inv(s) && Pushes(s, t, spurious)
    ensures var s' := Step(s, t, spurious);
            SharedInv(s') && Grows(s, s') && Contents(s') == Contents(s) + [s.pc(t).v]
  {
    var pc := s.pc(t);
    assert Local(s, pc) && NodeOk(s, s.top.index + 1);
    var s' := Step(s, t, spurious);
    forall j ensures NodeOk(s', j) { assert NodeOk(s, j); }
    if s.top.index > 0 { assert Values(s'.nodes, s.top.index) == Values(s.nodes, s.top.index - 1) + [s.top.value]; }
  }

  lemma PopStep(s: State, t: int, spurious: bool)
    requires Inv(s) && Pops(s, t, spurious)
    ensures var s' := Step(s, t, spurious);
            SharedInv(s') && Grows(s, s') && Contents(s) == Contents(s') + [s.pc(t).r.value]
  {
    var pc := s.pc(t);
    assert Local(s, pc) && NodeOk(s, s.top.index - 1);
    var s' := Step(s, t, spurious);
    forall j ensures NodeOk(s', j) { assert NodeOk(s, j); }
    if s.top.index > 1 {
      assert Values(s.nodes, s.top.index - 1) == Values(s.nodes, s.top.index - 2) + [s.nodes(s.top.index - 1).value];
    }
  }

  lemma FinishStep(s: State, t: int, spurious: bool)
    requires Inv(s) && (s.pc(t).PushFinishCas? || s.pc(t).PopFinishCas?)
    ensures var s' := Step(s, t, spurious);
            SharedInv(s') && Grows(s, s') && Local(s', s'.pc(t)) && Contents(s') == Contents(s)
  {
    var pc := s.pc(t);
    assert Local(s, pc);
    FinishDone(s, pc.r, pc.x);
    var s1, s' := Finish(s, pc.r, pc.x), Step(s, t, spurious);
    forall j ensures NodeOk(s', j) { assert NodeOk(s1, j); }
  }

  lemma QuietStep(s: State, t: int, spurious: bool)
    requires Inv(s) && !Pushes(s, t, spurious) && !Pops(s, t, spurious) && !s.pc(t).PushFinishCas?
             && !s.pc(t).PopFinishCas?
    ensures var s' := Step(s, t, spurious);
            SharedInv(s') && Grows(s, s') && Local(s', s'.pc(t)) && Contents(s') == Contents(s)
  {
    var pc, s' := s.pc(t), Step(s, t, spurious);
    assert Local(s, pc);
    forall j ensures NodeOk(s', j) { assert NodeOk(s, j); }
    if pc.PushCounter? { assert NodeOk(s, pc.r.index + 1); }
  }

  // ---------- every run ----------

  /** What a step does to a sequential stack. */
  ghost predicate StackStep(s: State, s': State, a: Action) {
    if a.Continue? && Pushes(s, a.t, a.spurious) then Contents(s') == Contents(s) + [s.pc(a.t).v]
    else if a.Continue? && Pops(s, a.t, a.spurious) then Contents(s) == Contents(s') + [s.pc(a.t).r.value]
    else Contents(s') == Contents(s)
  }

  lemma StepShared(s: State, a: Action)
    requires Inv(s) && Allowed(s, a)
    ensures var s' := Apply(s, a);
            SharedInv(s') && Grows(s, s') && Local(s', s'.pc(a.t)) && StackStep(s, s', a)
  {
    if a.Continue? {
      var pc := s.pc(a.t);
      if Pushes(s, a.t, a.spurious) { PushStep(s, a.t, a.spurious); }
      else if Pops(s, a.t, a.spurious) { PopStep(s, a.t, a.spurious); }
      else if pc.PushFinishCas? || pc.PopFinishCas? { FinishStep(s, a.t, a.spurious); }
      else { QuietStep(s, a.t, a.spurious); }
    } else {
      forall j ensures NodeOk(Apply(s, a), j) { assert NodeOk(s, j); }
    }
  }

  lemma StepKeepsInv(s: State, a: Action)
    requires Inv(s) && Allowed(s, a)
    ensures Inv(Apply(s, a))
  {
    StepShared(s, a);
    forall u ensures Local(Apply(s, a), Apply(s, a).pc(u)) {
      if u != a.t {
        OwnPcOnly(s, a, u);
        assert Local(s, s.pc(u));
        LocalStable(s, Apply(s, a), s.pc(u));
      }
    }
  }

  lemma OwnPcOnly(s: State, a: Action, u: int)
    requires u != a.t
    ensures Apply(s, a).pc(u) == s.pc(u)
  {
  }

  ghost predicate Init(s: State) {
    && s.size >= 1 && s.top == Top(0, 0, 0) && (forall j :: s.nodes(j) == Node(0, 0) && s.last(j) == 0)
    && forall t :: s.pc(t) == Idle(Nothing)
  }

  lemma InitInv(s: State)
    requires Init(s)
    ensures Inv(s) && Contents(s) == []
  {
    forall j ensures NodeOk(s, j) {}
  }

  ghost function Run(s: State, acts: seq<Action>): State
    decreases |acts|
  {
    if acts == [] then s else Apply(Run(s, acts[..|acts| - 1]), acts[|acts| - 1])
  }

  /** Each call of a thread begins after its previous one has returned. */
  ghost predicate Legal(s: State, acts: seq<Action>)
    decreases |acts|
  {
    acts == [] || (Legal(s, acts[..|acts| - 1]) && Allowed(Run(s, acts[..|acts| - 1]), acts[|acts| - 1]))
  }

  /** A sequential stack on which the pushes and pops of a run are carried out in the order in which
      they take effect. */
  ghost function Sequential(s: State, acts: seq<Action>): seq<int>
    decreases |acts|
  {
    if acts == [] then [] else
    var before, a := acts[..|acts| - 1], acts[|acts| - 1];
    var p, q := Run(s, before), Sequential(s, before);
    if a.Continue? && Pushes(p, a.t, a.spurious) then q + [p.pc(a.t).v]
    else if a.Continue? && Pops(p, a.t, a.spurious) && q != [] then q[..|q| - 1]
    else q
  }

  lemma OneMore(p: State, a: Action)
    requires Inv(p) && Allowed(p, a)
    ensures var q, q' := Contents(p), Contents(Apply(p, a));
            if a.Continue? && Pushes(p, a.t, a.spurious) then q' == q + [p.pc(a.t).v]
            else if a.Continue? && Pops(p, a.t, a.spurious) then
              q != [] && q' == q[..|q| - 1] && p.pc(a.t).r.value == q[|q| - 1]
            else q' == q
  {
    StepShared(p, a);
    assert StackStep(p, Apply(p, a), a);
  }

  /** Under any interleaving the array stack holds what the sequential stack holds. */
  lemma {:induction false} Lifo(s: State, acts: seq<Action>)
    requires Init(s) && Legal(s, acts)
    ensures Inv(Run(s, acts)) && Contents(Run(s, acts)) == Sequential(s, acts)
    decreases |acts|
  {
    if acts == [] {
      InitInv(s);
    } else {
      var before, a := acts[..|acts| - 1], acts[|acts| - 1];
      Lifo(s, before);
      StepKeepsInv(Run(s, before), a);
      OneMore(Run(s, before), a);
    }
  }

  /** And a pop returns what the sequential stack would. */
  lemma PopReturnsTop(s: State, acts: seq<Action>, t: int, spurious: bool)
    requires Init(s) && Legal(s, acts) && Pops(Run(s, acts), t, spurious)
    ensures var q := Sequential(s, acts); q != [] && Run(s, acts).pc(t).r.value == q[|q| - 1]
  {
    Lifo(s, acts);
    OneMore(Run(s, acts), Continue(t, spurious));
  }

  // ---------- what each call gets ----------

  ghost function Trace(s: State, acts: seq<Action>): (r: seq<seq<int>>)
    ensures IsTrace(acts, r) && r[|acts|] == Contents(Run(s, acts))
    decreases |acts|
  {
    if acts == [] then [Contents(s)] else Trace(s, acts[..|acts| - 1]) + [Contents(Run(s, acts))]
  }

  /** What a thread has done for its last call, by where it is. */
  ghost predicate Doing(size: int, t: int, pc: Pc, call: Action, changes: seq<Change>, lengths: set<int>) {
    match pc
    case Idle(ret) => Answered(call, ret, changes, lengths, false)
    case Full => call.Push? && changes == [] && size - 1 in lengths
    case PushLoad(v) => call == Push(t, v) && changes == []
    case PushFinishLoad(v, r) => call == Push(t, v) && changes == [] && r.index in lengths
    case PushFinishCas(v, r, _) => call == Push(t, v) && changes == [] && r.index in lengths
    case PushCounter(v, r) => call == Push(t, v) && changes == [] && r.index in lengths
    case PushCas(v, _, _) => call == Push(t, v) && changes == []
    case PopLoad => call == Pop(t) && changes == []
    case PopFinishLoad(r, _) => call == Pop(t) && changes == [] && r.index in lengths
    case PopFinishCas(r, _, _) => call == Pop(t) && changes == [] && r.index in lengths
    case PopBelow(r, _) => call == Pop(t) && changes == [] && r.index in lengths
    case PopCas(_, _) => call == Pop(t) && changes == []
  }

  lemma DoingNext(p: State, t: int, spurious: bool, call: Action, changes: seq<Change>, lengths: set<int>)
    requires Inv(p) && |Contents(p)| in lengths && Doing(p.size, t, p.pc(t), call, changes, lengths)
    ensures var p' := Step(p, t, spurious);
            Doing(p.size, t, p'.pc(t), call, changes + ChangeBy(Contents(p), Contents(p')), lengths)
  {
    var p', q := Step(p, t, spurious), Contents(p);
    StepShared(p, Continue(t, spurious));
    assert StackStep(p, p', Continue(t, spurious));
    assert |q| == p.top.index;
    if Pushes(p, t, spurious) {
      assert [] + [Change(q, q + [p.pc(t).v])] == [Change(q, q + [p.pc(t).v])];
    } else if Pops(p, t, spurious) {
      assert |q| != |Contents(p')| && [] + [Change(q, Contents(p'))] == [Change(q, Contents(p'))];
    } else {
      assert changes + [] == changes;
    }
  }

  /** Under any interleaving every call that has returned did what it was called for, exactly once, and one
      that has not returned has done nothing yet; "full" is reported only if the stack held size - 1
      elements at a moment of the call. */
  lemma {:induction false} CallsAnswered(s: State, acts: seq<Action>, t: int)
    requires Init(s) && Legal(s, acts)
    ensures var call, changes := LastCall(acts, t), Changes(acts, Trace(s, acts), t);
            var lengths := Lengths(acts, Trace(s, acts), t);
            && Doing(s.size, t, Run(s, acts).pc(t), call, changes, lengths)
            && |Contents(Run(s, acts))| in lengths && Run(s, acts).size == s.size
    decreases |acts|
  {
    if acts != [] {
      var k := |acts| - 1;
      var before, a := acts[..k], acts[k];
      CallsAnswered(s, before, t);
      Lifo(s, before);
      assert Trace(s, acts)[..k + 1] == Trace(s, before);
      var p := Run(s, before);
      StepShared(p, a);
      if a.t != t {
        OwnPcOnly(p, a, t);
      } else if a.Continue? {
        DoingNext(p, t, a.spurious, LastCall(before, t), Changes(before, Trace(s, before), t),
                  Lengths(before, Trace(s, before), t));
      }
    }
  }

  // ---------- a thread that runs alone ----------

  /** How many steps a call still takes if no other thread moves. */
  ghost function StepsLeft(s: State, t: int): int {
    match s.pc(t)
    case PushLoad(_) => 5
    case PushFinishLoad(_, r) => (if r == s.top then 0 else 5) + 4
    case PushFinishCas(_, r, _) => (if r == s.top then 0 else 5) + 3
    case PushCounter(_, r) => (if r == s.top then 0 else 5) + 2
    case PushCas(_, r, _) => (if r == s.top then 0 else 5) + 1
    case PopLoad => 5
    case PopFinishLoad(r, _) => (if r == s.top then 0 else 5) + 4
    case PopFinishCas(r, _, _) => (if r == s.top then 0 else 5) + 3
    case PopBelow(r, _) => (if r == s.top then 0 else 5) + 2
    case PopCas(r, _) => (if r == s.top then 0 else 5) + 1
    case _ => 0
  }

  ghost predicate Over(pc: Pc) { pc.Idle? || pc.Full? }

  ghost function Alone(s: State, t: int, n: nat): State {
    if n == 0 then s else Step(Alone(s, t, n - 1), t, false)
  }

  lemma AloneStep(s: State, t: int)
    requires !Over(s.pc(t))
    ensures 0 < StepsLeft(s, t) <= 9 && StepsLeft(Step(s, t, false), t) < StepsLeft(s, t)
  {
  }

  lemma {:induction false} AloneFor(s: State, t: int, n: nat)
    ensures (forall m :: 0 <= m < n ==> !Over(Alone(s, t, m).pc(t))) ==> StepsLeft(Alone(s, t, n), t) <= 9 - n
  {
    if n == 0 {
      if !Over(s.pc(t)) { AloneStep(s, t); }
    } else {
      AloneFor(s, t, n - 1);
      var p := Alone(s, t, n - 1);
      assert Alone(s, t, n) == Step(p, t, false);
      if !Over(p.pc(t)) { AloneStep(p, t); }
    }
  }

  /** Push and pop are obstruction-free: if no other thread moves, a call is over after at most 9 steps. */
  lemma EndsAlone(s: State, t: int)
    ensures exists n :: 0 <= n <= 9 && Over(Alone(s, t, n).pc(t))
  {
    AloneFor(s, t, 9);
    var p := Alone(s, t, 9);
    if !Over(p.pc(t)) { AloneStep(p, t); }
  }

  /** "Empty" is returned only if the stack was empty when this pop read top. */
  lemma EmptyIsHonest(s: State, t: int, spurious: bool)
    requires Inv(s) && s.pc(t).PopBelow? && Step(s, t, spurious).pc(t).Idle?
    ensures s.pc(t).was
  {
    assert Local(s, s.pc(t));
  }

  /** The node at top has top's counter or one less; every node below is finished, and together
      with top they are the contents. */
  lemma NodesBelowFinished(s: State, j: int)
    requires Inv(s) && 0 <= j <= s.top.index
    ensures if j < s.top.index then s.nodes(j).counter == s.last(j)
            else s.nodes(j).counter == s.top.counter || s.nodes(j).counter == s.top.counter - 1
    ensures 1 <= j < s.top.index ==> s.nodes(j).value == Contents(s)[j - 1]
  {
    assert NodeOk(s, j);
  }

  /** Top has moved on from r. */
  ghost predicate Gone(s: State, r: Top) {
    0 <= r.index < s.size && r.counter <= s.last(r.index) && !(r.index == s.top.index && r.counter == s.top.counter)
  }

  lemma LeavingIsGone(s: State, a: Action)
    requires Inv(s) && Allowed(s, a) && Apply(s, a).top != s.top
    ensures Gone(Apply(s, a), s.top)
  {
    StepShared(s, a);
  }

  lemma {:induction false} StaysGone(s: State, acts: seq<Action>, r: Top)
    requires Inv(s) && Legal(s, acts) && Gone(s, r)
    ensures Inv(Run(s, acts)) && Gone(Run(s, acts), r)
    decreases |acts|
  {
    if acts != [] {
      var before, a := acts[..|acts| - 1], acts[|acts| - 1];
      StaysGone(s, before, r);
      StepKeepsInv(Run(s, before), a);
      StepShared(Run(s, before), a);
    }
  }

  /** Once a step has changed top, the index and counter it had never occur again, whatever follows. */
  lemma NeverRepeats(s: State, a: Action, acts: seq<Action>)
    requires Inv(s) && Allowed(s, a) && Apply(s, a).top != s.top && Legal(Apply(s, a), acts)
    ensures var r := Run(Apply(s, a), acts).top; r.index != s.top.index || r.counter != s.top.counter
  {
    LeavingIsGone(s, a);
    StepKeepsInv(s, a);
    StaysGone(Apply(s, a), acts, s.top);
  }

  /** A finish for a top that is gone, or already finished, is a no-op. */
  lemma LateFinishIsNoOp(s: State, r: Top, x: int)
    requires Inv(s) && Seen(s, r) && (s.top != r || Finished(s))
    ensures Finish(s, r, x) == s
  {
    FinishDone(s, r, x);
  }
}
