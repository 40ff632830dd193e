/** The array queue with helping: the CAS on rear and the write to the node array are separate
    steps, and any thread may finish another's write.

    Enqueues are numbered; the initial contents of the slots count as enqueues 1 .. size of value 0,
    so enqueue n goes to slot n % size with counter (n - 1) / size. Counters are unbounded.
*/
module ArrayQueue {
  import opened Arith
  import opened ArrayCalls

  datatype Rear = Rear(value: int, index: int, counter: int)
  datatype Front = Front(index: int, counter: int)
  datatype Node = Node(value: int, counter: int)

  /** r and f are the rear and the front that were read. Auxiliary: k and g are their numbers, and
      `len` is how many elements the queue held when a push read front, `was` tells whether it was
      empty when a pop read rear. */
  datatype Pc =
    | Idle(ret: Ret)                         // what the last call returned
    | Full                                   // "queue is full!"
    | PushLoadRear(v: int)
    | PushLoadFront(v: int, r: Rear, k: int)
    | PushRecheck(v: int, r: Rear, f: Front, k: int, g: int, len: int)
    | PushFinishLoad(v: int, r: Rear, f: Front, k: int, g: int, len: int)
    | PushFinishCas(v: int, r: Rear, f: Front, x: int, k: int, g: int, len: int)
    | PushCounter(v: int, r: Rear, f: Front, k: int, g: int, len: int)
    | PushCas(v: int, r: Rear, c: int, k: int, g: int)
    | PopLoadFront
    | PopLoadRear(f: Front, g: int)
    | PopRecheck(f: Front, r: Rear, g: int, k: int, was: bool)
    | PopTest(f: Front, r: Rear, g: int, k: int, was: bool)
    | PopFinishLoad(f: Front, r: Rear, g: int, k: int, was: bool)
    | PopFinishCas(f: Front, r: Rear, x: int, g: int, k: int, was: bool)
    | PopRead(f: Front, r: Rear, g: int, k: int, was: bool)
    | PopCas(f: Front, y: int, g: int)

  datatype State = State(
    size: int,
    rear: Rear,
    front: Front,
    nodes: int -> Node,
    pc: int -> Pc,
    // auxiliary from here on
    hist: seq<int>,          // the values of all enqueues so far
    popped: int,             // the number of the last dequeued one
    fin: int)                // the number of the last one written to its slot

  ghost function Upd<A(!new), B>(f: A -> B, a: A, b: B): A -> B { x => if x == a then b else f(x) }

  /** The abstract queue. */
  ghost function Contents(s: State): seq<int> {
    if 0 <= s.popped <= |s.hist| then s.hist[s.popped..] else []
  }

  // ---------- slots and counters of the n-th enqueue ----------

  ghost function Idx(size: int, n: int): int
    decreases n
  {
    if size <= 0 || n < size then n else Idx(size, n - size)
  }

  ghost function Cnt(size: int, n: int): int
    decreases n
  {
    if size <= 0 || n <= size then 0 else Cnt(size, n - size) + 1
  }

  ghost function RearAt(s: State, k: int): Rear {
    Rear(if 1 <= k <= |s.hist| then s.hist[k - 1] else 0, Idx(s.size, k), Cnt(s.size, k))
  }

  ghost function FrontAt(s: State, g: int): Front { Front(Idx(s.size, g + 1), g - s.size) }

  // ---------- the steps ----------

  ghost function Go(s: State, t: int, pc: Pc): State { s.(pc := Upd(s.pc, t, pc)) }

  /** The CAS of finish_enqueue, having read value x from the slot. */
  ghost function Finish(s: State, r: Rear, x: int, k: int): State {
    if s.nodes(r.index) == Node(x, r.counter - 1) then
      s.(nodes := Upd(s.nodes, r.index, Node(r.value, r.counter)), fin := k)
    else s
  }

  ghost function Step(s: State, t: int, spurious: bool): State
    requires s.size > 0
  {
    match s.pc(t)
    case Idle(_) => s
    case Full => s
    case PushLoadRear(v) => Go(s, t, PushLoadFront(v, s.rear, |s.hist|))
    case PushLoadFront(v, r, k) => Go(s, t, PushRecheck(v, r, s.front, k, s.popped, |Contents(s)|))
    case PushRecheck(v, r, f, k, g, len) =>
      Go(s, t, if s.rear == r then PushFinishLoad(v, r, f, k, g, len) else PushLoadRear(v))
    case PushFinishLoad(v, r, f, k, g, len) => Go(s, t, PushFinishCas(v, r, f, s.nodes(r.index).value, k, g, len))
    case PushFinishCas(v, r, f, x, k, g, len) => Go(Finish(s, r, x, k), t, PushCounter(v, r, f, k, g, len))
    case PushCounter(v, r, f, k, g, len) =>
      if f.index == (r.index + 2) % s.size then Go(s, t, Full)
      else Go(s, t, PushCas(v, r, s.nodes((r.index + 1) % s.size).counter + 1, k, g))
    case PushCas(v, r, c, k, g) =>
      if Enqueues(s, t, spurious) then
        Go(s, t, Idle(Nothing)).(rear := Rear(v, (r.index + 1) % s.size, c), hist := s.hist + [v])
      else Go(s, t, PushLoadRear(v))
    case PopLoadFront => Go(s, t, PopLoadRear(s.front, s.popped))
    case PopLoadRear(f, g) => Go(s, t, PopRecheck(f, s.rear, g, |s.hist|, Contents(s) == []))
    case PopRecheck(f, r, g, k, was) => Go(s, t, if s.front == f then PopTest(f, r, g, k, was) else PopLoadFront)
    case PopTest(f, r, g, k, was) =>
      Go(s, t, if f.index == r.index then PopFinishLoad(f, r, g, k, was) else PopRead(f, r, g, k, was))
    case PopFinishLoad(f, r, g, k, was) => Go(s, t, PopFinishCas(f, r, s.nodes(r.index).value, g, k, was))
    case PopFinishCas(f, r, x, g, k, was) => Go(Finish(s, r, x, k), t, PopRead(f, r, g, k, was))
    case PopRead(f, r, g, k, was) =>
      if ReturnsEmpty(s, t) then Go(s, t, Idle(Empty))
      else Go(s, t, PopCas(f, s.nodes(f.index % s.size).value, g))
    case PopCas(f, y, g) =>
      if Returns(s, t) then
        Go(s, t, Idle(Value(y))).(front := Front((f.index + 1) % s.size, f.counter + 1), popped := s.popped + 1)
      else Go(s, t, PopLoadFront)
  }

  /** The pop of thread t is about to return "empty". */
  ghost predicate ReturnsEmpty(s: State, t: int)
    requires s.size > 0
  {
    s.pc(t).PopRead? && s.pc(t).f.index == (s.pc(t).r.index + 1) % s.size
  }

  /** The pop of thread t is about to return the value it read. */
  ghost predicate Returns(s: State, t: int) { s.pc(t).PopCas? && s.front == s.pc(t).f }

  /** The push of thread t is about to take effect. */
  ghost predicate Enqueues(s: State, t: int, spurious: bool) {
    s.pc(t).PushCas? && s.rear == s.pc(t).r && !spurious
  }

  ghost predicate Allowed(s: State, a: Action) { a.Continue? || s.pc(a.t).Idle? }

  ghost function Apply(s: State, a: Action): State
    requires s.size > 0
  {
    match a
    case Continue(t, spurious) => Step(s, t, spurious)
    case Push(t, v) => Go(s, t, PushLoadRear(v))
    case Pop(t) => Go(s, t, PopLoadFront)
  }

  // ---------- numbers ----------

  lemma {:induction false} IdxRange(size: int, n: int)
    requires size >= 1 && n >= 0
    ensures 0 <= Idx(size, n) < size && Cnt(size, n) >= 0
    decreases n
  {
    if n >= size { IdxRange(size, n - size); }
  }

  /** Two numbers less than a round apart have the same slot only if they are equal. */
  lemma {:induction false} IdxNear(size: int, a: int, b: int)
    requires size >= 1 && 0 <= a <= b < a + size
    ensures Idx(size, a) == Idx(size, b) <==> a == b
    ensures a >= 1 ==> Cnt(size, b) == Cnt(size, a) || Cnt(size, b) == Cnt(size, a) + 1
    decreases a
  {
    if a >= size { IdxNear(size, a - size, b - size); }
    else if b >= size { assert Idx(size, b) == b - size; }
  }

  lemma {:induction false} IdxNext(size: int, n: int)
    requires size >= 2 && n >= 0
    ensures (Idx(size, n) + 1) % size == Idx(size, n + 1)
    ensures (Idx(size, n) + 2) % size == Idx(size, n + 2)
    decreases n
  {
    if n >= size { IdxNext(size, n - size); }
  }

  /** Slot and counter together identify an enqueue. */
  lemma {:induction false} Unique(size: int, a: int, b: int)
    requires size >= 1 && a >= 1 && b >= 1 && Idx(size, a) == Idx(size, b) && Cnt(size, a) == Cnt(size, b)
    ensures a == b
    decreases a + b
  {
    IdxRange(size, a);
    IdxRange(size, b);
    if a > size && b > size {
      Unique(size, a - size, b - size);
    } else if a > size {
      IdxRange(size, a - size);
      assert false;
    } else if b > size {
      IdxRange(size, b - size);
      assert false;
    } else {
      IdxNear(size, if a < b then a else b, if a < b then b else a);
    }
  }

  /** The last enqueue up to m that went to the slot of enqueue k. */
  ghost function Latest(size: int, k: int, m: int): int
    decreases m - k
  {
    if size <= 0 || k + size > m then k else Latest(size, k + size, m)
  }

  lemma {:induction false} LatestIs(size: int, k: int, m: int)
    requires size >= 1 && 1 <= k <= m
    ensures var n := Latest(size, k, m);
            && m - size < n <= m && k <= n && Idx(size, n) == Idx(size, k) && Cnt(size, n) >= Cnt(size, k)
    decreases m - k
  {
    if k + size <= m { LatestIs(size, k + size, m); }
  }

  // ---------- the invariant ----------

  ghost predicate SlotOk(s: State, n: int) {
    s.fin - s.size < n <= s.fin ==> s.nodes(Idx(s.size, n)) == Node(RearAt(s, n).value, Cnt(s.size, n))
  }

  ghost predicate SharedAt(s: State, n: int) {
    && s.size >= 2 && s.size <= s.popped <= |s.hist| < s.popped + s.size
    && s.rear == RearAt(s, |s.hist|) && s.front == FrontAt(s, s.popped)
    && s.size <= s.fin <= |s.hist| <= s.fin + 1
    && SlotOk(s, n)
  }

  /** Rear and front stand for the number of enqueues and dequeues; each slot holds the last finished
      enqueue that went to it; all enqueues but perhaps the last are finished. */
  ghost predicate SharedInv(s: State) { s.size >= 2 && forall n :: SharedAt(s, n) }

  ghost predicate RearRead(s: State, r: Rear, k: int) { s.size <= k <= |s.hist| && r == RearAt(s, k) }

  ghost predicate FrontRead(s: State, f: Front, g: int) { s.size <= g <= s.popped && f == FrontAt(s, g) }

  /** What a thread knows from its reads. A pair of reads that was confirmed belongs to one moment. */
  ghost predicate Local(s: State, pc: Pc) {
    match pc
    case PushLoadFront(v, r, k) => RearRead(s, r, k)
    case PushRecheck(v, r, f, k, g, len) =>
      RearRead(s, r, k) && FrontRead(s, f, g) && (|s.hist| == k ==> g <= k < g + s.size && len == k - g)
    case PushFinishLoad(v, r, f, k, g, len) =>
      RearRead(s, r, k) && FrontRead(s, f, g) && g <= k < g + s.size && len == k - g
    case PushFinishCas(v, r, f, x, k, g, len) =>
      && RearRead(s, r, k) && FrontRead(s, f, g) && g <= k < g + s.size && len == k - g
      && (s.fin < k ==> x == s.nodes(r.index).value)
    case PushCounter(v, r, f, k, g, len) =>
      RearRead(s, r, k) && FrontRead(s, f, g) && g <= k < g + s.size && k <= s.fin && len == k - g
    case PushCas(v, r, c, k, g) =>
      && RearRead(s, r, k) && s.size <= g <= s.popped && k + 1 < g + s.size && k <= s.fin
      && (|s.hist| == k ==> c == Cnt(s.size, k + 1))
    case PopLoadRear(f, g) => FrontRead(s, f, g)
    case PopRecheck(f, r, g, k, was) =>
      && RearRead(s, r, k) && FrontRead(s, f, g)
      && (s.popped == g ==> g <= k < g + s.size && (k == g ==> was))
    case PopTest(f, r, g, k, was) => RearRead(s, r, k) && FrontRead(s, f, g) && g <= k < g + s.size && (k == g ==> was)
    case PopFinishLoad(f, r, g, k, was) => RearRead(s, r, k) && FrontRead(s, f, g) && k == g + 1
    case PopFinishCas(f, r, x, g, k, was) =>
      RearRead(s, r, k) && FrontRead(s, f, g) && k == g + 1 && (s.fin < k ==> x == s.nodes(r.index).value)
    case PopRead(f, r, g, k, was) =>
      && RearRead(s, r, k) && FrontRead(s, f, g) && g <= k < g + s.size && (k == g ==> was)
      && (k > g ==> g + 1 <= s.fin)
    case PopCas(f, y, g) => FrontRead(s, f, g) && (s.popped == g ==> g < |s.hist| && y == RearAt(s, g + 1).value)
    case _ => true
  }

  ghost predicate Inv(s: State) { SharedInv(s) && forall t :: Local(s, s.pc(t)) }

  /** How the shared state may change. */
  ghost predicate Grows(s: State, s': State) {
    && s'.size == s.size && s.hist <= s'.hist && s.popped <= s'.popped && s.fin <= s'.fin
    && (s'.fin == s.fin ==> s'.nodes == s.nodes)
  }

  lemma LocalStable(s: State, s': State, pc: Pc)
    requires SharedInv(s) && SharedInv(s') && Grows(s, s') && Local(s, pc)
    ensures Local(s', pc)
  {
    assert SharedAt(s, 0) && SharedAt(s', 0);
    forall r, k | RearRead(s, r, k) ensures RearRead(s', r, k) {}
    forall f, g | FrontRead(s, f, g) ensures FrontRead(s', f, g) {}
  }

  // ---------- each step ----------

  lemma FinishDone(s: State, r: Rear, x: int, k: int)
    requires SharedInv(s) && RearRead(s, r, k) && (s.fin < k ==> x == s.nodes(r.index).value)
    ensures var s' := Finish(s, r, x, k); SharedInv(s') && Grows(s, s') && k <= s'.fin && Contents(s') == Contents(s)
  {
    assert SharedAt(s, 0);
    var n := if k <= s.fin then Latest(s.size, k, s.fin) else k - s.size;
    if k <= s.fin { LatestIs(s.size, k, s.fin); }
    assert SharedAt(s, n);
    IdxRange(s.size, k);
    var s' := Finish(s, r, x, k);
    forall m ensures SharedAt(s', m) {
      assert SharedAt(s, m);
      if s'.fin != s.fin && k - s.size < m < k { IdxNear(s.size, m, k); }
    }
  }

  /** Steps that only read: the front and rear read last. */
  lemma ReadStep(s: State, t: int, spurious: bool)
    requires Inv(s)
    requires var pc := s.pc(t);
             || pc.PushLoadRear? || pc.PushLoadFront? || pc.PushRecheck? || pc.PushFinishLoad?
             || pc.PopLoadFront? || pc.PopLoadRear? || pc.PopRecheck? || pc.PopFinishLoad?
    ensures Local(s, Step(s, t, spurious).pc(t))
  {
    assert SharedAt(s, 0);
    var pc := s.pc(t);
    assert Local(s, pc);
    if pc.PushRecheck? && s.rear == pc.r { Unique(s.size, |s.hist|, pc.k); }
  }

  lemma TestStep(s: State, t: int, spurious: bool)
    requires Inv(s) && s.pc(t).PopTest?
    ensures Local(s, Step(s, t, spurious).pc(t))
  {
    assert SharedAt(s, 0);
    var pc := s.pc(t);
    assert Local(s, pc);
    if pc.k >= pc.g + 1 { IdxNear(s.size, pc.g + 1, pc.k); } else { IdxNear(s.size, pc.g, pc.g + 1); }
  }

  lemma FinishStep(s: State, t: int, spurious: bool)
    requires Inv(s) && (s.pc(t).PushFinishCas? || s.pc(t).PopFinishCas?)
    ensures var s' := Step(s, t, spurious);
            SharedInv(s') && Grows(s, s') && Local(s', s'.pc(t)) && Contents(s') == Contents(s)
  {
    var pc, s' := s.pc(t), Step(s, t, spurious);
    assert Local(s, pc);
    FinishDone(s, pc.r, pc.x, pc.k);
    var s1 := Finish(s, pc.r, pc.x, pc.k);
    FinishedLocal(s, s1, pc, s'.pc(t));
    SameShared(s1, s');
  }

  lemma FinishedLocal(s: State, s1: State, pc: Pc, pc': Pc)
    requires SharedInv(s) && SharedInv(s1) && Grows(s, s1) && Local(s, pc)
    requires pc.PushFinishCas? || pc.PopFinishCas?
    requires pc' == if pc.PushFinishCas? then PushCounter(pc.v, pc.r, pc.f, pc.k, pc.g, pc.len)
                    else PopRead(pc.f, pc.r, pc.g, pc.k, pc.was)
    requires pc.k <= s1.fin
    ensures Local(s1, pc')
  {
    LocalStable(s, s1, pc);
  }

  /** The queue is found full only if it is: size - 1 elements. */
  lemma FullTest(s: State, r: Rear, f: Front, k: int, g: int)
    requires s.size >= 2 && s.size <= g <= k < g + s.size && r.index == Idx(s.size, k) && f.index == Idx(s.size, g + 1)
    ensures f.index == (r.index + 2) % s.size <==> k == g + s.size - 1
  {
    IdxNext(s.size, k);
    if k + 2 < g + 1 + s.size { IdxNear(s.size, g + 1, k + 2); }
    else { assert Idx(s.size, k + 2) == Idx(s.size, k + 2 - s.size); }
  }

  lemma CounterStep(s: State, t: int, spurious: bool)
    requires Inv(s) && s.pc(t).PushCounter?
    ensures Local(s, Step(s, t, spurious).pc(t))
  {
    assert SharedAt(s, 0);
    var pc := s.pc(t);
    assert Local(s, pc);
    FullTest(s, pc.r, pc.f, pc.k, pc.g);
    IdxNext(s.size, pc.k);
    if |s.hist| == pc.k {
      assert SharedAt(s, pc.k + 1 - s.size);
      assert Idx(s.size, pc.k + 1) == Idx(s.size, pc.k + 1 - s.size);
    }
  }

  /** A push takes effect at the back of the queue. */
  lemma EnqueueStep(s: State, t: int, spurious: bool)
    requires Inv(s) && Enqueues(s, t, spurious)
    ensures var s' := Step(s, t, spurious);
            && SharedInv(s') && Grows(s, s')
            && Contents(s') == Contents(s) + [s.pc(t).v] && |Contents(s')| <= s.size - 1
  {
    assert SharedAt(s, 0);
    var pc := s.pc(t);
    assert Local(s, pc);
    Unique(s.size, |s.hist|, pc.k);
    IdxNext(s.size, pc.k);
    var s' := Step(s, t, spurious);
    forall n ensures SharedAt(s', n) { assert SharedAt(s, n); }
    assert s'.hist[s.popped..] == s.hist[s.popped..] + [pc.v];
  }

  /** The queue is found empty exactly if front and rear, as read, leave nothing between them. */
  lemma EmptyTest(size: int, r: Rear, f: Front, k: int, g: int)
    requires size >= 2 && size <= g <= k < g + size && r.index == Idx(size, k) && f.index == Idx(size, g + 1)
    ensures f.index == (r.index + 1) % size <==> k == g
    ensures f.index % size == Idx(size, g + 1)
  {
    IdxNext(size, k);
    assert f.index % size == f.index by {
      IdxRange(size, g + 1);
      DivUnique(f.index, size, 0, f.index);
    }
    IdxNear(size, g + 1, k + 1);
  }

  lemma EmptyStep(s: State, t: int, spurious: bool)
    requires Inv(s) && s.pc(t).PopRead?
    ensures ReturnsEmpty(s, t) <==> s.pc(t).k == s.pc(t).g
    ensures Local(s, Step(s, t, spurious).pc(t))
  {
    assert SharedAt(s, 0);
    var pc := s.pc(t);
    assert Local(s, pc);
    EmptyTest(s.size, pc.r, pc.f, pc.k, pc.g);
    if pc.k > pc.g && s.popped == pc.g { assert SharedAt(s, pc.g + 1); }
  }

  /** A pop takes the front of the queue. */
  lemma DequeueStep(s: State, t: int, spurious: bool)
    requires Inv(s) && Returns(s, t)
    ensures var s' := Step(s, t, spurious);
            SharedInv(s') && Grows(s, s') && Contents(s) == [s.pc(t).y] + Contents(s')
  {
    assert SharedAt(s, 0);
    var pc := s.pc(t);
    assert Local(s, pc);
    IdxNext(s.size, s.popped + 1);
    var s' := Step(s, t, spurious);
    forall n ensures SharedAt(s', n) { assert SharedAt(s, n); }
    assert s.hist[s.popped..] == [s.hist[s.popped]] + s.hist[s.popped + 1..];
  }

  // ---------- every run ----------

  /** What one step does to the queue: nothing, or an enqueue, or the matching dequeue. */
  ghost predicate QueueStep(s: State, s': State, a: Action)
    requires s.size > 0
  {
    if a.Continue? && Enqueues(s, a.t, a.spurious) then Contents(s') == Contents(s) + [s.pc(a.t).v]
    else if a.Continue? && Returns(s, a.t) then Contents(s) == [s.pc(a.t).y] + Contents(s')
    else Contents(s') == Contents(s)
  }

  lemma StepShared(s: State, a: Action)
    requires Inv(s) && Allowed(s, a)
    ensures var s' := Apply(s, a);
            SharedInv(s') && Grows(s, s') && Local(s', s'.pc(a.t)) && QueueStep(s, s', a)
  {
    assert SharedAt(s, 0);
    if a.Continue? {
      var pc := s.pc(a.t);
      if Enqueues(s, a.t, a.spurious) { EnqueueStep(s, a.t, a.spurious); }
      else if Returns(s, a.t) { DequeueStep(s, a.t, a.spurious); }
      else if pc.PushFinishCas? || pc.PopFinishCas? { FinishStep(s, a.t, a.spurious); }
      else { QuietStep(s, a.t, a.spurious); }
    } else {
      SameShared(s, Apply(s, a));
    }
  }

  lemma SameShared(s: State, s': State)
    requires SharedInv(s) && s' == s.(pc := s'.pc)
    ensures SharedInv(s') && Grows(s, s') && Contents(s') == Contents(s)
    ensures forall pc :: Local(s', pc) == Local(s, pc)
  {
    assert SharedAt(s, 0);
    forall n ensures SharedAt(s', n) { assert SharedAt(s, n); }
    forall r, k ensures RearRead(s', r, k) == RearRead(s, r, k) {}
    forall f, g ensures FrontRead(s', f, g) == FrontRead(s, f, g) {}
  }

  lemma QuietStep(s: State, t: int, spurious: bool)
    requires Inv(s) && !Enqueues(s, t, spurious) && !Returns(s, t) && !s.pc(t).PushFinishCas? && !s.pc(t).PopFinishCas?
    ensures var s' := Step(s, t, spurious);
            SharedInv(s') && Grows(s, s') && Local(s', s'.pc(t)) && Contents(s') == Contents(s)
  {
    assert SharedAt(s, 0);
    var pc, s' := s.pc(t), Step(s, t, spurious);
    SameShared(s, s');
    assert Local(s, pc);
    match pc
    case PushCounter(_, _, _, _, _, _) => CounterStep(s, t, spurious);
    case PopTest(_, _, _, _, _) => TestStep(s, t, spurious);
    case PopRead(_, _, _, _, _) => EmptyStep(s, t, spurious);
    case PushCas(_, _, _, _, _) =>
    case PopCas(_, _, _) =>
    case Idle(_) =>
    case Full =>
    case _ => ReadStep(s, t, spurious);
  }

  lemma StepKeepsInv(s: State, a: Action)
    requires Inv(s) && Allowed(s, a)
    ensures Inv(Apply(s, a))
  {
    StepShared(s, a);
    forall u ensures Local(Apply(s, a), Apply(s, a).pc(u)) { OthersKeep(s, a, u); }
  }

  lemma OthersKeep(s: State, a: Action, u: int)
    requires Inv(s) && Allowed(s, a) && SharedInv(Apply(s, a)) && Grows(s, Apply(s, a))
    requires Local(Apply(s, a), Apply(s, a).pc(a.t))
    ensures Local(Apply(s, a), Apply(s, a).pc(u))
  {
    if u != a.t {
      OwnPcOnly(s, a, u);
      assert Local(s, s.pc(u));
      LocalStable(s, Apply(s, a), s.pc(u));
    }
  }

  lemma OwnPcOnly(s: State, a: Action, u: int)
    requires s.size > 0 && u != a.t
    ensures Apply(s, a).pc(u) == s.pc(u)
  {
  }

  /** The queue as constructed. */
  ghost predicate Init(s: State) {
    && s.size >= 2 && s.rear == Rear(0, 0, 0) && s.front == Front(1, 0)
    && (forall i :: s.nodes(i) == Node(0, 0)) && (forall t :: s.pc(t) == Idle(Nothing))
    && |s.hist| == s.size && (forall i :: 0 <= i < s.size ==> s.hist[i] == 0) && s.popped == s.size && s.fin == s.size
  }

  lemma InitInv(s: State)
    requires Init(s)
    ensures Inv(s) && Contents(s) == []
  {
    assert Idx(s.size, 0) == 0 && Idx(s.size, 1) == 1;
    assert Idx(s.size, s.size) == Idx(s.size, 0) && Idx(s.size, s.size + 1) == Idx(s.size, 1);
    forall n ensures SharedAt(s, n) {}
  }

  ghost function Run(s: State, acts: seq<Action>): State
    requires s.size > 0
    ensures Run(s, acts).size == s.size
    decreases |acts|
  {
    if acts == [] then s else Apply(Run(s, acts[..|acts| - 1]), acts[|acts| - 1])
  }

  /** Each call of a thread begins after its previous one has returned. */
  ghost predicate Legal(s: State, acts: seq<Action>)
    requires s.size > 0
    decreases |acts|
  {
    acts == [] || (Legal(s, acts[..|acts| - 1]) && Allowed(Run(s, acts[..|acts| - 1]), acts[|acts| - 1]))
  }

  ghost function EnqueuedBy(p: State, a: Action): seq<int> {
    if a.Continue? && Enqueues(p, a.t, a.spurious) then [p.pc(a.t).v] else []
  }

  ghost function ReturnedBy(p: State, a: Action): seq<int> {
    if a.Continue? && Returns(p, a.t) then [p.pc(a.t).y] else []
  }

  /** The values whose push has taken effect along a run, in that order. */
  ghost function Enqueued(s: State, acts: seq<Action>): seq<int>
    requires s.size > 0
    decreases |acts|
  {
    if acts == [] then [] else
    Enqueued(s, acts[..|acts| - 1]) + EnqueuedBy(Run(s, acts[..|acts| - 1]), acts[|acts| - 1])
  }

  /** The values pops have returned along a run, in that order. */
  ghost function Returned(s: State, acts: seq<Action>): seq<int>
    requires s.size > 0
    decreases |acts|
  {
    if acts == [] then [] else
    Returned(s, acts[..|acts| - 1]) + ReturnedBy(Run(s, acts[..|acts| - 1]), acts[|acts| - 1])
  }

  lemma OneMore(p: State, a: Action, enq: seq<int>, ret: seq<int>)
    requires Inv(p) && Allowed(p, a) && enq == ret + Contents(p)
    ensures enq + EnqueuedBy(p, a) == ret + ReturnedBy(p, a) + Contents(Apply(p, a))
  {
    StepShared(p, a);
    assert QueueStep(p, Apply(p, a), a);
  }

  /** Under any interleaving what has been returned, followed by what the queue holds, is what
      has been enqueued: first in, first out, nothing lost and nothing twice. */
  lemma {:induction false} Fifo(s: State, acts: seq<Action>)
    requires Init(s) && Legal(s, acts)
    ensures Inv(Run(s, acts))
    ensures Enqueued(s, acts) == Returned(s, acts) + Contents(Run(s, acts))
    decreases |acts|
  {
    if acts == [] {
      InitInv(s);
    } else {
      var before, a := acts[..|acts| - 1], acts[|acts| - 1];
      Fifo(s, before);
      StepKeepsInv(Run(s, before), a);
      OneMore(Run(s, before), a, Enqueued(s, before), Returned(s, before));
    }
  }

  // ---------- what each call gets ----------

  ghost function Trace(s: State, acts: seq<Action>): (r: seq<seq<int>>)
    requires s.size > 0
    ensures IsTrace(acts, r) && r[|acts|] == Contents(Run(s, acts))
    decreases |acts|
  {
    if acts == [] then [Contents(s)] else Trace(s, acts[..|acts| - 1]) + [Contents(Run(s, acts))]
  }

  /** What a thread has done for its last call, by where it is. */
  ghost predicate Doing(size: int, t: int, pc: Pc, call: Action, changes: seq<Change>, lengths: set<int>) {
    match pc
    case Idle(ret) => Answered(call, ret, changes, lengths, true)
    case Full => call.Push? && changes == [] && size - 1 in lengths
    case PushLoadRear(v) => call == Push(t, v) && changes == []
    case PushLoadFront(v, _, _) => call == Push(t, v) && changes == []
    case PushRecheck(v, _, _, _, _, len) => call == Push(t, v) && changes == [] && len in lengths
    case PushFinishLoad(v, _, _, _, _, len) => call == Push(t, v) && changes == [] && len in lengths
    case PushFinishCas(v, _, _, _, _, _, len) => call == Push(t, v) && changes == [] && len in lengths
    case PushCounter(v, _, _, _, _, len) => call == Push(t, v) && changes == [] && len in lengths
    case PushCas(v, _, _, _, _) => call == Push(t, v) && changes == []
    case PopRecheck(_, _, _, _, was) => call == Pop(t) && changes == [] && (was ==> 0 in lengths)
    case PopTest(_, _, _, _, was) => call == Pop(t) && changes == [] && (was ==> 0 in lengths)
    case PopFinishLoad(_, _, _, _, was) => call == Pop(t) && changes == [] && (was ==> 0 in lengths)
    case PopFinishCas(_, _, _, _, _, was) => call == Pop(t) && changes == [] && (was ==> 0 in lengths)
    case PopRead(_, _, _, _, was) => call == Pop(t) && changes == [] && (was ==> 0 in lengths)
    case _ => call == Pop(t) && changes == []
  }

  lemma DoingNext(p: State, t: int, spurious: bool, call: Action, changes: seq<Change>, lengths: set<int>)
    requires Inv(p) && |Contents(p)| in lengths && Doing(p.size, t, p.pc(t), call, changes, lengths)
    ensures var p' := Step(p, t, spurious);
            Doing(p.size, t, p'.pc(t), call, changes + ChangeBy(Contents(p), Contents(p')), lengths)
  {
    StepShared(p, Continue(t, spurious));
    assert QueueStep(p, Step(p, t, spurious), Continue(t, spurious));
    if Enqueues(p, t, spurious) {
      DoneOnce(Contents(p), [p.pc(t).v], []);
    } else if Returns(p, t) {
      DoneOnce(Contents(Step(p, t, spurious)), [], [p.pc(t).y]);
    } else {
      assert changes + [] == changes;
      DoingQuiet(p, t, spurious, call, lengths);
    }
  }

  lemma DoneOnce(q: seq<int>, last: seq<int>, first: seq<int>)
    requires |last| + |first| == 1
    ensures first + q + last != q && [] + [Change(first + q, q + last)] == [Change(first + q, q + last)]
  {
    assert |first + q + last| == |q| + 1;
  }

  /** Steps that leave the contents alone. */
  lemma DoingQuiet(p: State, t: int, spurious: bool, call: Action, lengths: set<int>)
    requires Inv(p) && |Contents(p)| in lengths && !Enqueues(p, t, spurious) && !Returns(p, t)
    ensures var p' := Step(p, t, spurious);
            forall changes :: Doing(p.size, t, p.pc(t), call, changes, lengths) ==>
              Doing(p.size, t, p'.pc(t), call, changes, lengths)
  {
    var pc := p.pc(t);
    if pc.PopRead? {
      assert Local(p, pc);
      EmptyStep(p, t, spurious);
    } else if pc.PushCounter? {
      assert Local(p, pc);
      FullTest(p, pc.r, pc.f, pc.k, pc.g);
    }
  }

  /** Under any interleaving every call that has returned did what it was called for, exactly once, and one
      that has not returned has done nothing yet; "full" is reported only if the queue held size - 1
      elements at a moment of the call. */
  lemma {:induction false} CallsAnswered(s: State, acts: seq<Action>, t: int)
    requires Init(s) && Legal(s, acts)
    ensures var call, changes := LastCall(acts, t), Changes(acts, Trace(s, acts), t);
            var lengths := Lengths(acts, Trace(s, acts), t);
            && Doing(s.size, t, Run(s, acts).pc(t), call, changes, lengths)
            && |Contents(Run(s, acts))| in lengths
    decreases |acts|
  {
    if acts != [] {
      var k := |acts| - 1;
      var before, a := acts[..k], acts[k];
      CallsAnswered(s, before, t);
      Fifo(s, before);
      assert Trace(s, acts)[..k + 1] == Trace(s, before);
      var p := Run(s, before);
      if a.t != t {
        OwnPcOnly(p, a, t);
      } else if a.Continue? {
        DoingNext(p, t, a.spurious, LastCall(before, t), Changes(before, Trace(s, before), t),
                  Lengths(before, Trace(s, before), t));
      } else {
        StepShared(p, a);
      }
    }
  }

  // ---------- a thread that runs alone ----------

  /** How many steps a call still takes if no other thread moves: a round is 8 steps at most, and one that
      began with reads that are out of date must be repeated. */
  ghost function StepsLeft(s: State, t: int): int {
    match s.pc(t)
    case PushLoadRear(_) => 8
    case PushLoadFront(_, r, _) => (if r == s.rear then 0 else 8) + 7
    case PushRecheck(_, r, _, _, _, _) => (if r == s.rear then 0 else 8) + 6
    case PushFinishLoad(_, r, _, _, _, _) => (if r == s.rear then 0 else 8) + 5
    case PushFinishCas(_, r, _, _, _, _, _) => (if r == s.rear then 0 else 8) + 4
    case PushCounter(_, r, _, _, _, _) => (if r == s.rear then 0 else 8) + 3
    case PushCas(_, r, _, _, _) => (if r == s.rear then 0 else 8) + 2
    case PopLoadFront => 8
    case PopLoadRear(f, _) => (if f == s.front then 0 else 8) + 7
    case PopRecheck(f, _, _, _, _) => (if f == s.front then 0 else 8) + 6
    case PopTest(f, _, _, _, _) => (if f == s.front then 0 else 8) + 5
    case PopFinishLoad(f, _, _, _, _) => (if f == s.front then 0 else 8) + 4
    case PopFinishCas(f, _, _, _, _, _) => (if f == s.front then 0 else 8) + 3
    case PopRead(f, _, _, _, _) => (if f == s.front then 0 else 8) + 2
    case PopCas(f, _, _) => (if f == s.front then 0 else 8) + 1
    case _ => 0
  }

  ghost predicate Over(pc: Pc) { pc.Idle? || pc.Full? }

  ghost function Alone(s: State, t: int, n: nat): State
    requires s.size > 0
    ensures Alone(s, t, n).size == s.size
  {
    if n == 0 then s else Step(Alone(s, t, n - 1), t, false)
  }

  /** Push and pop are obstruction-free: if no other thread moves, a call is over after at most 15 steps. */
  lemma EndsAlone(s: State, t: int)
    requires s.size > 0
    ensures exists n :: 0 <= n <= 15 && Over(Alone(s, t, n).pc(t))
  {
    AloneFor(s, t, 15);
    var p := Alone(s, t, 15);
    if !Over(p.pc(t)) { AloneStep(p, t); }
  }

  lemma AloneStep(s: State, t: int)
    requires s.size > 0 && !Over(s.pc(t))
    ensures 0 < StepsLeft(s, t) <= 15 && StepsLeft(Step(s, t, false), t) < StepsLeft(s, t)
  {
  }

  lemma {:induction false} AloneFor(s: State, t: int, n: nat)
    requires s.size > 0
    ensures (forall m :: 0 <= m < n ==> !Over(Alone(s, t, m).pc(t))) ==> StepsLeft(Alone(s, t, n), t) <= 15 - n
  {
    if n == 0 {
      if !Over(s.pc(t)) { AloneStep(s, t); }
    } else {
      AloneFor(s, t, n - 1);
      var p := Alone(s, t, n - 1);
      assert Alone(s, t, n) == Step(p, t, false);
      if !Over(p.pc(t)) { AloneStep(p, t); }
    }
  }

  /** "Empty" is returned only if the queue was empty when this pop read rear. */
  lemma EmptyIsHonest(s: State, t: int)
    requires Inv(s) && s.size > 0 && ReturnsEmpty(s, t)
    ensures s.pc(t).was
  {
    assert Local(s, s.pc(t));
    EmptyStep(s, t, false);
  }

  /** "Full" is reported exactly if the queue held size - 1 elements when this push read front. */
  lemma FullIsHonest(s: State, t: int, spurious: bool)
    requires Inv(s) && s.size > 0 && s.pc(t).PushCounter?
    ensures Step(s, t, spurious).pc(t).Full? <==> s.pc(t).len == s.size - 1
  {
    assert Local(s, s.pc(t));
    FullTest(s, s.pc(t).r, s.pc(t).f, s.pc(t).k, s.pc(t).g);
  }

  /** The contents lie in memory: element i in the slot i past front, and the last one, if it is not written
      there yet, in rear. */
  lemma ContentsInMemory(s: State, i: int)
    requires Inv(s) && 0 <= i < |Contents(s)|
    ensures var slot := s.nodes(Idx(s.size, s.popped + 1 + i));
            && s.front.index == Idx(s.size, s.popped + 1) && s.rear.index == Idx(s.size, |s.hist|)
            && if s.popped + 1 + i <= s.fin then slot.value == Contents(s)[i]
               else i == |Contents(s)| - 1 && s.rear.value == Contents(s)[i]
  {
    assert SharedAt(s, s.popped + 1 + i);
  }

  /** A helper that comes late changes nothing, whatever it read: a finished slot is never overwritten
      by an older enqueue. */
  lemma LateFinishIsNoOp(s: State, r: Rear, x: int, k: int)
    requires Inv(s) && RearRead(s, r, k) && k <= s.fin
    ensures Finish(s, r, x, k) == s
  {
    LatestIs(s.size, k, s.fin);
    assert SharedAt(s, Latest(s.size, k, s.fin));
  }

  /** The slot a pop reads holds the finished element at the front. */
  lemma PopReadsFinished(s: State, t: int)
    requires Inv(s) && s.size > 0 && s.pc(t).PopRead? && !ReturnsEmpty(s, t) && s.front == s.pc(t).f
    ensures Contents(s) != [] && s.nodes(s.pc(t).f.index).value == Contents(s)[0]
    ensures s.nodes(s.pc(t).f.index).counter == Cnt(s.size, s.popped + 1)
  {
    assert Local(s, s.pc(t));
    EmptyStep(s, t, false);
    assert SharedAt(s, s.popped + 1);
  }
}
