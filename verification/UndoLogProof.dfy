/** Crash atomicity of the undo log. */
module UndoLogProof {
  import opened UndoLog

  // ---------- replaying the log, backwards ----------

  /** What cell a holds after the entries n - 1 down to 0 are replayed over contents x. */
  ghost function UndoAt(x: int, log: int -> Entry, n: int, a: int): int
    decreases n
  {
    if n <= 0 then x else UndoAt(if log(n - 1).addr == a then log(n - 1).val else x, log, n - 1, a)
  }

  lemma {:induction false} UndoIndep(x: int, y: int, log: int -> Entry, n: int, a: int)
    requires Logged(log, n, a)
    ensures UndoAt(x, log, n, a) == UndoAt(y, log, n, a)
    decreases n
  {
    if log(n - 1).addr != a { UndoIndep(x, y, log, n - 1, a); }
  }

  lemma {:induction false} UndoNone(x: int, log: int -> Entry, n: int, a: int)
    requires !Logged(log, n, a)
    ensures UndoAt(x, log, n, a) == x
    decreases n
  {
    if n > 0 {
      assert log(n - 1).addr != a;
      UndoNone(x, log, n - 1, a);
    }
  }

  lemma {:induction false} UndoSame(x: int, log: int -> Entry, log': int -> Entry, n: int, a: int)
    requires forall i :: 0 <= i < n ==> log'(i) == log(i)
    ensures UndoAt(x, log', n, a) == UndoAt(x, log, n, a)
    ensures Logged(log', n, a) == Logged(log, n, a)
    decreases n
  {
    if n > 0 { UndoSame(if log(n - 1).addr == a then log(n - 1).val else x, log, log', n - 1, a); }
    if i :| 0 <= i < n && log(i).addr == a { assert log'(i).addr == a; }
    if i :| 0 <= i < n && log'(i).addr == a { assert log(i).addr == a; }
  }

  // ---------- the invariant ----------

  ghost predicate InTab(s: State, l: int) { s.tab(Slot(l)) == Has(l) }

  /** The cell was just stored to and its line is about to enter the table. */
  ghost predicate Storing(s: State, l: int) {
    match s.pc
    case AddTab(a) => Line(a) == l
    case ReplayAdd(i) => Line(s.vlog(i - 1).addr) == l
    case _ => false
  }

  /** Nothing is dirty without being tracked: a cell's line is in the table, or queued with its
      current contents, or the cell is persistent. */
  ghost predicate Tracked(s: State, a: int) {
    var q := s.qcell(Line(a));
    InTab(s, Line(a)) || Storing(s, Line(a)) || (if q.Snap? then q.v(a) == s.vol(a) else s.per(a) == s.vol(a))
  }

  /** A cell that is not lost: the first entry for it holds what must be restored, and before
      there is one it still holds that everywhere. */
  ghost predicate Guarded(s: State, a: int) {
    !s.lost(a) ==>
      if Logged(s.vlog, s.n, a) then UndoAt(0, s.vlog, s.n, a) == s.base(a)
      else s.vol(a) == s.base(a) && s.per(a) == s.base(a)
           && (s.qcell(Line(a)).Snap? ==> s.qcell(Line(a)).v(a) == s.base(a))
  }

  ghost predicate Old(s: State, i: int) {
    s.vlog(i).version < s.ver && s.plog(i).version < s.ver && s.qlog(i) == NoLine
  }

  /** The entry being written: it becomes valid with its version, its last field. */
  ghost predicate Writing(s: State) {
    var n, e, q := s.n, s.vlog(s.n), s.qlog(s.n);
    match s.pc
    case LogVal(a, v, _) => Old(s, n) && e.addr == a
    case LogVersion(a, v, _) => Old(s, n) && e.addr == a && e.val == v
    case LogFence1(a, v, _) => e == Entry(a, v, s.ver) && (s.plog(n) == e || s.plog(n).version < s.ver) && q == NoLine
    case LogClwb(a, v, _) => e == Entry(a, v, s.ver) && (s.plog(n) == e || s.plog(n).version < s.ver) && q == NoLine
    case LogFence2(a, v, _) =>
      && e == Entry(a, v, s.ver)
      && if q.Snap? then q.v == e && (s.plog(n) == e || s.plog(n).version < s.ver) else s.plog(n) == e
    case _ => Old(s, n)
  }

  /** Complete entries are persistent and carry the current version; all later ones are stale. */
  ghost predicate EntryOk(s: State, i: int) {
    && (0 <= i < s.n ==> s.vlog(i) == s.plog(i) && s.vlog(i).version == s.ver && s.qlog(i) == NoLine)
    && (i == s.n ==> Writing(s))
    && (i > s.n ==> Old(s, i))
  }

  ghost predicate Bumped(pc: Pc) { pc.VerFence1? || pc.VerClwb? || pc.VerFence2? }

  ghost predicate VersionOk(s: State) {
    if Bumped(s.pc) then
      && s.vver == s.ver + 1 && (s.pver == s.ver || s.pver == s.ver + 1)
      && (s.qver.Snap? ==> s.qver.v == s.ver + 1)
      && (s.pc.VerFence2? ==> s.qver.Snap? || s.pver == s.ver + 1)
    else
      s.vver == s.ver && s.pver == s.ver && s.qver == NoLine
  }

  ghost predicate Logging(pc: Pc) {
    pc.LogAddr? || pc.LogVal? || pc.LogVersion? || pc.LogFence1? || pc.LogClwb? || pc.LogFence2?
  }

  ghost predicate Flushing(pc: Pc) { pc.FlushFence1? || pc.FlushTab? || pc.FlushFence2? || pc.VerStore? || Bumped(pc) }

  /** Everything volatile is persistent and nothing is queued. */
  ghost predicate AllFlushed(pc: Pc) { pc.Idle? || pc.VerStore? || Bumped(pc) }

  ghost predicate TabEmpty(s: State, j: int) { forall k :: 0 <= k < j ==> s.tab(k) == NoEntry }

  ghost predicate Clean(s: State) { TabEmpty(s, TABLE) && forall l :: s.qcell(l) == NoLine }

  /** In recovery, cell a is right once the entries below i are replayed too. */
  ghost predicate Restoring(s: State, i: int, a: int) { !s.lost(a) ==> UndoAt(s.vol(a), s.vlog, i, a) == s.base(a) }

  ghost predicate PcOk(s: State, a: int) {
    && 0 <= s.n < MAX_ENTRIES && (Logging(s.pc) || s.pc.Run? || s.pc.Store? || s.pc.AddTab? ==> s.cur == s.n)
    && (AllFlushed(s.pc) ==> Clean(s))
    && (s.pc.FlushTab? ==> 0 <= s.pc.j <= TABLE && TabEmpty(s, s.pc.j))
    && (s.pc.FlushFence2? ==> TabEmpty(s, TABLE))
    && (s.pc.Idle? ==> !s.recovering && s.n == 0 && s.base(a) == s.vol(a) && !s.lost(a))
    && (Logging(s.pc) ==>
          && s.n + 1 < MAX_ENTRIES
          && (a == s.pc.a && !s.lost(a) && !Logged(s.vlog, s.n, a) ==> s.pc.v == s.base(a)))
    && (s.recovering <==> s.pc.Scan? || s.pc.Replay? || s.pc.ReplayAdd? || (Flushing(s.pc) && s.recovering))
    && (s.pc.Scan? ==> 0 <= s.pc.i <= s.n)
    && (s.pc.Replay? ==> 0 <= s.pc.i <= s.n && Restoring(s, s.pc.i, a))
    && (s.pc.ReplayAdd? ==> 0 < s.pc.i <= s.n && Restoring(s, s.pc.i - 1, a))
    && (s.recovering && Flushing(s.pc) ==> Restoring(s, 0, a))
  }

  ghost predicate CellOk(s: State, a: int) { Tracked(s, a) && Guarded(s, a) && PcOk(s, a) }

  ghost predicate Inv(s: State) {
    VersionOk(s) && (forall a :: CellOk(s, a)) && (forall i :: EntryOk(s, i))
  }

  // ---------- the memory system keeps it ----------

  lemma EvictCellsInv(s: State, l: int)
    requires Inv(s)
    ensures Inv(Apply(s, EvictCells(l)))
  {
    var s' := Apply(s, EvictCells(l));
    forall a ensures CellOk(s', a) { assert CellOk(s, a); }
    forall i ensures EntryOk(s', i) { assert EntryOk(s, i); }
  }

  lemma CompleteCellsInv(s: State, l: int)
    requires Inv(s)
    ensures Inv(Apply(s, CompleteCells(l)))
  {
    var s' := Apply(s, CompleteCells(l));
    forall a ensures CellOk(s', a) { assert CellOk(s, a); }
    forall i ensures EntryOk(s', i) { assert EntryOk(s, i); }
  }

  lemma EntryWrittenInv(s: State, i: int, x: Action)
    requires Inv(s) && (x == EvictEntry(i) || x == CompleteEntry(i))
    ensures Inv(Apply(s, x))
  {
    var s' := Apply(s, x);
    forall a ensures CellOk(s', a) { assert CellOk(s, a); }
    assert EntryOk(s, i) && EntryOk(s, s.n);
    forall j ensures EntryOk(s', j) { assert EntryOk(s, j); }
  }

  lemma VersionWrittenInv(s: State, x: Action)
    requires Inv(s) && (x == EvictVersion || x == CompleteVersion)
    ensures Inv(Apply(s, x))
  {
    var s' := Apply(s, x);
    forall a ensures CellOk(s', a) { assert CellOk(s, a); }
    forall j ensures EntryOk(s', j) { assert EntryOk(s, j); }
  }

  // ---------- logging ----------

  lemma LogFieldInv(s: State)
    requires Inv(s) && (s.pc.LogAddr? || s.pc.LogVal? || s.pc.LogVersion?)
    ensures Inv(Step(s))
  {
    var s' := Step(s);
    assert EntryOk(s, s.n);
    forall a ensures CellOk(s', a) { assert CellOk(s, a); UndoSame(0, s.vlog, s'.vlog, s.n, a); }
    forall j ensures EntryOk(s', j) { assert EntryOk(s, j); }
  }

  lemma FenceInv(s: State)
    requires Inv(s) && (s.pc.LogFence1? || s.pc.FlushFence1? || s.pc.FlushFence2? || s.pc.VerFence1?)
    ensures Inv(Step(s))
  {
    var s' := Step(s);
    assert EntryOk(s, s.n);
    forall a ensures CellOk(s', a) { assert CellOk(s, a); }
    forall j ensures EntryOk(s', j) { assert EntryOk(s, j); }
  }

  lemma LogClwbInv(s: State)
    requires Inv(s) && s.pc.LogClwb?
    ensures Inv(Step(s))
  {
    var s' := Step(s);
    assert EntryOk(s, s.n);
    forall a ensures CellOk(s', a) { assert CellOk(s, a); }
    forall j ensures EntryOk(s', j) { assert EntryOk(s, j); }
  }

  lemma LogDoneInv(s: State)
    requires Inv(s) && s.pc.LogFence2?
    ensures Inv(Step(s))
  {
    var s' := Step(s);
    assert EntryOk(s, s.n) && EntryOk(s, s.n + 1);
    forall a ensures CellOk(s', a) {
      assert CellOk(s, a);
      assert s'.vlog(s.n) == Entry(s.pc.a, s.pc.v, s.ver);
      if Logged(s.vlog, s.n, a) { UndoIndep(0, s.pc.v, s.vlog, s.n, a); } else { UndoNone(s.pc.v, s.vlog, s.n, a); }
    }
    forall j ensures EntryOk(s', j) { assert EntryOk(s, j); }
  }

  // ---------- stores ----------

  lemma StoreInv(s: State)
    requires Inv(s) && s.pc.Store?
    ensures Inv(Step(s))
  {
    var s' := Step(s);
    forall a ensures CellOk(s', a) { assert CellOk(s, a); }
    forall j ensures EntryOk(s', j) { assert EntryOk(s, j); }
  }

  lemma AddInv(s: State)
    requires Inv(s) && (s.pc.AddTab? || s.pc.ReplayAdd?)
    ensures Inv(Step(s))
  {
    var s' := Step(s);
    forall a ensures CellOk(s', a) { assert CellOk(s, a); }
    forall j ensures EntryOk(s', j) { assert EntryOk(s, j); }
  }

  // ---------- flushing and the version bump ----------

  lemma FlushTabInv(s: State)
    requires Inv(s) && s.pc.FlushTab?
    ensures Inv(Step(s))
  {
    var s' := Step(s);
    assert CellOk(s, 0);
    forall a ensures CellOk(s', a) { assert CellOk(s, a); }
    forall j ensures EntryOk(s', j) { assert EntryOk(s, j); }
  }

  lemma VersionInv(s: State)
    requires Inv(s) && (s.pc.VerStore? || s.pc.VerClwb?)
    ensures Inv(Step(s))
  {
    var s' := Step(s);
    forall a ensures CellOk(s', a) { assert CellOk(s, a); }
    forall j ensures EntryOk(s', j) { assert EntryOk(s, j); }
  }

  lemma DoneInv(s: State)
    requires Inv(s) && s.pc.VerFence2?
    ensures Inv(Step(s))
  {
    var s' := Step(s);
    assert EntryOk(s, s.n);
    forall a ensures CellOk(s', a) { assert CellOk(s, a); }
    forall j ensures EntryOk(s', j) { assert EntryOk(s, j); }
  }

  // ---------- recovery ----------

  lemma ScanInv(s: State)
    requires Inv(s) && s.pc.Scan?
    ensures Inv(Step(s))
  {
    var s' := Step(s);
    assert EntryOk(s, s.pc.i);
    forall a ensures CellOk(s', a) {
      assert CellOk(s, a);
      if Logged(s.vlog, s.n, a) { UndoIndep(0, s.vol(a), s.vlog, s.n, a); } else { UndoNone(s.vol(a), s.vlog, s.n, a); }
    }
    forall j ensures EntryOk(s', j) { assert EntryOk(s, j); }
  }

  lemma ReplayInv(s: State)
    requires Inv(s) && s.pc.Replay?
    ensures Inv(Step(s))
  {
    var s' := Step(s);
    forall a ensures CellOk(s', a) {
      assert CellOk(s, a);
      if s.pc.i > 0 && s.vlog(s.pc.i - 1).addr == a { assert Logged(s.vlog, s.n, a); }
    }
    forall j ensures EntryOk(s', j) { assert EntryOk(s, j); }
  }

  /** A crash after the version bump reached persistence: the log is stale as a whole. */
  lemma CrashCommitted(s: State, a: int)
    requires Inv(s) && Committed(s)
    ensures CellOk(Crash(s), a)
  {
    assert CellOk(s, a);
    assert Bumped(s.pc);
    assert s.per(a) == s.vol(a);
  }

  /** A crash before that: the complete entries are valid, and perhaps the one being written. */
  lemma CrashGuarded(s: State, a: int)
    requires Inv(s) && !Committed(s)
    ensures Guarded(Crash(s), a)
  {
    var s', n := Crash(s), s.n;
    assert CellOk(s, a) && EntryOk(s, n);
    forall i | 0 <= i < n ensures s.plog(i) == s.vlog(i) { assert EntryOk(s, i); }
    UndoSame(0, s.vlog, s.plog, n, a);
    if s'.n == n + 1 {
      assert s.plog(n) == Entry(s.pc.a, s.pc.v, s.ver);
      if a == s.pc.a {
        assert Logged(s.plog, n + 1, a);
        UndoSame(s.pc.v, s.vlog, s.plog, n, a);
        if Logged(s.vlog, n, a) { UndoIndep(0, s.pc.v, s.vlog, n, a); } else { UndoNone(s.pc.v, s.vlog, n, a); }
      } else {
        LoggedNext(s.plog, n, a);
      }
    }
  }

  lemma LoggedNext(log: int -> Entry, n: int, a: int)
    requires n >= 0 && log(n).addr != a
    ensures Logged(log, n + 1, a) <==> Logged(log, n, a)
  {
    if i :| 0 <= i < n && log(i).addr == a { assert i < n + 1; }
  }

  lemma CrashInv(s: State)
    requires Inv(s)
    ensures Inv(Crash(s))
  {
    var s' := Crash(s);
    assert EntryOk(s, s.n) && CellOk(s, 0);
    forall a ensures CellOk(s', a) {
      assert CellOk(s, a);
      if Committed(s) { CrashCommitted(s, a); } else { CrashGuarded(s, a); }
    }
    forall j ensures EntryOk(s', j) { assert EntryOk(s, j); }
  }

  // ---------- every run ----------

  lemma StartInv(s: State, x: Action)
    requires Inv(s) && Allowed(s, x) && (x.Start? || x.LogOnly? || x.StoreLogged? || x.StoreUnlogged? || x.End?)
    ensures Inv(Apply(s, x))
  {
    var s' := Apply(s, x);
    assert EntryOk(s, s.n);
    forall a ensures CellOk(s', a) { assert CellOk(s, a); }
    forall j ensures EntryOk(s', j) { assert EntryOk(s, j); }
  }

  lemma ContinueInv(s: State)
    requires Inv(s)
    ensures Inv(Step(s))
  {
    match s.pc
    case Idle =>
    case Run =>
    case LogAddr(_, _, _) => LogFieldInv(s);
    case LogVal(_, _, _) => LogFieldInv(s);
    case LogVersion(_, _, _) => LogFieldInv(s);
    case LogFence1(_, _, _) => FenceInv(s);
    case LogClwb(_, _, _) => LogClwbInv(s);
    case LogFence2(_, _, _) => LogDoneInv(s);
    case Store(_, _) => StoreInv(s);
    case AddTab(_) => AddInv(s);
    case Scan(_) => ScanInv(s);
    case Replay(_) => ReplayInv(s);
    case ReplayAdd(_) => AddInv(s);
    case FlushFence1 => FenceInv(s);
    case FlushTab(_) => FlushTabInv(s);
    case FlushFence2 => FenceInv(s);
    case VerStore => VersionInv(s);
    case VerFence1 => FenceInv(s);
    case VerClwb => VersionInv(s);
    case VerFence2 => DoneInv(s);
  }

  /** Every step of the program, of the memory system, and every crash keeps the invariant. */
  lemma StepKeepsInv(s: State, x: Action)
    requires Inv(s) && Allowed(s, x)
    ensures Inv(Apply(s, x))
  {
    match x
    case Continue => ContinueInv(s);
    case EvictCells(l) => EvictCellsInv(s, l);
    case CompleteCells(l) => CompleteCellsInv(s, l);
    case EvictEntry(i) => EntryWrittenInv(s, i, x);
    case CompleteEntry(i) => EntryWrittenInv(s, i, x);
    case EvictVersion => VersionWrittenInv(s, x);
    case CompleteVersion => VersionWrittenInv(s, x);
    case CrashNow => CrashInv(s);
    case _ => StartInv(s, x);
  }

  /** A new log, in persistent memory that reads zero: all entries zero, version 1. */
  ghost predicate Init(s: State) {
    && s.pc.Idle? && !s.recovering && s.n == 0 && s.ver == 1 && s.vver == 1 && s.pver == 1 && s.qver == NoLine
    && (forall a :: s.vol(a) == s.per(a) == s.base(a) && !s.lost(a))
    && (forall l :: s.qcell(l) == NoLine) && (forall j :: s.tab(j) == NoEntry)
    && (forall i :: s.vlog(i).version == 0 && s.plog(i).version == 0 && s.qlog(i) == NoLine)
  }

  lemma InitInv(s: State)
    requires Init(s)
    ensures Inv(s)
  {
    forall a ensures CellOk(s, a) {}
    forall i ensures EntryOk(s, i) {}
  }

  ghost function Run(s: State, xs: seq<Action>): State
    decreases |xs|
  {
    if xs == [] then s else Apply(Run(s, xs[..|xs| - 1]), xs[|xs| - 1])
  }

  ghost predicate Legal(s: State, xs: seq<Action>) {
    forall k :: 0 <= k < |xs| ==> Allowed(Run(s, xs[..k]), xs[k])
  }

  lemma LegalUpTo(s: State, xs: seq<Action>, k: int)
    requires Legal(s, xs) && 0 <= k <= |xs|
    ensures Legal(s, xs[..k])
    ensures k > 0 ==> Run(s, xs[..k]) == Apply(Run(s, xs[..k - 1]), xs[k - 1])
  {
    forall j | 0 <= j < k ensures Allowed(Run(s, xs[..k][..j]), xs[..k][j]) {
      assert xs[..k][..j] == xs[..j];
      assert Allowed(Run(s, xs[..j]), xs[j]);
    }
    if k > 0 { assert xs[..k][..k - 1] == xs[..k - 1]; }
  }

  lemma {:induction false} RunKeepsInv(s: State, xs: seq<Action>)
    requires Inv(s) && Legal(s, xs)
    ensures Inv(Run(s, xs))
    decreases |xs|
  {
    if xs != [] {
      LegalUpTo(s, xs, |xs| - 1);
      RunKeepsInv(s, xs[..|xs| - 1]);
      StepKeepsInv(Run(s, xs[..|xs| - 1]), xs[|xs| - 1]);
    }
  }

  // ---------- what the invariant is for ----------

  // ---------- what the memory system may do ----------

  lemma RunMore(s: State, xs: seq<Action>, x: Action)
    requires Legal(s, xs) && Allowed(Run(s, xs), x)
    ensures Legal(s, xs + [x]) && Run(s, xs + [x]) == Apply(Run(s, xs), x)
  {
    var more := xs + [x];
    assert more[..|xs|] == xs;
    forall k | 0 <= k < |more| ensures Allowed(Run(s, more[..k]), more[k]) {
      if k < |xs| { assert more[..k] == xs[..k] && Allowed(Run(s, xs[..k]), xs[k]); }
    }
  }

  /** Only what is persistent, or queued to become so, has changed. */
  ghost predicate OnlyMemory(s: State, p: State) {
    p == s.(per := p.per, plog := p.plog, pver := p.pver, qcell := p.qcell, qlog := p.qlog, qver := p.qver)
  }

  /** At any moment any lines, any log entries and the version may become persistent as they are, and nothing
      else along with them. */
  lemma {:induction false} AnythingPersists(s: State, lines: seq<int>, entries: seq<int>, version: bool)
    returns (xs: seq<Action>)
    ensures Legal(s, xs) && OnlyMemory(s, Run(s, xs))
    ensures forall a :: Run(s, xs).per(a) == if Line(a) in lines then s.vol(a) else s.per(a)
    ensures forall i :: Run(s, xs).plog(i) == if i in entries then s.vlog(i) else s.plog(i)
    ensures Run(s, xs).pver == if version then s.vver else s.pver
    decreases |lines| + |entries|, version
  {
    if lines != [] {
      var k := |lines| - 1;
      var before := AnythingPersists(s, lines[..k], entries, version);
      RunMore(s, before, EvictCells(lines[k]));
      xs := before + [EvictCells(lines[k])];
      assert lines == lines[..k] + [lines[k]];
    } else if entries != [] {
      var k := |entries| - 1;
      var before := AnythingPersists(s, lines, entries[..k], version);
      RunMore(s, before, EvictEntry(entries[k]));
      xs := before + [EvictEntry(entries[k])];
      assert entries == entries[..k] + [entries[k]];
    } else if version {
      var before := AnythingPersists(s, lines, entries, false);
      RunMore(s, before, EvictVersion);
      xs := before + [EvictVersion];
    } else {
      xs := [];
    }
  }

  /** What becomes persistent when the queued write-back of a line completes. */
  ghost function Completed<T>(q: Queued<T>, completes: bool, was: T): T { if completes && q.Snap? then q.v else was }

  /** From s to p exactly these queued write-backs have completed. */
  ghost predicate HaveCompleted(s: State, p: State, lines: seq<int>, entries: seq<int>, version: bool) {
    forall x :: CompletedAt(s, p, lines, entries, version, x)
  }

  /** As far as cell x, line x and log entry x go. */
  ghost predicate CompletedAt(s: State, p: State, lines: seq<int>, entries: seq<int>, version: bool, x: int) {
    && OnlyMemory(s, p)
    && p.per(x) == Completed(s.qcell(Line(x)), Line(x) in lines, s.per)(x)
    && p.plog(x) == Completed(s.qlog(x), x in entries, s.plog(x))
    && p.pver == Completed(s.qver, version, s.pver)
    && p.qcell(x) == (if x in lines then NoLine else s.qcell(x))
    && p.qlog(x) == (if x in entries then NoLine else s.qlog(x))
    && p.qver == if version then NoLine else s.qver
  }

  lemma LineCompletes(s: State, p: State, lines: seq<int>, entries: seq<int>, version: bool, l: int)
    requires HaveCompleted(s, p, lines, entries, version)
    ensures HaveCompleted(s, Apply(p, CompleteCells(l)), lines + [l], entries, version)
  {
    var p' := Apply(p, CompleteCells(l));
    assert CompletedAt(s, p, lines, entries, version, l);
    forall x ensures CompletedAt(s, p', lines + [l], entries, version, x) {
      assert CompletedAt(s, p, lines, entries, version, x) && CompletedAt(s, p, lines, entries, version, Line(x));
    }
  }

  lemma EntryCompletes(s: State, p: State, lines: seq<int>, entries: seq<int>, version: bool, i: int)
    requires HaveCompleted(s, p, lines, entries, version)
    ensures HaveCompleted(s, Apply(p, CompleteEntry(i)), lines, entries + [i], version)
  {
    var p' := Apply(p, CompleteEntry(i));
    assert CompletedAt(s, p, lines, entries, version, i);
    forall x ensures CompletedAt(s, p', lines, entries + [i], version, x) {
      assert CompletedAt(s, p, lines, entries, version, x);
    }
  }

  lemma VersionCompletes(s: State, p: State, lines: seq<int>, entries: seq<int>)
    requires HaveCompleted(s, p, lines, entries, false)
    ensures HaveCompleted(s, Apply(p, CompleteVersion), lines, entries, true)
  {
    forall x ensures CompletedAt(s, Apply(p, CompleteVersion), lines, entries, true, x) {
      assert CompletedAt(s, p, lines, entries, false, x);
    }
  }

  /** And any queued write-backs may complete, with what was in the line when it was queued. */
  lemma {:induction false} AnyQueuedCompletes(s: State, lines: seq<int>, entries: seq<int>, version: bool)
    returns (xs: seq<Action>)
    ensures Legal(s, xs) && HaveCompleted(s, Run(s, xs), lines, entries, version)
    decreases |lines| + |entries|, version
  {
    if lines != [] {
      var k := |lines| - 1;
      var before := AnyQueuedCompletes(s, lines[..k], entries, version);
      RunMore(s, before, CompleteCells(lines[k]));
      LineCompletes(s, Run(s, before), lines[..k], entries, version, lines[k]);
      xs := before + [CompleteCells(lines[k])];
      assert lines == lines[..k] + [lines[k]];
    } else if entries != [] {
      var k := |entries| - 1;
      var before := AnyQueuedCompletes(s, lines, entries[..k], version);
      RunMore(s, before, CompleteEntry(entries[k]));
      EntryCompletes(s, Run(s, before), lines, entries[..k], version, entries[k]);
      xs := before + [CompleteEntry(entries[k])];
      assert entries == entries[..k] + [entries[k]];
    } else if version {
      var before := AnyQueuedCompletes(s, lines, entries, false);
      RunMore(s, before, CompleteVersion);
      VersionCompletes(s, Run(s, before), lines, entries);
      xs := before + [CompleteVersion];
    } else {
      xs := [];
    }
  }

  /** A crash forgets everything that is not persistent: what the machine restarts with depends on nothing else. */
  lemma CrashForgets(s: State, s': State)
    requires s'.per == s.per && s'.plog == s.plog && s'.pver == s.pver
    ensures var p, p' := Apply(s, CrashNow), Apply(s', CrashNow);
            && p'.vol == p.vol == s.per && p'.vlog == p.vlog == s.plog && p'.vver == p.vver == s.pver
            && p'.per == p.per == s.per && p'.plog == p.plog == s.plog && p'.pver == p.pver == s.pver
            && p'.pc == p.pc && p'.cur == p.cur
            && (forall l :: p.qcell(l) == NoLine && p'.qcell(l) == NoLine)
            && (forall i :: p.qlog(i) == NoLine && p'.qlog(i) == NoLine) && p.qver == NoLine && p'.qver == NoLine
            && (forall j :: p.tab(j) == NoEntry && p'.tab(j) == NoEntry)
  {
  }

  // ---------- what the stores of a run leave ----------

  ghost predicate StoresTo(x: Action, a: int) { (x.StoreLogged? || x.StoreUnlogged?) && x.a == a }

  ghost predicate LogsCell(x: Action, a: int) { (x.StoreLogged? || x.LogOnly?) && x.a == a }

  /** The value of the last store to cell a among the calls of a run; vol(a) if there is none. */
  ghost function LastStore(vol: int -> int, xs: seq<Action>, a: int): int
    decreases |xs|
  {
    if xs == [] then vol(a) else
    var x := xs[|xs| - 1];
    if StoresTo(x, a) then x.w else LastStore(vol, xs[..|xs| - 1], a)
  }

  /** What cell a holds once the call in progress is through. */
  ghost function Pending(s: State, a: int): int {
    if Logging(s.pc) && s.pc.a == a && s.pc.next.Snap? then s.pc.next.v
    else if s.pc.Store? && s.pc.a == a then s.pc.w
    else s.vol(a)
  }

  ghost predicate Normal(pc: Pc) { !pc.Scan? && !pc.Replay? && !pc.ReplayAdd? }

  ghost predicate NoCrash(xs: seq<Action>) { forall x :: x in xs ==> !x.CrashNow? }

  /** No store is in progress. */
  ghost predicate NonePending(pc: Pc) { !Logging(pc) && !pc.Store? }

  lemma StepStores(p: State, x: Action, a: int)
    requires Allowed(p, x) && Normal(p.pc) && !x.CrashNow?
    ensures var p' := Apply(p, x); Normal(p'.pc) && Pending(p', a) == if StoresTo(x, a) then x.w else Pending(p, a)
  {
    if x.Continue? { ContinueStores(p, a); }
  }

  lemma ContinueStores(p: State, a: int)
    requires Normal(p.pc)
    ensures Normal(Step(p).pc) && Pending(Step(p), a) == Pending(p, a)
  {
    if Flushing(p.pc) { FlushStores(p, a); }
  }

  lemma FlushStores(p: State, a: int)
    requires Flushing(p.pc)
    ensures (Flushing(Step(p).pc) || Step(p).pc.Idle?) && Step(p).vol == p.vol
  {
  }

  lemma FollowStores(s: State, p: State, p': State, xs: seq<Action>, x: Action, a: int)
    requires Allowed(p, x) && Normal(p.pc) && !x.CrashNow? && p' == Apply(p, x)
    requires xs != [] && x == xs[|xs| - 1] && Pending(p, a) == LastStore(s.vol, xs[..|xs| - 1], a)
    ensures Normal(p'.pc) && Pending(p', a) == LastStore(s.vol, xs, a)
  {
    StepStores(p, x, a);
  }

  /** As long as there is no crash, the memory follows the calls: nothing but the value handed to a store
      ever gets into a cell, and it does when the store returns. */
  lemma {:induction false} StoresTakeEffect(s: State, xs: seq<Action>, a: int)
    requires s.pc.Idle? && Legal(s, xs) && NoCrash(xs)
    ensures var p := Run(s, xs);
            && Normal(p.pc) && Pending(p, a) == LastStore(s.vol, xs, a)
            && (NonePending(p.pc) ==> p.vol(a) == LastStore(s.vol, xs, a))
    decreases |xs|
  {
    if xs != [] {
      var k := |xs| - 1;
      LegalUpTo(s, xs, k);
      StoresTakeEffect(s, xs[..k], a);
      assert Allowed(Run(s, xs[..k]), xs[k]);
      FollowStores(s, Run(s, xs[..k]), Run(s, xs), xs, xs[k], a);
    }
  }

  /** The last call of a run. */
  ghost function LastCall(xs: seq<Action>): Action
    decreases |xs|
  {
    if xs == [] then End else
    var x := xs[|xs| - 1];
    if x.Start? || x.LogOnly? || x.StoreLogged? || x.StoreUnlogged? || x.End? then x else LastCall(xs[..|xs| - 1])
  }

  /** Where the machine is in its last call. */
  ghost predicate CallOf(pc: Pc, x: Action) {
    match pc
    case Idle => x.End?
    case Run => !x.End?
    case Store(a, w) => StoresTo(x, a) && x.w == w
    case AddTab(a) => StoresTo(x, a)
    case _ =>
      if Logging(pc) then LogsCell(x, pc.a) && pc.next == (if x.LogOnly? then NoLine else Snap(x.w))
      else x.End?
  }

  lemma StepCall(p: State, x: Action, last: Action)
    requires Allowed(p, x) && Normal(p.pc) && !x.CrashNow? && CallOf(p.pc, last)
    ensures CallOf(Apply(p, x).pc, LastOf(x, last))
  {
    if x.Continue? { ContinueCall(p, last); }
  }

  ghost function LastOf(x: Action, last: Action): Action {
    if x.Start? || x.LogOnly? || x.StoreLogged? || x.StoreUnlogged? || x.End? then x else last
  }

  lemma ContinueCall(p: State, last: Action)
    requires Normal(p.pc) && CallOf(p.pc, last)
    ensures CallOf(Step(p).pc, last)
  {
  }

  /** As long as there is no crash, a call that has returned leaves the machine between transactions exactly
      if it was the end of one, and inside one otherwise. */
  lemma {:induction false} CallsReturn(s: State, xs: seq<Action>)
    requires s.pc.Idle? && Legal(s, xs) && NoCrash(xs)
    ensures Normal(Run(s, xs).pc) && CallOf(Run(s, xs).pc, LastCall(xs))
    decreases |xs|
  {
    if xs != [] {
      var k := |xs| - 1;
      LegalUpTo(s, xs, k);
      CallsReturn(s, xs[..k]);
      StoresTakeEffect(s, xs, 0);
      assert Allowed(Run(s, xs[..k]), xs[k]);
      StepCall(Run(s, xs[..k]), xs[k], LastCall(xs[..k]));
    }
  }

  /** So a transaction that has ended left its stores, and they are durable. */
  lemma EndedIsDurable(s: State, xs: seq<Action>, a: int)
    requires Inv(s) && s.pc.Idle? && Legal(s, xs) && NoCrash(xs) && Run(s, xs).pc.Idle?
    ensures var p := Run(s, xs); p.vol(a) == LastStore(s.vol, xs, a) && p.per(a) == LastStore(s.vol, xs, a)
  {
    RunKeepsInv(s, xs);
    StoresTakeEffect(s, xs, a);
    IdleIsDurable(Run(s, xs), a);
  }

  // ---------- atomicity ----------

  /** xs is a transaction that begins in s, as far as it has come: no crash, not yet finished. */
  ghost predicate Transaction(s: State, xs: seq<Action>) {
    && s.pc.Idle? && Legal(s, xs) && NoCrash(xs) && xs != [] && xs[0] == Start
    && forall k :: 0 < k <= |xs| ==> !Run(s, xs[..k]).pc.Idle?
  }

  lemma StepBase(p: State, x: Action)
    requires !p.recovering && !x.CrashNow? && !Apply(p, x).pc.Idle?
    ensures Apply(p, x).base == p.base && !Apply(p, x).recovering
  {
  }

  lemma StepGoal(p: State, x: Action)
    requires CellOk(p, 0) && Allowed(p, x) && p.recovering && Apply(p, x).recovering
    ensures Apply(p, x).base == p.base && Apply(p, x).lost == p.lost
  {
  }

  /** A transaction never changes what a crash must bring back. */
  lemma {:induction false} TransactionBase(s: State, xs: seq<Action>, k: int)
    requires Inv(s) && Transaction(s, xs) && 0 <= k <= |xs|
    ensures var p := Run(s, xs[..k]); p.base == s.base && !p.recovering
    decreases k
  {
    if k == 0 {
      assert CellOk(s, 0);
    } else {
      TransactionBase(s, xs, k - 1);
      LegalUpTo(s, xs, k);
      assert !Run(s, xs[..k]).pc.Idle? && xs[k - 1] in xs;
      StepBase(Run(s, xs[..k - 1]), xs[k - 1]);
    }
  }

  ghost predicate AllRecovering(r: State, ys: seq<Action>) {
    forall k :: 0 <= k < |ys| ==> Run(r, ys[..k]).recovering
  }

  // ---------- which cells a transaction protects ----------

  ghost predicate LoggedBy(xs: seq<Action>, a: int) { exists x :: x in xs && LogsCell(x, a) }

  /** Before any log entry for cell a, it is stored to without one, or a value that it does not hold is
      logged for it. */
  ghost predicate Unprotected(vol: int -> int, xs: seq<Action>, a: int)
    decreases |xs|
  {
    if xs == [] then false else
    var before, x := xs[..|xs| - 1], xs[|xs| - 1];
    Unprotected(vol, before, a) || (!LoggedBy(before, a) && Exposes(x, a, LastStore(vol, before, a)))
  }

  ghost predicate Exposes(x: Action, a: int, v: int) {
    (x.StoreUnlogged? && x.a == a) || (x.LogOnly? && x.a == a && x.v != v)
  }

  /** The log and the cells that count as lost, as far as cell a goes, follow the calls. */
  ghost predicate Follows(p: State, a: int, logged: bool, exposed: bool) {
    && (p.lost(a) ==> exposed)
    && (logged ==> Logged(p.vlog, p.n, a) || (Logging(p.pc) && p.pc.a == a))
    && (Logging(p.pc) && p.pc.a == a ==> logged)
    && (p.pc.Store? && p.pc.a == a ==> logged || exposed)
  }

  lemma FollowsStep(p: State, a: int, logged: bool, exposed: bool)
    requires Inv(p) && Normal(p.pc) && Follows(p, a, logged, exposed) && !Step(p).pc.Idle?
    ensures Follows(Step(p), a, logged, exposed)
  {
    assert CellOk(p, a) && EntryOk(p, p.n);
    if Logging(p.pc) {
      UndoSame(0, p.vlog, Step(p).vlog, p.n, a);
      assert p.pc.LogFence2? ==> Step(p).vlog(p.n).addr == p.pc.a;
      if i :| 0 <= i < p.n && Step(p).vlog(i).addr == a { assert 0 <= i < Step(p).n; }
    }
  }

  lemma FollowsCall(p: State, x: Action, a: int, logged: bool, exposed: bool)
    requires Allowed(p, x) && Normal(p.pc) && Follows(p, a, logged, exposed)
    requires !x.Continue? && !x.CrashNow? && !x.Start?
    ensures Follows(Apply(p, x), a, logged || LogsCell(x, a),
                    exposed || (!logged && Exposes(x, a, Pending(p, a))))
  {
  }

  lemma {:induction false} LostFromCalls(s: State, xs: seq<Action>, k: int, a: int)
    requires Inv(s) && Transaction(s, xs) && 1 <= k <= |xs|
    ensures Follows(Run(s, xs[..k]), a, LoggedBy(xs[..k], a), Unprotected(s.vol, xs[..k], a))
    decreases k
  {
    LegalUpTo(s, xs, k);
    if k == 1 {
      assert xs[..1] == [Start] && xs[..1][..0] == [] && CellOk(s, a);
      assert Run(s, xs[..0]) == s;
    } else {
      LostFromCalls(s, xs, k - 1, a);
      LegalUpTo(s, xs, k - 1);
      FollowsOn(s, xs, k, a, Run(s, xs[..k - 1]), xs[k - 1]);
    }
  }

  lemma FollowsOn(s: State, xs: seq<Action>, k: int, a: int, p: State, x: Action)
    requires Inv(s) && Transaction(s, xs) && 2 <= k <= |xs| && p == Run(s, xs[..k - 1]) && x == xs[k - 1]
    requires Legal(s, xs[..k - 1]) && Run(s, xs[..k]) == Apply(p, x)
    requires Follows(p, a, LoggedBy(xs[..k - 1], a), Unprotected(s.vol, xs[..k - 1], a))
    ensures Follows(Apply(p, x), a, LoggedBy(xs[..k], a), Unprotected(s.vol, xs[..k], a))
  {
    var before := xs[..k - 1];
    RunKeepsInv(s, before);
    StoresTakeEffect(s, before, a);
    assert Allowed(p, x) && !p.pc.Idle? && !Apply(p, x).pc.Idle? && x in xs;
    assert xs[..k] == before + [x] && xs[..k][..k - 1] == before;
    LoggedMore(before, x, a);
    if x.Continue? { FollowsStep(p, a, LoggedBy(before, a), Unprotected(s.vol, before, a)); }
    else { FollowsCall(p, x, a, LoggedBy(before, a), Unprotected(s.vol, before, a)); }
  }

  lemma LoggedMore(xs: seq<Action>, x: Action, a: int)
    ensures LoggedBy(xs + [x], a) <==> LoggedBy(xs, a) || LogsCell(x, a)
  {
    if LoggedBy(xs, a) {
      var y :| y in xs && LogsCell(y, a);
      assert y in xs + [x];
    }
    if LogsCell(x, a) { assert x in xs + [x]; }
  }

  // ---------- recovery ----------

  /** ys takes a crashed machine through its recovery, with further crashes or not. */
  ghost predicate Recovery(r: State, ys: seq<Action>) {
    Legal(r, ys) && AllRecovering(r, ys) && Run(r, ys).pc.Idle?
  }

  /** Recovery keeps its goal, also through crashes. */
  lemma {:induction false} RecoveryGoal(r: State, ys: seq<Action>, k: int)
    requires Inv(r) && Recovery(r, ys) && 0 <= k < |ys|
    ensures var p := Run(r, ys[..k]); p.base == r.base && p.lost == r.lost
    decreases k
  {
    if k > 0 {
      RecoveryGoal(r, ys, k - 1);
      LegalUpTo(r, ys, k);
      LegalUpTo(r, ys, k - 1);
      RunKeepsInv(r, ys[..k - 1]);
      assert Allowed(Run(r, ys[..k - 1]), ys[k - 1]) && Run(r, ys[..k]).recovering;
      StepGoal(Run(r, ys[..k - 1]), ys[k - 1]);
    }
  }

  /** When it ends, every cell that was not lost holds, durably, what it owed. */
  lemma RecoveryRestores(r: State, ys: seq<Action>, a: int)
    requires Inv(r) && r.recovering && Recovery(r, ys) && !r.lost(a)
    ensures var q := Run(r, ys); q.vol(a) == r.base(a) && q.per(a) == r.base(a)
  {
    RunKeepsInv(r, ys);
    assert CellOk(r, a) && CellOk(Run(r, ys), a);
    var k := |ys| - 1;
    LegalUpTo(r, ys, k);
    RunKeepsInv(r, ys[..k]);
    RecoveryGoal(r, ys, k);
    LastStep(Run(r, ys[..k]), ys[k], a);
  }

  lemma LastStep(p: State, x: Action, a: int)
    requires Inv(p) && p.recovering && Apply(p, x).pc.Idle? && !p.lost(a)
    ensures Apply(p, x).vol(a) == p.base(a)
  {
    assert CellOk(p, a);
  }

  lemma CommittedStores(s: State, xs: seq<Action>, a: int)
    requires Inv(s) && Transaction(s, xs) && Committed(Run(s, xs))
    ensures Run(s, xs).vol(a) == LastStore(s.vol, xs, a)
  {
    RunKeepsInv(s, xs);
    assert NonePending(Run(s, xs).pc) by { CommittedPc(Run(s, xs)); }
    StoresTakeEffect(s, xs, a);
  }

  lemma CommittedPc(p: State)
    requires Inv(p) && Committed(p)
    ensures NonePending(p.pc)
  {
  }

  /** Crash atomicity. Whatever transaction ran, whatever lines reached persistence, wherever it
      crashed and however often recovery crashed in turn: once recovered, every cell that was logged,
      by the calls of the transaction, before its first store is as it was before the transaction if
      the version bump had not become persistent, and otherwise every cell holds what the transaction
      stored in it last. */
  lemma CrashAtomicity(s: State, xs: seq<Action>, ys: seq<Action>, a: int)
    requires Inv(s) && Transaction(s, xs) && Recovery(Crash(Run(s, xs)), ys)
    ensures var p, q := Run(s, xs), Run(Crash(Run(s, xs)), ys);
            && (!Committed(p) && !Unprotected(s.vol, xs, a) ==> q.vol(a) == s.vol(a) && q.per(a) == s.vol(a))
            && (Committed(p) ==> q.vol(a) == LastStore(s.vol, xs, a) && q.per(a) == LastStore(s.vol, xs, a))
  {
    var p := Run(s, xs);
    assert xs[..|xs|] == xs;
    TransactionBase(s, xs, |xs|);
    RunKeepsInv(s, xs);
    CrashInv(p);
    assert CellOk(s, a);
    LostFromCalls(s, xs, |xs|, a);
    if Committed(p) || !p.lost(a) { RecoveryRestores(Crash(p), ys, a); }
    if Committed(p) { CommittedStores(s, xs, a); }
  }

  /** Between transactions everything is persistent, so a committed transaction survives any later crash. */
  lemma IdleIsDurable(s: State, a: int)
    requires Inv(s) && s.pc.Idle?
    ensures s.per(a) == s.vol(a) && s.pver == s.vver
    ensures Crash(s).vol(a) == s.vol(a) && !Crash(s).lost(a) && Crash(s).base(a) == s.vol(a)
  {
    assert CellOk(s, a);
  }

  /** A cell is lost only by a store or a wrong log entry that comes before any entry for it. */
  lemma LostOnlyUnlogged(s: State, x: Action, a: int)
    requires Inv(s) && Allowed(s, x) && !s.recovering && !s.lost(a) && Apply(s, x).lost(a)
    ensures !Logged(s.vlog, s.n, a)
    ensures || (x.Continue? && s.pc.Store? && s.pc.a == a)
            || (x.LogOnly? && x.a == a && x.v != s.vol(a))
  {
  }

  /** Recovery replays exactly the entries of the interrupted transaction: those with the current
      version, never a stale one, and it never reads past the log. */
  lemma OnlyCurrentReplayed(s: State)
    requires Inv(s) && (s.pc.Scan? || s.pc.Replay?)
    ensures 0 <= s.pc.i < MAX_ENTRIES
    ensures s.pc.Replay? ==> forall k :: 0 <= k < s.pc.i ==> s.vlog(k).version == s.vver
    ensures s.pc.Scan? && s.vlog(s.pc.i).version != s.vver ==>
              forall k :: s.pc.i <= k ==> s.vlog(k).version != s.vver
  {
    assert CellOk(s, 0);
    forall k ensures 0 <= k < s.n ==> s.vlog(k).version == s.ver { assert EntryOk(s, k); }
    forall k ensures k >= s.n ==> s.vlog(k).version < s.ver { assert EntryOk(s, k) && EntryOk(s, s.n); }
  }

  // ---------- recovery ends ----------

  const RECOVERY_STEPS := 3 * MAX_ENTRIES + TABLE + 8

  /** Steps that the call in progress, or recovery, still has to take, at most, if nothing interrupts it. */
  ghost function StepsLeft(s: State): int {
    match s.pc
    case Scan(i) => 3 * MAX_ENTRIES + TABLE + 8 - i
    case Replay(i) => 2 * i + TABLE + 8
    case ReplayAdd(i) => 2 * i + TABLE + 7
    case FlushFence1 => TABLE + 7
    case FlushTab(j) => TABLE + 6 - j
    case FlushFence2 => 5
    case VerStore => 4
    case VerFence1 => 3
    case VerClwb => 2
    case VerFence2 => 1
    case LogAddr(_, _, _) => 8
    case LogVal(_, _, _) => 7
    case LogVersion(_, _, _) => 6
    case LogFence1(_, _, _) => 5
    case LogClwb(_, _, _) => 4
    case LogFence2(_, _, _) => 3
    case Store(_, _) => 2
    case AddTab(_) => 1
    case Idle => 0
    case Run => 0
  }

  /** No call is in progress. */
  ghost predicate Resting(pc: Pc) { pc.Idle? || pc.Run? }

  /** The memory system acts, or the call in progress goes on. */
  ghost predicate GoesOn(x: Action) {
    x.Continue? || x.EvictCells? || x.EvictEntry? || x.EvictVersion?
    || x.CompleteCells? || x.CompleteEntry? || x.CompleteVersion?
  }

  ghost function Continues(xs: seq<Action>): int
    decreases |xs|
  {
    if xs == [] then 0 else Continues(xs[..|xs| - 1]) + if xs[|xs| - 1].Continue? then 1 else 0
  }

  lemma CallAdvances(p: State, x: Action)
    requires Inv(p) && GoesOn(x) && !p.recovering
    ensures var q := Apply(p, x);
            && !q.recovering && (Resting(p.pc) ==> Resting(q.pc))
            && (!Resting(p.pc) ==> 0 < StepsLeft(p) && StepsLeft(q) <= StepsLeft(p) - if x.Continue? then 1 else 0)
  {
    assert CellOk(p, 0);
  }

  /** A store, a log entry or the end of a transaction returns after a bounded number of its own steps,
      whatever the memory system does meanwhile. */
  lemma {:induction false} CallEnds(s: State, xs: seq<Action>)
    requires Inv(s) && !s.recovering && Legal(s, xs) && forall k :: 0 <= k < |xs| ==> GoesOn(xs[k])
    ensures Inv(Run(s, xs)) && !Run(s, xs).recovering
    ensures Resting(Run(s, xs).pc) || (0 < StepsLeft(Run(s, xs)) <= StepsLeft(s) - Continues(xs))
    decreases |xs|
  {
    RunKeepsInv(s, xs);
    if xs == [] {
      CallAdvances(s, EvictVersion);
    } else {
      var k := |xs| - 1;
      LegalUpTo(s, xs, k);
      CallEnds(s, xs[..k]);
      CallAdvances(Run(s, xs[..k]), xs[k]);
      CallAdvances(Run(s, xs), EvictVersion);
    }
  }

  lemma RecoveryAdvances(p: State)
    requires Inv(p) && p.recovering
    ensures var q := Apply(p, Continue);
            && 0 < StepsLeft(p) <= RECOVERY_STEPS && StepsLeft(q) < StepsLeft(p)
            && (q.recovering || q.pc.Idle?)
  {
    assert CellOk(p, 0);
    if p.pc.Scan? { OnlyCurrentReplayed(p); }
  }

  lemma {:induction false} Finish(r: State, xs: seq<Action>) returns (ys: seq<Action>)
    requires Inv(r) && Legal(r, xs) && AllRecovering(r, xs) && Run(r, xs).recovering
    ensures xs <= ys && Recovery(r, ys) && |ys| <= |xs| + StepsLeft(Run(r, xs))
    decreases StepsLeft(Run(r, xs))
  {
    RunKeepsInv(r, xs);
    var p := Run(r, xs);
    RecoveryAdvances(p);
    ys := xs + [Continue];
    assert xs == ys[..|xs|];
    forall k | 0 <= k < |ys| ensures Run(r, ys[..k]).recovering && Allowed(Run(r, ys[..k]), ys[k]) {
      if k < |xs| { assert ys[..k] == xs[..k] && Run(r, xs[..k]).recovering && Allowed(Run(r, xs[..k]), xs[k]); }
    }
    assert Run(r, ys) == Apply(p, Continue);
    if !Apply(p, Continue).pc.Idle? { ys := Finish(r, ys); }
  }

  /** Recovery never hangs: wherever the crashes so far have left it, if none strikes again it is over
      within a fixed number of steps. */
  lemma RecoveryEnds(r: State, xs: seq<Action>)
    requires Inv(r) && Legal(r, xs) && AllRecovering(r, xs) && Run(r, xs).recovering
    ensures exists ys :: xs <= ys && Recovery(r, ys) && |ys| <= |xs| + RECOVERY_STEPS
  {
    RunKeepsInv(r, xs);
    RecoveryAdvances(Run(r, xs));
    var ys := Finish(r, xs);
    assert xs <= ys && Recovery(r, ys);
  }

  /** So a transaction can be recovered wherever it crashes. */
  lemma EveryCrashRecovers(s: State, xs: seq<Action>)
    requires Inv(s) && Transaction(s, xs)
    ensures exists ys :: Recovery(Crash(Run(s, xs)), ys) && |ys| <= RECOVERY_STEPS
  {
    RunKeepsInv(s, xs);
    CrashInv(Run(s, xs));
    RecoveryEnds(Crash(Run(s, xs)), []);
  }
}
