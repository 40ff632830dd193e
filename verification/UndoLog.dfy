/** Makalu's undo log over memory whose cache lines reach persistence at any moment.

    A cell is one logged variable; it lies inside one cache line. Every cell, every log entry and
    the log version has a volatile and a persistent value. A line may be written back at any time
    with its current contents; clwb queues a snapshot of a line, which is sure to be persistent
    only after the next fence. A crash loses everything volatile, and may strike between any two
    steps, also during recovery.

    The fields after "auxiliary" are never read by a step of the program.
*/
module UndoLog {

  const CACHE_LINE := 64
  const TABLE := 8           // SFLUSH_TABLE_SZ
  const MAX_ENTRIES := 64    // MAX_LOG_SZ / LOG_E_SZ

  function Line(a: int): int { a / CACHE_LINE }
  function Slot(l: int): int { l % TABLE }

  datatype Entry = Entry(addr: int, val: int, version: int)

  datatype Queued<T> = NoLine | Snap(v: T)

  datatype Tab = NoEntry | Has(line: int)

  /** What the program does next. In Log*, `next` is the value to store at `a` afterwards, if any. */
  datatype Pc =
    | Idle
    | Run
    // create_*_log_entry
    | LogAddr(a: int, v: int, next: Queued<int>)
    | LogVal(a: int, v: int, next: Queued<int>)
    | LogVersion(a: int, v: int, next: Queued<int>)
    | LogFence1(a: int, v: int, next: Queued<int>)
    | LogClwb(a: int, v: int, next: Queued<int>)
    | LogFence2(a: int, v: int, next: Queued<int>)
    // the store and its entry in the flush table
    | Store(a: int, w: int)
    | AddTab(a: int)
    // MAK_recover_metadata
    | Scan(i: int)
    | Replay(i: int)
    | ReplayAdd(i: int)
    // flush_all_entry
    | FlushFence1
    | FlushTab(j: int)
    | FlushFence2
    // the version bump
    | VerStore
    | VerFence1
    | VerClwb
    | VerFence2

  datatype State = State(
    vol: int -> int, per: int -> int,              // cells
    vlog: int -> Entry, plog: int -> Entry,        // log entries, one cache line each
    vver: int, pver: int,                          // the log version
    qcell: int -> Queued<int -> int>,              // queued write-backs, by line
    qlog: int -> Queued<Entry>,
    qver: Queued<int>,
    tab: int -> Tab,                               // MAK_sflush_table
    cur: int,                                      // curr_log_e
    pc: Pc,
    // auxiliary from here on
    n: int,                                        // the number of complete entries
    recovering: bool,
    ver: int,                                      // the version the transaction or recovery began with
    base: int -> int,                              // the contents a recovery must restore
    lost: int -> bool)                             // cells stored to before they were logged

  ghost function Upd<B>(f: int -> B, a: int, b: B): int -> B { x => if x == a then b else f(x) }

  // ---------- the memory system ----------

  /** The persistent cells once line `l` is written back with contents `v`. */
  ghost function WriteBack(per: int -> int, l: int, v: int -> int): int -> int {
    a => if Line(a) == l then v(a) else per(a)
  }

  ghost function Clwb(s: State, l: int): State { s.(qcell := Upd(s.qcell, l, Snap(s.vol))) }

  /** Every queued write-back completes. */
  ghost function Fence(s: State): State {
    s.(per := a => if s.qcell(Line(a)).Snap? then s.qcell(Line(a)).v(a) else s.per(a),
    plog := i => if s.qlog(i).Snap? then s.qlog(i).v else s.plog(i),
    pver := if s.qver.Snap? then s.qver.v else s.pver,
    qcell := l => NoLine, qlog := i => NoLine, qver := NoLine)
  }

  // ---------- add_to_flush_table ----------

  /** A cell's line takes its slot; a different line found there is written back. */
  ghost function Add(s: State, a: int): State {
    var l := Line(a);
    var t := s.tab(Slot(l));
    var s1 := if t.Has? && t.line != l then Clwb(s, t.line) else s;
    s1.(tab := Upd(s.tab, Slot(l), Has(l)))
  }

  // ---------- the program ----------

  ghost predicate Logged(log: int -> Entry, n: int, a: int) {
    exists i :: 0 <= i < n && log(i).addr == a
  }

  ghost function Step(s: State): State {
    match s.pc
    case Idle => s
    case Run => s
    case LogAddr(a, v, next) => s.(vlog := Upd(s.vlog, s.cur, s.vlog(s.cur).(addr := a)), pc := LogVal(a, v, next))
    case LogVal(a, v, next) => s.(vlog := Upd(s.vlog, s.cur, s.vlog(s.cur).(val := v)), pc := LogVersion(a, v, next))
    case LogVersion(a, v, next) =>
      s.(vlog := Upd(s.vlog, s.cur, s.vlog(s.cur).(version := s.vver)), pc := LogFence1(a, v, next))
    case LogFence1(a, v, next) => Fence(s).(pc := LogClwb(a, v, next))
    case LogClwb(a, v, next) => s.(qlog := Upd(s.qlog, s.cur, Snap(s.vlog(s.cur))), pc := LogFence2(a, v, next))
    case LogFence2(a, v, next) =>
      Fence(s).(cur := s.cur + 1, n := s.n + 1, pc := if next.Snap? then Store(a, next.v) else Run)
    case Store(a, w) =>
      s.(vol := Upd(s.vol, a, w), pc := AddTab(a),
      lost := if Logged(s.vlog, s.n, a) then s.lost else Upd(s.lost, a, true))
    case AddTab(a) => Add(s, a).(pc := Run)
    case Scan(i) => s.(pc := if s.vlog(i).version == s.vver then Scan(i + 1) else Replay(i))
    case Replay(i) =>
      if i > 0 then s.(vol := Upd(s.vol, s.vlog(i - 1).addr, s.vlog(i - 1).val), pc := ReplayAdd(i))
      else s.(pc := FlushFence1)
    case ReplayAdd(i) => Add(s, s.vlog(i - 1).addr).(pc := Replay(i - 1))
    case FlushFence1 => Fence(s).(pc := FlushTab(0))
    case FlushTab(j) =>
      if j < TABLE then
        (if s.tab(j).Has? then Clwb(s, s.tab(j).line) else s).(tab := Upd(s.tab, j, NoEntry), pc := FlushTab(j + 1))
      else s.(pc := FlushFence2)
    case FlushFence2 => Fence(s).(pc := VerStore)
    case VerStore => s.(vver := s.vver + 1, pc := VerFence1)
    case VerFence1 => Fence(s).(pc := VerClwb)
    case VerClwb => s.(qver := Snap(s.vver), pc := VerFence2)
    case VerFence2 => Done(Fence(s))
  }

  /** The transaction or the recovery is over. */
  ghost function Done(s: State): State {
    s.(pc := Idle, recovering := false, ver := s.vver, base := s.vol, lost := a => false, n := 0)
  }

  /** Has the version bump reached persistence? */
  ghost predicate Committed(s: State) { s.pver != s.ver }

  /** The machine restarts from what is persistent. What recovery owes is the old contents if the
      version bump was not persistent, and the new contents if it was. */
  ghost function Crash(s: State): State {
    s.(vol := s.per, vlog := s.plog, vver := s.pver, qcell := l => NoLine, qlog := i => NoLine, qver := NoLine,
    tab := j => NoEntry, cur := 0, pc := Scan(0), recovering := true, ver := s.pver,
    base := if Committed(s) && !s.recovering then s.vol else s.base,
    lost := if Committed(s) && !s.recovering then a => false else s.lost,
    n := if Committed(s) then 0 else if s.plog(s.n).version == s.ver then s.n + 1 else s.n)
  }

  datatype Action =
    | Start
    | LogOnly(a: int, v: int)                  // MAK_LOG_NVM_*
    | StoreLogged(a: int, w: int)              // MAK_STORE_NVM_*
    | StoreUnlogged(a: int, w: int)            // MAK_NO_LOG_STORE_NVM
    | End
    | Continue                                 // the next step of the call in progress
    | EvictCells(l: int) | EvictEntry(i: int) | EvictVersion     // written back with current contents
    | CompleteCells(l: int) | CompleteEntry(i: int) | CompleteVersion   // a queued write-back completes
    | CrashNow

  ghost predicate Allowed(s: State, x: Action) {
    match x
    case Start => s.pc.Idle?
    case LogOnly(a, v) => s.pc.Run? && s.cur + 1 < MAX_ENTRIES
    case StoreLogged(a, w) => s.pc.Run? && s.cur + 1 < MAX_ENTRIES
    case StoreUnlogged(a, w) => s.pc.Run?
    case End => s.pc.Run?
    case _ => true
  }

  ghost function Apply(s: State, x: Action): State {
    match x
    case Start => s.(cur := 0, n := 0, pc := Run)
    case LogOnly(a, v) =>
      s.(pc := LogAddr(a, v, NoLine),
      lost := if !Logged(s.vlog, s.n, a) && v != s.vol(a) then Upd(s.lost, a, true) else s.lost)
    case StoreLogged(a, w) => s.(pc := LogAddr(a, s.vol(a), Snap(w)))
    case StoreUnlogged(a, w) => s.(pc := Store(a, w))
    case End => s.(pc := FlushFence1)
    case Continue => Step(s)
    case EvictCells(l) => s.(per := WriteBack(s.per, l, s.vol), qcell := Upd(s.qcell, l, NoLine))
    case EvictEntry(i) => s.(plog := Upd(s.plog, i, s.vlog(i)), qlog := Upd(s.qlog, i, NoLine))
    case EvictVersion => s.(pver := s.vver, qver := NoLine)
    case CompleteCells(l) =>
      if s.qcell(l).Snap? then s.(per := WriteBack(s.per, l, s.qcell(l).v), qcell := Upd(s.qcell, l, NoLine)) else s
    case CompleteEntry(i) =>
      if s.qlog(i).Snap? then s.(plog := Upd(s.plog, i, s.qlog(i).v), qlog := Upd(s.qlog, i, NoLine)) else s
    case CompleteVersion => if s.qver.Snap? then s.(pver := s.qver.v, qver := NoLine) else s
    case CrashNow => Crash(s)
  }
}
