/**
 * The bridge from the `log` crate's macros to nginx's logger: the level
 * mapping, the `enabled` rule, the thread-local logger cell with its
 * once-only initialisation and scoped save/restore, and the control flow
 * of `Logger::log` with its "dropped messages" notice.
 */
module LogInterop {
  import opened Results
  import opened NgxConsts

  /** `log::Level`, in the crate's ascending order of verbosity. */
  datatype Level = Error | Warn | Info | Debug | Trace

  /** The discriminant of a `log::Level` (`Error` is 1, `Trace` is 5). */
  function Rank(l: Level): nat
  {
    match l
    case Error => 1
    case Warn => 2
    case Info => 3
    case Debug => 4
    case Trace => 5
  }

  /** `level < Level::Debug`: the levels that go to `log_error`. */
  predicate BelowDebug(l: Level)
  {
    Rank(l) < Rank(Debug)
  }

  /** `to_ngx_level`: Error, Warn and Info by name, Debug and Trace both to `NGX_LOG_DEBUG`. */
  function ToNgxLevel(l: Level): (r: nat)
    ensures l == Error ==> r == NGX_LOG_ERR
    ensures l == Warn ==> r == NGX_LOG_WARN
    ensures l == Info ==> r == NGX_LOG_INFO
    ensures !BelowDebug(l) <==> r == NGX_LOG_DEBUG
  {
    match l
    case Error => NGX_LOG_ERR
    case Warn => NGX_LOG_WARN
    case Info => NGX_LOG_INFO
    case Debug => NGX_LOG_DEBUG
    case Trace => NGX_LOG_DEBUG
  }

  /** A more verbose `log` level never maps to a less verbose nginx level. */
  lemma ToNgxLevelMonotone(a: Level, b: Level)
    requires Rank(a) <= Rank(b)
    ensures ToNgxLevel(a) <= ToNgxLevel(b)
  {
  }

  /** An `ngx_log_t`, identified by its address, with its `log_level` word. */
  datatype NgxLog = NgxLog(id: nat, logLevel: nat)

  /** The thread-local logger state `Inner`; `NoLogger` is `Inner::None`. */
  datatype Inner = NoLogger | Cycle | Specific(mask: nat, log: NgxLog)

  /** `x & y != 0` on unsigned words: some bit position is set in both. */
  predicate BitsMeet(x: nat, y: nat)
    decreases x
  {
    x > 0 && y > 0 && ((x % 2 == 1 && y % 2 == 1) || BitsMeet(x / 2, y / 2))
  }

  /** The decision of `enabled` once the mask and the log are known. */
  predicate LevelEnabled(mask: nat, log: NgxLog, level: Level)
  {
    if BelowDebug(level) then ToNgxLevel(level) < log.logLevel else BitsMeet(log.logLevel, mask)
  }

  /** `Logger::enabled` for the thread state `inner`; `cycle` is `ngx_cycle_log()`. */
  function Enabled(inner: Inner, cycle: NgxLog, level: Level): (r: bool)
    ensures inner.NoLogger? ==> !r
    ensures inner.Cycle? ==> (r <==> LevelEnabled(NGX_LOG_DEBUG_CORE, cycle, level))
    ensures inner.Specific? ==> (r <==> LevelEnabled(inner.mask, inner.log, level))
  {
    match inner
    case NoLogger => false
    case Cycle => LevelEnabled(NGX_LOG_DEBUG_CORE, cycle, level)
    case Specific(mask, log) => LevelEnabled(mask, log, level)
  }

  /** Below `Debug`, a record enabled at some level is enabled at every less verbose level. */
  lemma EnabledMonotone(inner: Inner, cycle: NgxLog, a: Level, b: Level)
    requires Rank(a) <= Rank(b) && BelowDebug(b)
    requires Enabled(inner, cycle, b)
    ensures Enabled(inner, cycle, a)
  {
    ToNgxLevelMonotone(a, b);
  }

  /** `Debug` and `Trace` records are filtered identically, by the debug mask alone. */
  lemma DebugTraceAgree(inner: Inner, cycle: NgxLog)
    ensures Enabled(inner, cycle, Debug) == Enabled(inner, cycle, Trace)
    ensures inner.Specific? ==> (Enabled(inner, cycle, Debug) <==> BitsMeet(inner.log.logLevel, inner.mask))
  {
    assert !BelowDebug(Debug) && !BelowDebug(Trace);
  }

  // ---------------------------------------------------------------------
  // Logger state
  // ---------------------------------------------------------------------

  type ThreadId = nat

  /** A `log::Record`: its level and the formatted message. */
  datatype Record = Record(level: Level, msg: string)

  /**
   * One call into nginx's log writers: `log_error` at a level, `log_debug`,
   * or the `log_error(NGX_LOG_WARN, ...)` notice that messages logged off
   * the main thread were dropped.
   */
  datatype Write =
    | ErrorWrite(level: nat, log: NgxLog, msg: string)
    | DebugWrite(log: NgxLog, msg: string)
    | DroppedNotice(log: NgxLog)

  /** The crate features and the nginx configuration that choose the maximum level. */
  datatype Features = Features(logTrace: bool, ngxDebug: bool, logDebug: bool)

  /** The `log::LevelFilter` `init` installs. */
  function MaxLevelFor(f: Features): (l: Level)
    ensures l == Trace <==> f.logTrace
    ensures l == Debug <==> !f.logTrace && (f.ngxDebug || f.logDebug)
    ensures l == Info <==> !f.logTrace && !f.ngxDebug && !f.logDebug
  {
    if f.logTrace then Trace else if f.ngxDebug || f.logDebug then Debug else Info
  }

  /**
   * The logger's state: each thread's `NGX_THREAD_LOGGER` cell (a thread
   * without an entry holds `Inner::None`), the `NONE_USED` and
   * `NONE_REPORTED` flags, whether `init` ran with the maximum level it
   * set, and the writes issued so far.
   */
  datatype LoggerState = LoggerState(
    cells: map<ThreadId, Inner>,
    noneUsed: bool,
    noneReported: bool,
    initialised: bool,
    maxLevel: Option<Level>,
    writes: seq<Write>)

  const Initial: LoggerState := LoggerState(map[], false, false, false, None, [])

  /** The cell of thread `t`. */
  function CellOf(s: LoggerState, t: ThreadId): Inner
  {
    if t in s.cells then s.cells[t] else NoLogger
  }

  /** `init` called on thread `t`: only the first call has an effect. */
  function InitSpec(s: LoggerState, t: ThreadId, f: Features): (r: LoggerState)
    ensures s.initialised ==> r == s
    ensures !s.initialised ==> r.initialised && CellOf(r, t) == Cycle && r.maxLevel == Some(MaxLevelFor(f))
    ensures forall u :: u != t ==> CellOf(r, u) == CellOf(s, u)
    ensures r.noneUsed == s.noneUsed && r.noneReported == s.noneReported && r.writes == s.writes
  {
    if s.initialised then s
    else s.(cells := s.cells[t := Cycle], initialised := true, maxLevel := Some(MaxLevelFor(f)))
  }

  /** Calling `init` a second time, from any thread and with any features, changes nothing. */
  lemma InitOnce(s: LoggerState, t: ThreadId, f: Features, t': ThreadId, f': Features)
    ensures InitSpec(InitSpec(s, t, f), t', f') == InitSpec(s, t, f)
  {
  }

  /** `Logger::enter` on thread `t`: `init`, then install `Specific(mask, log)` and return the old cell as the scope. */
  function EnterSpec(s: LoggerState, t: ThreadId, f: Features, mask: nat, log: NgxLog): (r: (LoggerState, Inner))
    ensures r.1 == (if s.initialised then CellOf(s, t) else Cycle)
    ensures CellOf(r.0, t) == Specific(mask, log) && r.0.initialised
    ensures forall u :: u != t ==> CellOf(r.0, u) == CellOf(s, u)
    ensures r.0.noneUsed == s.noneUsed && r.0.noneReported == s.noneReported && r.0.writes == s.writes
  {
    var s1 := InitSpec(s, t, f);
    (s1.(cells := s1.cells[t := Specific(mask, log)]), CellOf(s1, t))
  }

  /** `LogScope::drop` on thread `t`: put the saved cell back. */
  function ExitSpec(s: LoggerState, t: ThreadId, scope: Inner): (r: LoggerState)
    ensures CellOf(r, t) == scope
    ensures forall u :: u != t ==> CellOf(r, u) == CellOf(s, u)
    ensures r.noneUsed == s.noneUsed && r.noneReported == s.noneReported && r.writes == s.writes
    ensures r.initialised == s.initialised
  {
    s.(cells := s.cells[t := scope])
  }

  /** The log a non-`None` state writes to: the cycle log for `Cycle`. */
  function Target(inner: Inner, cycle: NgxLog): NgxLog
  {
    if inner.Specific? then inner.log else cycle
  }

  /** The write a record turns into: `log_error` at the mapped level below `Debug`, `log_debug` otherwise. */
  function Routed(log: NgxLog, rec: Record): (w: Write)
    ensures BelowDebug(rec.level) ==> w == ErrorWrite(ToNgxLevel(rec.level), log, rec.msg)
    ensures !BelowDebug(rec.level) ==> w == DebugWrite(log, rec.msg)
  {
    if BelowDebug(rec.level) then ErrorWrite(ToNgxLevel(rec.level), log, rec.msg) else DebugWrite(log, rec.msg)
  }

  /** `Logger::log` of `rec` on thread `t`. */
  function LogSpec(s: LoggerState, t: ThreadId, cycle: NgxLog, rec: Record): (r: LoggerState)
    ensures CellOf(s, t).NoLogger? ==> r == s.(noneUsed := true)
    ensures !CellOf(s, t).NoLogger? && !Enabled(CellOf(s, t), cycle, rec.level) ==> r == s
    ensures r.cells == s.cells && r.initialised == s.initialised && r.maxLevel == s.maxLevel
    ensures Enabled(CellOf(s, t), cycle, rec.level) ==>
      var notice := s.noneUsed && !s.noneReported;
      r.writes == s.writes + (if notice then [DroppedNotice(Target(CellOf(s, t), cycle))] else [])
                           + [Routed(Target(CellOf(s, t), cycle), rec)]
      && r.noneReported == (s.noneReported || s.noneUsed) && r.noneUsed == s.noneUsed
  {
    var cur := CellOf(s, t);
    if cur.NoLogger? then s.(noneUsed := true)
    else if !Enabled(cur, cycle, rec.level) then s
    else
      var log := Target(cur, cycle);
      var notice := if s.noneUsed && !s.noneReported then [DroppedNotice(log)] else [];
      s.(noneReported := s.noneReported || s.noneUsed, writes := s.writes + notice + [Routed(log, rec)])
  }

  // ---------------------------------------------------------------------
  // Scopes: `with_log` around code that logs and opens further scopes
  // ---------------------------------------------------------------------

  /** What a closure passed to `with_log` does, step by step. */
  datatype Step = Emit(rec: Record) | Scoped(mask: nat, log: NgxLog, body: Script)
  datatype Script = Done | Then(step: Step, rest: Script)

  /** Running `script` on thread `t`. */
  function RunScript(s: LoggerState, t: ThreadId, f: Features, cycle: NgxLog, script: Script): LoggerState
    decreases script, 0
  {
    match script
    case Done => s
    case Then(Emit(rec), rest) => RunScript(LogSpec(s, t, cycle, rec), t, f, cycle, rest)
    case Then(Scoped(mask, log, body), rest) => RunScript(WithLogSpec(s, t, f, cycle, mask, log, body), t, f, cycle, rest)
  }

  /** `with_log(mask, log, body)` on thread `t`: enter, run the body, drop the scope. */
  function WithLogSpec(s: LoggerState, t: ThreadId, f: Features, cycle: NgxLog, mask: nat, log: NgxLog, body: Script): LoggerState
    decreases body, 1
  {
    var (s1, scope) := EnterSpec(s, t, f, mask, log);
    ExitSpec(RunScript(s1, t, f, cycle, body), t, scope)
  }

  /**
   * A script leaves every other thread's cell alone and, once `init` has
   * run, gives the running thread its cell back: all scopes it opens are
   * closed again, however deeply nested.
   */
  lemma {:induction false} RunScriptKeepsCells(s: LoggerState, t: ThreadId, f: Features, cycle: NgxLog, script: Script)
    ensures var r := RunScript(s, t, f, cycle, script);
      (s.initialised ==> r.initialised && CellOf(r, t) == CellOf(s, t))
      && (forall u :: u != t ==> CellOf(r, u) == CellOf(s, u))
    decreases script, 0
  {
    match script
    case Done =>
    case Then(Emit(rec), rest) =>
      RunScriptKeepsCells(LogSpec(s, t, cycle, rec), t, f, cycle, rest);
    case Then(Scoped(mask, log, body), rest) =>
      WithLogRestores(s, t, f, cycle, mask, log, body);
      RunScriptKeepsCells(WithLogSpec(s, t, f, cycle, mask, log, body), t, f, cycle, rest);
  }

  /**
   * After `with_log` the thread's cell is what it was before (or `Cycle`
   * when this `with_log` was what ran `init`), `init` has run, and other
   * threads' cells are untouched.
   */
  lemma {:induction false} WithLogRestores(s: LoggerState, t: ThreadId, f: Features, cycle: NgxLog, mask: nat, log: NgxLog, body: Script)
    ensures var r := WithLogSpec(s, t, f, cycle, mask, log, body);
      r.initialised
      && CellOf(r, t) == (if s.initialised then CellOf(s, t) else Cycle)
      && (forall u :: u != t ==> CellOf(r, u) == CellOf(s, u))
    decreases body, 1
  {
    var (s1, scope) := EnterSpec(s, t, f, mask, log);
    RunScriptKeepsCells(s1, t, f, cycle, body);
  }

  /** Inside `with_log(mask, log, ..)`, an enabled record is written to `log`, and a disabled one to nothing. */
  lemma ScopedRecordGoesToScopeLog(s: LoggerState, t: ThreadId, f: Features, cycle: NgxLog, mask: nat, log: NgxLog, rec: Record)
    ensures var r := WithLogSpec(s, t, f, cycle, mask, log, Then(Emit(rec), Done));
      (LevelEnabled(mask, log, rec.level) ==> |r.writes| > |s.writes| && r.writes[|r.writes| - 1] == Routed(log, rec))
      && (!LevelEnabled(mask, log, rec.level) ==> r.writes == s.writes)
  {
    var (s1, scope) := EnterSpec(s, t, f, mask, log);
    assert CellOf(s1, t) == Specific(mask, log);
    assert RunScript(s1, t, f, cycle, Then(Emit(rec), Done)) == LogSpec(s1, t, cycle, rec);
  }

  // ---------------------------------------------------------------------
  // The dropped-messages notice
  // ---------------------------------------------------------------------

  /** The number of dropped-messages notices among `ws`. */
  function CountNotices(ws: seq<Write>): (n: nat)
    ensures n <= |ws|
  {
    if ws == [] then 0 else CountNotices(ws[..|ws| - 1]) + (if ws[|ws| - 1].DroppedNotice? then 1 else 0)
  }

  lemma {:induction false} CountNoticesAppend(a: seq<Write>, b: seq<Write>)
    ensures CountNotices(a + b) == CountNotices(a) + CountNotices(b)
    decreases |b|
  {
    if b != [] {
      var b' := b[..|b| - 1];
      assert (a + b)[..|a + b| - 1] == a + b';
      assert (a + b)[|a + b| - 1] == b[|b| - 1];
      CountNoticesAppend(a, b');
    } else {
      assert a + b == a;
    }
  }

  /** Exactly one notice once `NONE_REPORTED` is set, none before, and it is set only after `NONE_USED`. */
  predicate NoticeInv(s: LoggerState)
  {
    CountNotices(s.writes) == (if s.noneReported then 1 else 0) && (s.noneReported ==> s.noneUsed)
  }

  /** One operation on the logger, on some thread. */
  datatype Op =
    | InitOn(t: ThreadId)
    | EnterOn(t: ThreadId, mask: nat, log: NgxLog)
    | DropScope(t: ThreadId, scope: Inner)
    | LogOn(t: ThreadId, rec: Record)

  function Apply(s: LoggerState, f: Features, cycle: NgxLog, op: Op): LoggerState
  {
    match op
    case InitOn(t) => InitSpec(s, t, f)
    case EnterOn(t, mask, log) => EnterSpec(s, t, f, mask, log).0
    case DropScope(t, scope) => ExitSpec(s, t, scope)
    case LogOn(t, rec) => LogSpec(s, t, cycle, rec)
  }

  /** The state after the operations `ops`, in order, from the initial state. */
  function Exec(f: Features, cycle: NgxLog, ops: seq<Op>): LoggerState
    decreases |ops|
  {
    if ops == [] then Initial else Apply(Exec(f, cycle, ops[..|ops| - 1]), f, cycle, ops[|ops| - 1])
  }

  lemma ApplyKeepsNoticeInv(s: LoggerState, f: Features, cycle: NgxLog, op: Op)
    requires NoticeInv(s)
    ensures NoticeInv(Apply(s, f, cycle, op))
  {
    if op.LogOn? {
      var cur := CellOf(s, op.t);
      if Enabled(cur, cycle, op.rec.level) {
        var log := Target(cur, cycle);
        var notice := if s.noneUsed && !s.noneReported then [DroppedNotice(log)] else [];
        CountNoticesAppend(s.writes + notice, [Routed(log, op.rec)]);
        CountNoticesAppend(s.writes, notice);
        assert CountNotices([Routed(log, op.rec)]) == 0 by {
          assert [Routed(log, op.rec)][..0] == [];
        }
        assert CountNotices(notice) == |notice| by {
          if notice != [] { assert notice[..0] == []; }
        }
      }
    }
  }

  /**
   * Whatever the threads do, the dropped-messages notice is written at
   * most once, and only after some thread logged while its cell was `None`.
   */
  lemma {:induction false} NoticeAtMostOnce(f: Features, cycle: NgxLog, ops: seq<Op>)
    ensures CountNotices(Exec(f, cycle, ops).writes) <= 1
    ensures CountNotices(Exec(f, cycle, ops).writes) == 1 ==> Exec(f, cycle, ops).noneUsed
    decreases |ops|
  {
    ExecKeepsNoticeInv(f, cycle, ops);
  }

  lemma {:induction false} ExecKeepsNoticeInv(f: Features, cycle: NgxLog, ops: seq<Op>)
    ensures NoticeInv(Exec(f, cycle, ops))
    decreases |ops|
  {
    if ops != [] {
      ExecKeepsNoticeInv(f, cycle, ops[..|ops| - 1]);
      ApplyKeepsNoticeInv(Exec(f, cycle, ops[..|ops| - 1]), f, cycle, ops[|ops| - 1]);
    }
  }

  // ---------------------------------------------------------------------
  // The logger's globals, updated in place
  // ---------------------------------------------------------------------

  /**
   * `NGX_THREAD_LOGGER` (one cell per thread), the two atomic flags, the
   * `INIT` once-lock with the `log` crate's maximum level, and the log
   * writes issued. `features` are the compile-time settings and
   * `cycleLog` is `ngx_cycle_log()`.
   */
  class ThreadLogger {
    var cells: map<ThreadId, Inner>
    var noneUsed: bool
    var noneReported: bool
    var initialised: bool
    var maxLevel: Option<Level>
    var writes: seq<Write>
    const features: Features
    const cycleLog: NgxLog

    function State(): LoggerState
      reads this
    {
      LoggerState(cells, noneUsed, noneReported, initialised, maxLevel, writes)
    }

    constructor(features: Features, cycleLog: NgxLog)
      ensures State() == Initial
      ensures this.features == features && this.cycleLog == cycleLog
    {
      cells := map[];
      noneUsed := false;
      noneReported := false;
      initialised := false;
      maxLevel := None;
      writes := [];
      this.features := features;
      this.cycleLog := cycleLog;
    }

    /** `init` on thread `t`. */
    method Init(t: ThreadId)
      modifies this
      ensures State() == InitSpec(old(State()), t, features)
    {
      if !initialised {
        cells := cells[t := Cycle];
        maxLevel := Some(MaxLevelFor(features));
        initialised := true;
      }
    }

    /** `Logger::enter` on thread `t`; the result is the `LogScope`. */
    method Enter(t: ThreadId, mask: nat, log: NgxLog) returns (scope: Inner)
      modifies this
      ensures (State(), scope) == EnterSpec(old(State()), t, features, mask, log)
    {
      Init(t);
      scope := if t in cells then cells[t] else NoLogger;
      cells := cells[t := Specific(mask, log)];
    }

    /** `LogScope::drop` on thread `t`. */
    method Exit(t: ThreadId, scope: Inner)
      modifies this
      ensures State() == ExitSpec(old(State()), t, scope)
    {
      cells := cells[t := scope];
    }

    /** `Logger::log` of `rec` on thread `t`. */
    method Log(t: ThreadId, rec: Record)
      modifies this
      ensures State() == LogSpec(old(State()), t, cycleLog, rec)
    {
      var cur := if t in cells then cells[t] else NoLogger;
      if cur.NoLogger? {
        noneUsed := true;
        return;
      }
      if !Enabled(cur, cycleLog, rec.level) {
        return;
      }
      var log := Target(cur, cycleLog);
      if noneUsed && !noneReported {
        writes := writes + [DroppedNotice(log)];
        noneReported := true;
      }
      writes := writes + [Routed(log, rec)];
    }

    /** Running `script` on thread `t`. */
    method Run(t: ThreadId, script: Script)
      modifies this
      ensures State() == RunScript(old(State()), t, features, cycleLog, script)
      decreases script, 0
    {
      match script
      case Done =>
      case Then(step, rest) =>
        match step {
          case Emit(rec) =>
            Log(t, rec);
          case Scoped(mask, log, body) =>
            WithLog(t, mask, log, body);
        }
        Run(t, rest);
    }

    /** `with_log(mask, log, body)` on thread `t`. */
    method WithLog(t: ThreadId, mask: nat, log: NgxLog, body: Script)
      modifies this
      ensures State() == WithLogSpec(old(State()), t, features, cycleLog, mask, log, body)
      decreases body, 1
    {
      var scope := Enter(t, mask, log);
      Run(t, body);
      Exit(t, scope);
    }
  }
}
