/**
 * The logger's control state: the logging switch, the logging level, the
 * request flags the signal handlers raise, the two semaphores, and what
 * has been written to the log and as dump files. The functions give the
 * effect of each handler, of one wake of the worker thread and of one
 * pass of the main thread's wait loop; class Logger performs the same
 * steps on its fields. Every step is atomic: the threads are modelled by
 * interleaving whole steps.
 */
module Logging {
  import opened CStrings
  import opened Wrappers

  /** The globals. enabled, level and the flags are C ints; the
      semaphores are counters; log holds the lines appended to app.log
      (LogText gives the file's text) and dumps the names of the dump files
      written, in order. */
  datatype LogState = LogState(
    enabled: int,
    level: int,
    toggleFlag: int,
    levelFlag: int,
    exitFlag: int,
    dumpSem: nat,
    childSem: nat,
    fileOpen: bool,
    log: seq<Entry>,
    dumps: seq<string>)

  /** The static initialisers: logging on at level 1, no request pending,
      no log file yet. */
  const Initial := LogState(1, 1, 0, 0, 0, 0, 0, false, [], [])

  /** The values the globals can take: the switch and the flags are 0 or
      1, the level is 0, 1 or 2. */
  predicate Inv(st: LogState) {
    && st.enabled in {0, 1}
    && 0 <= st.level <= 2
    && st.toggleFlag in {0, 1}
    && st.levelFlag in {0, 1}
    && st.exitFlag in {0, 1}
  }

  // ---------------------------------------------------------------------
  // logger_log
  // ---------------------------------------------------------------------

  /** The messages the logger is asked to write. */
  datatype Note =
    | Toggled(enabled: int)
    | LevelChanged(level: int)
    | DumpSignalled
    | DumpWritten(name: string)

  function NoteText(n: Note): string {
    match n
    case Toggled(e) => "Przestawiono logowanie na " + IntToDec(e) + " (Sygnal: SIGRTMIN+1)"
    case LevelChanged(l) => "Poziom logowanaia zmieniony na: " + IntToDec(l)
    case DumpSignalled => "Otrzymano sygnal dump(SIGRTMIN)"
    case DumpWritten(name) => "Plik dump '" + name + "' wygenerowano."
  }

  /** One line of the log: when it was written, the level at that time,
      and the message. */
  datatype Entry = Entry(ts: string, level: int, note: Note)

  const LevelTag := "] [Akutalny poziom logowania: "

  /** The text of one log line: timestamp, level, message, newline. */
  function LogLine(e: Entry): string {
    LinePrefix(e.ts) + IntToDec(e.level) + LineEnd(e.note)
  }

  function LinePrefix(ts: string): string {
    "[" + ts + LevelTag
  }

  function LineEnd(n: Note): string {
    "] " + NoteText(n) + "\n"
  }

  /** The text of app.log after the given lines. */
  function LogText(log: seq<Entry>): string
    decreases |log|
  {
    if |log| == 0 then "" else LogText(log[..|log| - 1]) + LogLine(log[|log| - 1])
  }

  /** logger_log: a line is appended only while the file is open and
      logging is on. */
  function Logged(st: LogState, ts: string, note: Note): LogState {
    if st.fileOpen && st.enabled != 0 then st.(log := st.log + [Entry(ts, st.level, note)])
    else st
  }

  /** logger_log writes exactly when the file is open and logging is on,
      exactly one line carrying the current level, and touches nothing
      else; the file grows by that line's text. */
  lemma LoggedEffect(st: LogState, ts: string, note: Note)
    ensures var r := Logged(st, ts, note);
      && r == st.(log := r.log)
      && (st.fileOpen && st.enabled != 0 ==> r.log == st.log + [Entry(ts, st.level, note)])
      && (!(st.fileOpen && st.enabled != 0) ==> r.log == st.log)
      && LogText(r.log) ==
           LogText(st.log) + (if st.fileOpen && st.enabled != 0 then LogLine(Entry(ts, st.level, note)) else "")
  {
    var l := st.log + [Entry(ts, st.level, note)];
    assert l[..|l| - 1] == st.log;
  }

  /** A log line starts with its bracketed timestamp, and the level can be
      read back from it with atoi. */
  lemma LogLineFields(e: Entry)
    ensures var line := LogLine(e);
      && |line| > |e.ts| + 1
      && line[0] == '[' && line[1..|e.ts| + 1] == e.ts && line[|e.ts| + 1] == ']'
      && Atol(line[|e.ts| + 1 + |LevelTag|..]) == e.level
  {
    var rest := LineEnd(e.note);
    assert rest[0] == ']';
    NumberAfter(LinePrefix(e.ts), e.level, rest);
    StampAt(e.ts, LevelTag, IntToDec(e.level), rest);
  }

  /** Where the timestamp sits in a text that starts "[" + ts + tag. */
  lemma StampAt(ts: string, tag: string, x: string, y: string)
    requires |tag| > 0
    ensures var line := "[" + ts + tag + x + y;
      && |line| > |ts| + 1
      && line[0] == '[' && line[1..|ts| + 1] == ts && line[|ts| + 1] == tag[0]
  {
    var line := "[" + ts + tag + x + y;
    assert line[1..|ts| + 1] == ts;
  }

  /** atoi recovers a number printed after any prefix and before a
      non-digit. */
  lemma NumberAfter(pre: string, n: int, rest: string)
    requires |rest| == 0 || !IsDigit(rest[0])
    ensures Atol((pre + IntToDec(n) + rest)[|pre|..]) == n
  {
    assert (pre + IntToDec(n) + rest)[|pre|..] == IntToDec(n) + rest;
    AtolOfIntToDec(n, rest);
  }

  // ---------------------------------------------------------------------
  // Signal handlers
  // ---------------------------------------------------------------------

  /** handler_exit (SIGINT). */
  function OnExit(st: LogState): LogState {
    st.(exitFlag := 1)
  }

  /** handler_dump (SIGRTMIN): post the dump semaphore. */
  function OnDump(st: LogState): LogState {
    st.(dumpSem := st.dumpSem + 1)
  }

  /** handler_toggle (SIGRTMIN+1): raise the toggle flag, wake the worker. */
  function OnToggle(st: LogState): LogState {
    st.(toggleFlag := 1, childSem := st.childSem + 1)
  }

  /** handler_change (SIGRTMIN+2): raise the level flag, wake the worker. */
  function OnChange(st: LogState): LogState {
    st.(levelFlag := 1, childSem := st.childSem + 1)
  }

  // ---------------------------------------------------------------------
  // The worker thread
  // ---------------------------------------------------------------------

  /** C's logical negation of an int. */
  function Not(e: int): int {
    if e == 0 then 1 else 0
  }

  /** The level after SIGRTMIN+2: 0, 1, 2, then back to 0. */
  function NextLevel(l: int): int {
    if l < 2 then l + 1 else 0
  }

  /** The toggle half of a wake: flip the switch, log under the new
      setting, clear the flag. */
  function ToggleHandled(st: LogState, ts: string): LogState {
    if st.toggleFlag == 1 then
      var e := Not(st.enabled);
      Logged(st.(enabled := e), ts, Toggled(e)).(toggleFlag := 0)
    else st
  }

  /** The level half of a wake: advance the level, log at the new level,
      clear the flag. */
  function LevelHandled(st: LogState, ts: string): LogState {
    if st.levelFlag == 1 then
      var l := NextLevel(st.level);
      Logged(st.(level := l), ts, LevelChanged(l)).(levelFlag := 0)
    else st
  }

  /** One pass of child_thread_func's loop: take the semaphore, then serve
      the toggle request and then the level request. */
  function Woken(st: LogState, ts: string): LogState
    requires st.childSem > 0
  {
    LevelHandled(ToggleHandled(st.(childSem := st.childSem - 1), ts), ts)
  }

  /** The level stays in 0..2, always moves, and three advances bring it
      back. */
  lemma LevelCycle(l: int)
    requires 0 <= l <= 2
    ensures 0 <= NextLevel(l) <= 2 && NextLevel(l) != l
    ensures NextLevel(NextLevel(NextLevel(l))) == l
  {
  }

  /** A wake serves both pending requests and clears both flags; a wake
      with no request pending only takes the semaphore. */
  lemma WokenEffect(st: LogState, ts: string)
    requires st.childSem > 0
    ensures var r := Woken(st, ts);
      && r.childSem == st.childSem - 1
      && r.toggleFlag == (if st.toggleFlag == 1 then 0 else st.toggleFlag)
      && r.levelFlag == (if st.levelFlag == 1 then 0 else st.levelFlag)
      && r.enabled == (if st.toggleFlag == 1 then Not(st.enabled) else st.enabled)
      && r.level == (if st.levelFlag == 1 then NextLevel(st.level) else st.level)
      && r.dumpSem == st.dumpSem && r.exitFlag == st.exitFlag
      && r.fileOpen == st.fileOpen && r.dumps == st.dumps
      && (st.toggleFlag != 1 && st.levelFlag != 1 ==> r == st.(childSem := st.childSem - 1))
  {
  }

  /** Toggling twice restores the switch. */
  lemma ToggleInvolution(st: LogState, ts: string, ts': string)
    requires st.enabled in {0, 1}
    ensures Woken(OnToggle(Woken(OnToggle(st), ts)), ts').enabled == st.enabled
  {
  }

  /** Three level changes restore the level. */
  lemma LevelRoundTrip(st: LogState, ts1: string, ts2: string, ts3: string)
    requires 0 <= st.level <= 2
    ensures Woken(OnChange(Woken(OnChange(Woken(OnChange(st), ts1)), ts2)), ts3).level == st.level
  {
    LevelCycle(st.level);
  }

  /** Two SIGRTMIN+1 before the worker runs have the effect of one: the
      second wake finds no flag raised. */
  lemma ToggleCoalesces(st: LogState, ts: string, ts': string)
    ensures Woken(Woken(OnToggle(OnToggle(st)), ts), ts') == Woken(OnToggle(st), ts)
  {
  }

  /** Two SIGRTMIN+2 before the worker runs advance the level once. */
  lemma ChangeCoalesces(st: LogState, ts: string, ts': string)
    ensures Woken(Woken(OnChange(OnChange(st)), ts), ts') == Woken(OnChange(st), ts)
  {
  }

  // ---------------------------------------------------------------------
  // Dumps and the main loop
  // ---------------------------------------------------------------------

  /** snprintf of "dump_%s.txt" into a 128-byte buffer. */
  function DumpFileName(ts: string): string {
    Truncate("dump_" + ts + ".txt", 127)
  }

  /** The timestamp a dump file name carries. */
  function DumpStamp(name: string): Option<string> {
    if |name| >= 9 && name[..5] == "dump_" && name[|name| - 4..] == ".txt"
    then Some(name[5..|name| - 4])
    else None
  }

  /** strftime's "%Y%m%d_%H%M%S": eight digits, an underscore, six digits. */
  predicate IsTimestamp(ts: string) {
    && |ts| == 15
    && AllDigits(ts[..8]) && ts[8] == '_' && AllDigits(ts[9..])
  }

  /** A timestamp from the 64-byte time buffer is never cut, and the name
      gives it back; a strftime timestamp makes a 24-character name. */
  lemma DumpNameRoundTrip(ts: string)
    requires |ts| < 64
    ensures DumpFileName(ts) == "dump_" + ts + ".txt"
    ensures DumpStamp(DumpFileName(ts)) == Some(ts)
    ensures IsTimestamp(ts) ==> |DumpFileName(ts)| == 24
  {
    var name := "dump_" + ts + ".txt";
    assert name[..5] == "dump_";
    assert name[|name| - 4..] == ".txt";
    assert name[5..|name| - 4] == ts;
  }

  /** dumpy: when the file can be created, record it and log its name. */
  function Dumped(st: LogState, ts: string, openOk: bool): LogState {
    var name := DumpFileName(ts);
    if openOk then Logged(st.(dumps := st.dumps + [name]), ts, DumpWritten(name))
    else st
  }

  /** One pass of logger_run's loop: sem_timedwait succeeds when a dump is
      pending, and then the dump is logged and written; otherwise it times
      out or is interrupted and nothing happens. */
  function Waited(st: LogState, ts: string, openOk: bool): LogState {
    if st.dumpSem > 0 then
      Dumped(Logged(st.(dumpSem := st.dumpSem - 1), ts, DumpSignalled), ts, openOk)
    else st
  }

  /** A pass of the main loop serves at most one dump request and writes
      one dump file exactly when it serves one and the file can be
      created; the control state is not touched. */
  lemma WaitedEffect(st: LogState, ts: string, openOk: bool)
    ensures var r := Waited(st, ts, openOk);
      && (st.dumpSem > 0 ==> r.dumpSem == st.dumpSem - 1)
      && (st.dumpSem == 0 ==> r == st)
      && r.dumps == st.dumps + (if st.dumpSem > 0 && openOk then [DumpFileName(ts)] else [])
      && r.enabled == st.enabled && r.level == st.level
      && r.toggleFlag == st.toggleFlag && r.levelFlag == st.levelFlag
      && r.exitFlag == st.exitFlag && r.childSem == st.childSem
  {
  }

  /** What can happen next: a signal delivered, the worker taking its
      semaphore, or the main thread finishing one timed wait. */
  datatype Event =
    | SigInt
    | SigDump
    | SigToggle
    | SigChange
    | WorkerWakes(ts: string)
    | MainWait(ts: string, openOk: bool)

  /** One atomic step; the worker stays blocked while its semaphore is 0. */
  function Step(st: LogState, e: Event): LogState {
    match e
    case SigInt => OnExit(st)
    case SigDump => OnDump(st)
    case SigToggle => OnToggle(st)
    case SigChange => OnChange(st)
    case WorkerWakes(ts) => if st.childSem > 0 then Woken(st, ts) else st
    case MainWait(ts, openOk) => Waited(st, ts, openOk)
  }

  /** Every step keeps the globals within their values, and once the exit
      flag is raised it stays raised. */
  lemma StepInv(st: LogState, e: Event)
    requires Inv(st)
    ensures Inv(Step(st, e))
    ensures Step(st, e).exitFlag == (if e == SigInt then 1 else st.exitFlag)
    ensures st.dumps <= Step(st, e).dumps
  {
    match e {
      case WorkerWakes(ts) =>
        if st.childSem > 0 {
          WokenEffect(st, ts);
          LevelCycle(st.level);
        }
      case MainWait(ts, openOk) =>
        WaitedEffect(st, ts, openOk);
      case _ =>
    }
  }

  datatype RunResult = RunResult(state: LogState, consumed: nat)

  /** logger_run: steps are taken while the exit flag is clear. */
  function RunSpec(st: LogState, events: seq<Event>): RunResult
    decreases |events|
  {
    if st.exitFlag != 0 || |events| == 0 then RunResult(st, 0)
    else
      var r := RunSpec(Step(st, events[0]), events[1..]);
      RunResult(r.state, r.consumed + 1)
  }

  function Posts(events: seq<Event>): nat
    decreases |events|
  {
    if |events| == 0 then 0 else (if events[0] == SigDump then 1 else 0) + Posts(events[1..])
  }

  predicate AllOpen(events: seq<Event>) {
    forall k :: 0 <= k < |events| && events[k].MainWait? ==> events[k].openOk
  }

  /** The loop runs until SIGINT: it stops right after the first SIGINT,
      or reads every event when there is none. */
  lemma {:induction false} RunStops(st: LogState, events: seq<Event>)
    requires Inv(st) && st.exitFlag == 0
    ensures var r := RunSpec(st, events);
      && r.consumed <= |events|
      && (forall k :: 0 <= k < r.consumed - 1 ==> events[k] != SigInt)
      && (r.state.exitFlag == 1 <==> r.consumed > 0 && events[r.consumed - 1] == SigInt)
      && (r.state.exitFlag == 0 ==> r.consumed == |events|)
    decreases |events|
  {
    if |events| > 0 {
      var e := events[0];
      var next := Step(st, e);
      StepInv(st, e);
      if e != SigInt {
        var tail := events[1..];
        RunStops(next, tail);
        var r := RunSpec(next, tail);
        assert forall k :: 0 <= k < |tail| ==> tail[k] == events[k + 1];
      }
    }
  }

  /** The globals keep their values throughout the loop, and dump files
      are only ever added. */
  lemma {:induction false} RunInv(st: LogState, events: seq<Event>)
    requires Inv(st)
    ensures Inv(RunSpec(st, events).state)
    ensures st.dumps <= RunSpec(st, events).state.dumps
    decreases |events|
  {
    if st.exitFlag == 0 && |events| > 0 {
      StepInv(st, events[0]);
      RunInv(Step(st, events[0]), events[1..]);
    }
  }

  /** The dump accounting of one step: pending requests plus dump files
      grow by one on SIGRTMIN, and are otherwise kept, except that a served
      request whose file cannot be created is lost. */
  lemma StepDumps(st: LogState, e: Event)
    ensures var r := Step(st, e);
      && |r.dumps| - |st.dumps| + r.dumpSem <= st.dumpSem + (if e == SigDump then 1 else 0)
      && (!(e.MainWait? && !e.openOk) ==>
            |r.dumps| - |st.dumps| + r.dumpSem == st.dumpSem + (if e == SigDump then 1 else 0))
  {
    if e.MainWait? {
      WaitedEffect(st, e.ts, e.openOk);
    } else if e.WorkerWakes? && st.childSem > 0 {
      WokenEffect(st, e.ts);
    }
  }

  /** Each successful wait of the loop writes one dump: every SIGRTMIN
      taken is either still pending or answered by one dump file, and a
      request is lost only when its file cannot be created. */
  lemma {:induction false} RunDumps(st: LogState, events: seq<Event>)
    ensures var r := RunSpec(st, events);
      && r.consumed <= |events|
      && |r.state.dumps| - |st.dumps| + r.state.dumpSem <= st.dumpSem + Posts(events[..r.consumed])
      && (AllOpen(events) ==>
            |r.state.dumps| - |st.dumps| + r.state.dumpSem == st.dumpSem + Posts(events[..r.consumed]))
    decreases |events|
  {
    if st.exitFlag != 0 || |events| == 0 {
      assert events[..0] == [];
    } else {
      var e := events[0];
      var next := Step(st, e);
      StepDumps(st, e);
      RunDumps(next, events[1..]);
      var r := RunSpec(next, events[1..]);
      var taken := events[..r.consumed + 1];
      assert taken[0] == e && taken[1..] == events[1..][..r.consumed];
      assert Posts(taken) == (if e == SigDump then 1 else 0) + Posts(events[1..][..r.consumed]);
      if AllOpen(events) {
        forall k | 0 <= k < |events[1..]| && events[1..][k].MainWait?
          ensures events[1..][k].openOk
        {
          assert events[1..][k] == events[k + 1];
        }
      }
    }
  }

  /** After logger_cleanup closes the file nothing more is logged. */
  function Closed(st: LogState): LogState {
    st.(fileOpen := false)
  }

  lemma ClosedIsSilent(st: LogState, ts: string, note: Note)
    ensures Logged(Closed(st), ts, note) == Closed(st)
    ensures Closed(st).log == st.log
  {
  }

  /** logger_init: both semaphores start at 0; the log file is opened in
      append mode once the setup calls succeeded. */
  function Started(st: LogState, setupOk: bool, openOk: bool): LogState {
    st.(dumpSem := 0, childSem := 0, fileOpen := setupOk && openOk)
  }

  // ---------------------------------------------------------------------
  // The logger as a stateful object
  // ---------------------------------------------------------------------

  class Logger {
    var enabled: int
    var level: int
    var toggleFlag: int
    var levelFlag: int
    var exitFlag: int
    var dumpSem: nat
    var childSem: nat
    var fileOpen: bool
    var log: seq<Entry>
    var dumps: seq<string>

    function State(): LogState
      reads this
    {
      LogState(enabled, level, toggleFlag, levelFlag, exitFlag, dumpSem, childSem, fileOpen, log, dumps)
    }

    constructor ()
      ensures State() == Initial && Inv(State())
    {
      enabled, level, toggleFlag, levelFlag, exitFlag := 1, 1, 0, 0, 0;
      dumpSem, childSem := 0, 0;
      fileOpen, log, dumps := false, [], [];
    }

    /** logger_init; rc is 0 exactly when the log file is open. */
    method Init(setupOk: bool, openOk: bool) returns (rc: int)
      modifies this
      ensures State() == Started(old(State()), setupOk, openOk)
      ensures rc == 0 <==> fileOpen
      ensures rc == 0 || rc == -1
    {
      dumpSem, childSem := 0, 0;
      if !setupOk {
        fileOpen := false;
        return -1;
      }
      fileOpen := openOk;
      rc := if openOk then 0 else -1;
    }

    /** logger_cleanup: close the log file. */
    method Cleanup()
      modifies this
      ensures State() == Closed(old(State()))
    {
      fileOpen := false;
    }

    method LoggerLog(ts: string, note: Note)
      modifies this
      ensures State() == Logged(old(State()), ts, note)
    {
      if fileOpen && enabled != 0 {
        log := log + [Entry(ts, level, note)];
      }
    }

    method HandlerExit()
      modifies this
      ensures State() == OnExit(old(State()))
    {
      exitFlag := 1;
    }

    method HandlerDump()
      modifies this
      ensures State() == OnDump(old(State()))
    {
      dumpSem := dumpSem + 1;
    }

    method HandlerToggle()
      modifies this
      ensures State() == OnToggle(old(State()))
    {
      toggleFlag := 1;
      childSem := childSem + 1;
    }

    method HandlerChange()
      modifies this
      ensures State() == OnChange(old(State()))
    {
      levelFlag := 1;
      childSem := childSem + 1;
    }

    /** One pass of child_thread_func's loop, once sem_wait returns. */
    method WorkerWake(ts: string)
      requires childSem > 0
      modifies this
      ensures State() == Woken(old(State()), ts)
    {
      childSem := childSem - 1;
      ServeToggle(ts);
      ServeLevel(ts);
    }

    /** The worker's toggle request: negate the switch, log, clear the flag. */
    method ServeToggle(ts: string)
      modifies this
      ensures State() == ToggleHandled(old(State()), ts)
    {
      if toggleFlag == 1 {
        var e := enabled;
        e := if e == 0 then 1 else 0;
        enabled := e;
        LoggerLog(ts, Toggled(e));
        toggleFlag := 0;
      }
    }

    /** The worker's level request: advance the level, log, clear the flag. */
    method ServeLevel(ts: string)
      modifies this
      ensures State() == LevelHandled(old(State()), ts)
    {
      if levelFlag == 1 {
        var l := level;
        if l < 2 {
          l := l + 1;
        } else {
          l := 0;
        }
        level := l;
        LoggerLog(ts, LevelChanged(l));
        levelFlag := 0;
      }
    }

    method Dumpy(ts: string, openOk: bool)
      modifies this
      ensures State() == Dumped(old(State()), ts, openOk)
    {
      var name := DumpFileName(ts);
      if openOk {
        dumps := dumps + [name];
        LoggerLog(ts, DumpWritten(name));
      }
    }

    /** logger_run, with the signals and worker wakes that interleave with
      its waits; returns how many events were taken before the loop saw
      the exit flag. */
    method Run(events: seq<Event>) returns (consumed: nat)
      modifies this
      ensures RunResult(State(), consumed) == RunSpec(old(State()), events)
    {
      ghost var s0 := State();
      consumed := 0;
      while exitFlag == 0 && consumed < |events|
        invariant consumed <= |events|
        invariant RunSpec(s0, events) == Shifted(consumed, RunSpec(State(), events[consumed..]))
        decreases |events| - consumed
      {
        ghost var before := State();
        assert events[consumed..][1..] == events[consumed + 1..];
        match events[consumed] {
          case SigInt => HandlerExit();
          case SigDump => HandlerDump();
          case SigToggle => HandlerToggle();
          case SigChange => HandlerChange();
          case WorkerWakes(ts) =>
            if childSem > 0 {
              WorkerWake(ts);
            }
          case MainWait(ts, openOk) =>
            if dumpSem > 0 {
              dumpSem := dumpSem - 1;
              LoggerLog(ts, DumpSignalled);
              Dumpy(ts, openOk);
            }
        }
        assert State() == Step(before, events[consumed]);
        consumed := consumed + 1;
      }
      if consumed == |events| {
        assert events[consumed..] == [];
      }
    }
  }

  /** A run that first took `n` events. */
  function Shifted(n: nat, r: RunResult): RunResult {
    RunResult(r.state, n + r.consumed)
  }
}
