/** The legacy version of the same logger (src/debug_toolset.h): no
    sessions, no duplicate check, no append mode, a `macroCheck` that opens
    the file, and a default mask that leaves WARNING and DEBUG4 out. */
module DebugToolset {
  import opened Optional
  import opened Levels
  import opened Sinks

  /** A `FileLog` of this version: its output and its shared buffer. */
  datatype Log = Log(output: FileStream, buffer: string)

  /** `FileLog_Mgr`'s static state: the vector of logs and `ThreadRunning`. */
  datatype Manager = Manager(logs: seq<Log>, running: bool)

  /** The static behind `ReportingLevel()`: nothing in this version assigns it. */
  const ReportingLevel: Level := DEBUG4

  /** The default `LOG_MAX_LEVEL` of this version: WARNING and DEBUG4 are absent. */
  const MaxLevel: Level := FATAL + ERROR + INFO + DEBUG1 + DEBUG2 + DEBUG3

  /** A slot of the `LOGFILE1`..`LOGFILE5` macros. */
  type Slot = n: int | 1 <= n <= 5 witness 1

  function LogText(e: Log): string
  {
    Eventual(e.output, e.buffer)
  }

  /** `Logger::ToString` of this version: the switch has no `default:` and no
      return after it, so a value that is not a level has no label (None). */
  function ToString(l: Level): (r: Option<string>)
    ensures r.Some? <==> IsLevel(l)
    ensures forall s :: Bit(s) == l ==> r == Some(Label(s))
    ensures r.Some? ==> r.value == Levels.ToString(l)
  {
    if l == FATAL then Some(Label(Fatal))
    else if l == ERROR then Some(Label(Error))
    else if l == WARNING then Some(Label(Warning))
    else if l == INFO then Some(Label(Info))
    else if l == DEBUG1 then Some(Label(Debug1))
    else if l == DEBUG2 then Some(Label(Debug2))
    else if l == DEBUG3 then Some(Label(Debug3))
    else if l == DEBUG4 then Some(Label(Debug4))
    else None
  }

  /** `Logger::Get` through `FileLog_Mgr::Get`: the line header goes straight
      into the log's shared buffer (the vector is indexed unchecked, so the
      index must be valid). A value with no label reaches undefined behaviour. */
  function Get(m: Manager, index: int, level: Level, now: string): (r: Option<Manager>)
    requires 0 <= index < |m.logs|
    ensures r.Some? <==> IsLevel(level)
    ensures r.Some? ==>
      && r.value.running == m.running
      && r.value.logs == m.logs[index := m.logs[index].(buffer := m.logs[index].buffer + LineHeader(now, Levels.ToString(level)))]
  {
    match ToString(level)
    case None => None
    case Some(name) =>
      var e := m.logs[index];
      Some(m.(logs := m.logs[index := e.(buffer := e.buffer + LineHeader(now, name))]))
  }

  /** A log as `Logger(const Logger&)` copies it: that constructor copies only
      the output, and the output's copy constructor only the file name. The
      buffer is not copied, and the copy's stream is closed; the original's
      destructor closes the old stream, so the file keeps what was written. */
  function CopyLog(e: Log): (c: Log)
    ensures c.buffer == "" && !c.output.open
    ensures c.output.fileName == e.output.fileName && c.output.content == e.output.content
    ensures c.output.append == e.output.append
  {
    Log(e.output.(open := false), "")
  }

  /** `RegisterNewLog`: unless the flusher runs (then nothing happens),
      `push_back` a copy of a new log for the file (opened in truncate mode
      later). There is no duplicate check and no index is returned. When the
      vector's capacity is exhausted (`reallocates`, decided by the standard
      library; with the usual capacity growth already on the second
      registration) every existing log is moved by copying it, which keeps
      only its file name. */
  function RegisterNewLog(m: Manager, fileName: string, onDisk: string, reallocates: bool): (r: Manager)
    ensures m.running ==> r == m
    ensures !m.running ==>
      && !r.running && |r.logs| == |m.logs| + 1
      && r.logs[|m.logs|] == Log(FileStream(fileName, false, false, onDisk), "")
    ensures !m.running && !reallocates ==> r.logs[..|m.logs|] == m.logs
    ensures !m.running && reallocates ==> forall k :: 0 <= k < |m.logs| ==> r.logs[k] == CopyLog(m.logs[k])
  {
    if m.running then m
    else
      var kept := if reallocates then seq(|m.logs|, k requires 0 <= k < |m.logs| => CopyLog(m.logs[k])) else m.logs;
      m.(logs := kept + [Log(FileStream(fileName, false, false, onDisk), "")])
  }

  /** Two registrations of one file name while stopped give two logs on it. */
  lemma RegisterAcceptsDuplicates(m: Manager, fileName: string, onDisk: string, grow1: bool, grow2: bool)
    requires !m.running
    ensures var twice := RegisterNewLog(RegisterNewLog(m, fileName, onDisk, grow1), fileName, onDisk, grow2);
      |twice.logs| == |m.logs| + 2
      && twice.logs[|m.logs|].output.fileName == twice.logs[|m.logs| + 1].output.fileName == fileName
  {
  }

  /** A reallocating registration loses every existing log's text: the
      buffer is gone, and the file, being closed, is truncated when it is next
      opened, which erases what earlier passes had written to it. */
  lemma ReallocationLosesText(m: Manager, fileName: string, onDisk: string, i: int)
    requires !m.running && 0 <= i < |m.logs| && !m.logs[i].output.append
    ensures LogText(RegisterNewLog(m, fileName, onDisk, true).logs[i]) == ""
  {
  }

  predicate CheckIndex(m: Manager, index: int)
  {
    0 <= index < |m.logs|
  }

  /** `macroCheck`: a valid index and a level not above DEBUG4; when both
      hold it also opens the log's file, which truncates a closed file. The
      returned manager carries that side effect. */
  function MacroCheck(m: Manager, index: int, level: Level): (r: (bool, Manager))
    ensures r.0 <==> CheckIndex(m, index) && level <= ReportingLevel
    ensures !r.0 ==> r.1 == m
    ensures r.0 ==>
      && r.1.running == m.running && |r.1.logs| == |m.logs|
      && r.1.logs[index] == m.logs[index].(output := Stream(m.logs[index].output))
      && LogText(r.1.logs[index]) == LogText(m.logs[index])
      && forall k :: 0 <= k < |m.logs| && k != index ==> r.1.logs[k] == m.logs[k]
  {
    if 0 <= index < |m.logs| then
      if level > ReportingLevel then (false, m)
      else
        var e := m.logs[index];
        (true, m.(logs := m.logs[index := e.(output := Stream(e.output))]))
    else (false, m)
  }

  /** `LOGFILEn(level) << body;`: the mask test, then `macroCheck` (with its
      side effect), then the header and the body go into log `n - 1`'s buffer.
      None when the level has no label (undefined behaviour in the source). */
  function LogFileN(m: Manager, n: Slot, level: Level, now: string, body: string): (r: Option<Manager>)
    ensures (level & !MaxLevel) != 0 ==> r == Some(m)
    ensures !MacroCheck(m, n - 1, level).0 ==> r == Some(m)
    ensures (level & !MaxLevel) == 0 && MacroCheck(m, n - 1, level).0 ==>
      && (r.Some? <==> IsLevel(level))
      && (r.Some? ==>
        && r.value.running == m.running && |r.value.logs| == |m.logs|
        && r.value.logs[n - 1] == Log(Stream(m.logs[n - 1].output), m.logs[n - 1].buffer + LineHeader(now, Levels.ToString(level)) + body)
        && forall k :: 0 <= k < |m.logs| && k != n - 1 ==> r.value.logs[k] == m.logs[k])
  {
    if (level & !MaxLevel) != 0 then Some(m)
    else
      var (ok, checked) := MacroCheck(m, n - 1, level);
      if !ok then Some(m)
      else
        match Get(checked, n - 1, level, now)
        case None => None
        case Some(headed) =>
          var e := headed.logs[n - 1];
          Some(headed.(logs := headed.logs[n - 1 := e.(buffer := e.buffer + body)]))
  }

  /** With the default mask, WARNING and DEBUG4 are never written, on any
      log, and the file is not even opened. */
  lemma DefaultMaskSuppressesWarningAndDebug4(m: Manager, n: Slot, now: string, body: string)
    ensures LogFileN(m, n, WARNING, now, body) == Some(m)
    ensures LogFileN(m, n, DEBUG4, now, body) == Some(m)
  {
  }

  /** One log of the pass: the buffer goes through the opened file and is
      cleared, so the file ends up holding the log's whole text. */
  function DrainLog(e: Log): (r: Log)
    ensures r.buffer == "" && r.output.open
    ensures r.output.fileName == e.output.fileName && r.output.append == e.output.append
    ensures r.output.content == LogText(e)
  {
    e.(output := Write(e.output, e.buffer), buffer := "")
  }

  /** One pass of `WriteToLogs`, in index order, without locking. */
  function DrainAll(logs: seq<Log>): (r: seq<Log>)
    ensures |r| == |logs|
    ensures forall k :: 0 <= k < |logs| ==>
      && r[k].buffer == "" && r[k].output.open
      && r[k].output.fileName == logs[k].output.fileName
      && r[k].output.append == logs[k].output.append
      && r[k].output.content == LogText(logs[k])
  {
    if logs == [] then [] else [DrainLog(logs[0])] + DrainAll(logs[1..])
  }

  /** `Start`: false when the thread is already there. */
  function Start(m: Manager): (r: (Manager, bool))
    ensures r.1 <==> !m.running
    ensures r.0 == m.(running := true)
  {
    if m.running then (m, false) else (m.(running := true), true)
  }

  /** `Stop`: false when there is no thread; otherwise one final pass runs
      before the thread is joined. */
  function Stop(m: Manager): (r: (Manager, bool))
    ensures r.1 <==> m.running
    ensures !r.0.running
    ensures !m.running ==> r.0 == m
    ensures m.running ==> r.0.logs == DrainAll(m.logs)
  {
    if m.running then (Manager(DrainAll(m.logs), false), true) else (m, false)
  }

  datatype Event =
    | RegisterLog(fileName: string, onDisk: string, reallocates: bool)
    | LogLine(slot: Slot, level: Severity, now: string, body: string)
    | Tick
    | StartFlusher
    | StopFlusher

  function Step(m: Manager, e: Event): Manager
  {
    match e
    case RegisterLog(fileName, onDisk, reallocates) => RegisterNewLog(m, fileName, onDisk, reallocates)
    case LogLine(n, s, now, body) =>
      var r := LogFileN(m, n, Bit(s), now, body);
      if r.Some? then r.value else m
    case Tick => if m.running then m.(logs := DrainAll(m.logs)) else m
    case StartFlusher => Start(m).0
    case StopFlusher => Stop(m).0
  }

  function Run(m: Manager, evs: seq<Event>): Manager
    decreases |evs|
  {
    if evs == [] then m else Run(Step(m, evs[0]), evs[1..])
  }

  /** What one event writes into log `i`: a header and body when it is a
      `LOGFILEn` on slot `i + 1` that passes the mask and `macroCheck`. */
  function Written(m: Manager, e: Event, i: int): string
  {
    if e.LogLine? && e.slot - 1 == i && (Bit(e.level) & !MaxLevel) == 0 && MacroCheck(m, i, Bit(e.level)).0
    then LineHeader(e.now, Levels.ToString(Bit(e.level))) + e.body else ""
  }

  function WrittenAll(m: Manager, evs: seq<Event>, i: int): string
    decreases |evs|
  {
    if evs == [] then "" else Written(m, evs[0], i) + WrittenAll(Step(m, evs[0]), evs[1..], i)
  }

  /** No registration in the run makes the vector reallocate. */
  predicate NoReallocation(evs: seq<Event>)
  {
    forall j :: 0 <= j < |evs| ==> !(evs[j].RegisterLog? && evs[j].reallocates)
  }

  /** Opening a log's file and adding to its buffer adds exactly that text. */
  lemma OpenedLineText(e: Log, line: string)
    ensures LogText(Log(Stream(e.output), e.buffer + line)) == LogText(e) + line
  {
    StreamIdempotent(e.output);
    AppendAssoc(Stream(e.output).content, e.buffer, line);
  }

  /** Every step other than a reallocating registration adds to a log's text
      exactly the line written to it (see `ReallocationLosesText` for that one). */
  lemma StepWritesWholeLines(m: Manager, e: Event, i: int)
    requires 0 <= i < |m.logs|
    requires !(e.RegisterLog? && e.reallocates)
    ensures |Step(m, e).logs| >= |m.logs|
    ensures Step(m, e).logs[i].output.fileName == m.logs[i].output.fileName
    ensures LogText(Step(m, e).logs[i]) == LogText(m.logs[i]) + Written(m, e, i)
  {
    match e
    case RegisterLog(fileName, onDisk, reallocates) =>
    case LogLine(n, s, now, body) =>
      if Written(m, e, i) != "" {
        OpenedLineText(m.logs[i], LineHeader(now, Levels.ToString(Bit(s))) + body);
        AppendAssoc(m.logs[i].buffer, LineHeader(now, Levels.ToString(Bit(s))), body);
      }
    case Tick =>
    case StartFlusher =>
    case StopFlusher =>
  }

  /** Over any run in which the vector does not reallocate, the text on its
      way to a log's file grows by exactly the header-and-body lines written
      to it, in order; macro checks (which open files) and flusher passes
      never lose or duplicate text. */
  lemma {:induction false} RunWritesWholeLines(m: Manager, evs: seq<Event>, i: int)
    requires 0 <= i < |m.logs|
    requires NoReallocation(evs)
    ensures |Run(m, evs).logs| >= |m.logs|
    ensures Run(m, evs).logs[i].output.fileName == m.logs[i].output.fileName
    ensures LogText(Run(m, evs).logs[i]) == LogText(m.logs[i]) + WrittenAll(m, evs, i)
    decreases |evs|
  {
    if evs != [] {
      var next := Step(m, evs[0]);
      var rest := evs[1..];
      assert NoReallocation(rest) by {
        forall j | 0 <= j < |rest|
          ensures !(rest[j].RegisterLog? && rest[j].reallocates)
        {
          assert rest[j] == evs[j + 1];
        }
      }
      assert Run(m, evs) == Run(next, rest);
      assert WrittenAll(m, evs, i) == Written(m, evs[0], i) + WrittenAll(next, rest, i);
      StepWritesWholeLines(m, evs[0], i);
      RunWritesWholeLines(next, rest, i);
      AppendAssoc(LogText(m.logs[i]), Written(m, evs[0], i), WrittenAll(next, rest, i));
    }
  }
}
