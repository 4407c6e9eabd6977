/** Text flow through the current version over any interleaving of calls:
    registrations, `LOGFILEX` statements, flusher passes, `Start` and `Stop`.
    Each event is one atomic step; a `Tick` is one pass of the running thread. */
module Flow {
  import opened Levels
  import opened Sinks
  import opened Logtools
  import opened Sessions

  datatype Event =
    | RegisterLog(req: Request)
    | Log(index: int, level: Level, now: string, body: string)
    | Tick
    | StartFlusher
    | StopFlusher

  function Step(m: Manager, maxLevel: Level, e: Event): Manager
  {
    match e
    case RegisterLog(req) => Register(m, req).0
    case Log(index, level, now, body) => LogFileX(m, maxLevel, index, level, now, body)
    case Tick => if m.running then m.(logs := DrainAll(m.logs)) else m
    case StartFlusher => Start(m).0
    case StopFlusher => Stop(m).0
  }

  function Run(m: Manager, maxLevel: Level, evs: seq<Event>): Manager
    decreases |evs|
  {
    if evs == [] then m else Run(Step(m, maxLevel, evs[0]), maxLevel, evs[1..])
  }

  /** The session text one event merges into log `i`: a header and a body
      when it is a `LOGFILEX` on `i` that passes its gate, nothing otherwise. */
  function Merged(m: Manager, maxLevel: Level, e: Event, i: int): string
  {
    if e.Log? && e.index == i && Gate(m, maxLevel, i, e.level) then Header(e.now, e.level) + e.body else ""
  }

  /** The session texts a run merges into log `i`, in order. */
  function MergedAll(m: Manager, maxLevel: Level, evs: seq<Event>, i: int): string
    decreases |evs|
  {
    if evs == [] then "" else Merged(m, maxLevel, evs[0], i) + MergedAll(Step(m, maxLevel, evs[0]), maxLevel, evs[1..], i)
  }

  /** One step keeps every log (file, flags) and adds to its text exactly the
      session text merged into it. */
  lemma StepMergesWholeSessions(m: Manager, maxLevel: Level, e: Event, i: int)
    requires 0 <= i < |m.logs|
    ensures |Step(m, maxLevel, e).logs| >= |m.logs|
    ensures Step(m, maxLevel, e).logs[i].output.fileName == m.logs[i].output.fileName
    ensures EntryText(Step(m, maxLevel, e).logs[i]) == EntryText(m.logs[i]) + Merged(m, maxLevel, e, i)
  {
    match e
    case RegisterLog(req) =>
    case Log(index, level, now, body) =>
    case Tick =>
    case StartFlusher =>
    case StopFlusher =>
  }

  /** Over any run, the text on its way to a log's file (what the file holds
      plus what is buffered) grows by exactly the whole session texts merged
      into that log, in order: flusher passes, pauses and registrations move
      text but never lose, duplicate or split it. */
  lemma {:induction false} RunMergesWholeSessions(m: Manager, maxLevel: Level, evs: seq<Event>, i: int)
    requires 0 <= i < |m.logs|
    ensures |Run(m, maxLevel, evs).logs| >= |m.logs|
    ensures Run(m, maxLevel, evs).logs[i].output.fileName == m.logs[i].output.fileName
    ensures EntryText(Run(m, maxLevel, evs).logs[i]) == EntryText(m.logs[i]) + MergedAll(m, maxLevel, evs, i)
    decreases |evs|
  {
    if evs != [] {
      var next := Step(m, maxLevel, evs[0]);
      var rest := evs[1..];
      assert Run(m, maxLevel, evs) == Run(next, maxLevel, rest);
      assert MergedAll(m, maxLevel, evs, i) == Merged(m, maxLevel, evs[0], i) + MergedAll(next, maxLevel, rest, i);
      StepMergesWholeSessions(m, maxLevel, evs[0], i);
      RunMergesWholeSessions(next, maxLevel, rest, i);
      AppendAssoc(EntryText(m.logs[i]), Merged(m, maxLevel, evs[0], i), MergedAll(next, maxLevel, rest, i));
    }
  }

  /** `Stop` of a running flusher leaves every buffer empty and every file
      holding all the text merged into its log. */
  lemma StopDeliversEverything(m: Manager, i: int)
    requires m.running && 0 <= i < |m.logs|
    ensures Stop(m).0.logs[i].buffer == ""
    ensures Stop(m).0.logs[i].output.content == EntryText(m.logs[i])
  {
  }

  /** No data loss: starting from logs with nothing buffered, a run that ends
      with a `Stop` of a running flusher leaves in each file what it held
      before followed by every session text merged into it. */
  lemma RunThenStopLosesNothing(m: Manager, maxLevel: Level, evs: seq<Event>, i: int)
    requires 0 <= i < |m.logs| && m.logs[i].buffer == "" && m.logs[i].output.open
    requires Run(m, maxLevel, evs).running
    ensures i < |Run(m, maxLevel, evs).logs|
    ensures Stop(Run(m, maxLevel, evs)).0.logs[i].output.content
         == m.logs[i].output.content + MergedAll(m, maxLevel, evs, i)
  {
    var end := Run(m, maxLevel, evs);
    RunMergesWholeSessions(m, maxLevel, evs, i);
    StopDeliversEverything(end, i);
    assert EntryText(m.logs[i]) == m.logs[i].output.content by {
      StreamIdempotent(m.logs[i].output);
    }
  }
}
