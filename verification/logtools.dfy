/** The registry and the flusher of the current version (`FileLog_Mgr` in
    src/logtools.h and src/logtools.cpp).

    The registry is the vector of owner `FileLog`s; the flusher is the
    `WtL_Thread` running `WriteToLogs`. Its passes are explicit steps here
    (`DrainAll`), and `running` stands for `ThreadRunning`, which always agrees
    with the thread being joinable. */
module Logtools {
  import opened Levels
  import opened Sinks

  /** An owner `FileLog`: its output file, its `automate_mutex` flag and the
      text its `ostringstream` has accumulated since the last drain. */
  datatype Entry = Entry(output: FileStream, threadSafe: bool, buffer: string)

  /** The manager's static state. `reportingLevel` is the one function-local
      static behind every log's `ReportingLevel()`: there is no per-log
      threshold. */
  datatype Manager = Manager(logs: seq<Entry>, reportingLevel: Level, running: bool)

  /** The arguments of `RegisterNewLog`, plus what the file already holds on
      disk (the part of the file system the append flag decides about). */
  datatype Request = Request(fileName: string, threadSafe: bool, append: bool, reportLevel: Level, onDisk: string)

  /** What `RegisterNewLog` returns for a file name already registered. */
  const DuplicateIndex: int := -2

  /** No logs, the reporting level at its initial DEBUG4, no flusher thread. */
  const Initial: Manager := Manager([], DEBUG4, false)

  /** What an entry's file holds once its buffer has been drained. */
  function EntryText(e: Entry): string
  {
    Eventual(e.output, e.buffer)
  }

  /** `after` is the same log as `before`: same file, same flags, and the
      same text on its way to the file. */
  predicate Retains(after: Entry, before: Entry)
  {
    && after.output.fileName == before.output.fileName
    && after.output.append == before.output.append
    && after.threadSafe == before.threadSafe
    && EntryText(after) == EntryText(before)
  }

  predicate HasFileName(logs: seq<Entry>, name: string)
  {
    exists k :: 0 <= k < |logs| && logs[k].output.fileName == name
  }

  /** `CheckIndex`: the index names a registered log. */
  predicate CheckIndex(m: Manager, index: int)
  {
    0 <= index < |m.logs|
  }

  /** `macroCheck`: false for an index outside the registry, whatever the
      level; for a valid index, true iff the level is not above the shared
      level, which on named levels means not later in declaration order. */
  predicate MacroCheck(m: Manager, index: int, level: Level)
    ensures !CheckIndex(m, index) ==> !MacroCheck(m, index, level)
    ensures forall s, t :: level == Bit(s) && m.reportingLevel == Bit(t) ==>
      (MacroCheck(m, index, level) <==> CheckIndex(m, index) && Rank(s) <= Rank(t))
  {
    if CheckIndex(m, index) then !(level > m.reportingLevel) else false
  }

  /** The owner `FileLog` a registration creates: the given name and flags,
      an empty buffer, and a closed file whose text to come is what the file
      holds on disk in append mode and nothing otherwise. */
  function NewLog(req: Request): (e: Entry)
    ensures e.output.fileName == req.fileName && e.output.append == req.append
    ensures e.threadSafe == req.threadSafe && !e.output.open && e.buffer == ""
    ensures EntryText(e) == (if req.append then req.onDisk else "")
  {
    Entry(FileStream(req.fileName, req.append, false, req.onDisk), req.threadSafe, "")
  }

  /** One entry's turn in a flusher pass: `Stream() << str()`, then `str("")`.
      Nothing is lost or duplicated, and the file is open afterwards. */
  function DrainEntry(e: Entry): (r: Entry)
    ensures r.buffer == "" && r.output.open
    ensures r.output.content == EntryText(e)
    ensures Retains(r, e)
  {
    e.(output := Write(e.output, e.buffer), buffer := "")
  }

  /** One flusher pass over the registry, in index order. */
  function DrainAll(logs: seq<Entry>): (r: seq<Entry>)
    ensures |r| == |logs|
    ensures forall k :: 0 <= k < |logs| ==> r[k] == DrainEntry(logs[k])
  {
    if logs == [] then [] else [DrainEntry(logs[0])] + DrainAll(logs[1..])
  }

  /** The body of one `for` loop in `WriteToLogs`, as the thread runs it. */
  method WriteToLogsPass(logs: seq<Entry>) returns (drained: seq<Entry>)
    ensures drained == DrainAll(logs)
  {
    drained := logs;
    var i := 0;
    while i < |drained|
      invariant 0 <= i <= |logs| == |drained|
      invariant forall k :: 0 <= k < i ==> drained[k] == DrainEntry(logs[k])
      invariant forall k :: i <= k < |logs| ==> drained[k] == logs[k]
    {
      drained := drained[i := DrainEntry(drained[i])];
      i := i + 1;
    }
  }

  /** A pass right after a pass finds every buffer empty and changes nothing. */
  lemma DrainAllIdempotent(logs: seq<Entry>)
    ensures DrainAll(DrainAll(logs)) == DrainAll(logs)
  {
    var once := DrainAll(logs);
    forall k | 0 <= k < |once|
      ensures DrainEntry(once[k]) == once[k]
    {
      StreamIdempotent(once[k].output);
    }
  }

  /** `Start`: refuses when the thread is already there; otherwise starts it. */
  function Start(m: Manager): (r: (Manager, bool))
    ensures r.1 <==> !m.running
    ensures r.0.running
    ensures r.0.logs == m.logs && r.0.reportingLevel == m.reportingLevel
  {
    if m.running then (m, false) else (m.(running := true), true)
  }

  /** `Stop`: refuses when there is no thread; otherwise the thread leaves its
      loop, makes exactly one more pass, and is joined. */
  function Stop(m: Manager): (r: (Manager, bool))
    ensures r.1 <==> m.running
    ensures !r.0.running && r.0.reportingLevel == m.reportingLevel
    ensures !m.running ==> r.0 == m
    ensures m.running ==> r.0.logs == DrainAll(m.logs)
  {
    if m.running then (Manager(DrainAll(m.logs), m.reportingLevel, false), true)
    else (m, false)
  }

  /** `RegisterNewLog`: pause the flusher, reject a known file name, append the
      new log, overwrite the shared reporting level, restart the flusher. The
      duplicate path returns before the restart. */
  function Register(m: Manager, req: Request): (r: (Manager, int))
    ensures |r.0.logs| >= |m.logs|
    ensures forall k :: 0 <= k < |m.logs| ==> Retains(r.0.logs[k], m.logs[k])
    ensures m.running ==> forall k :: 0 <= k < |m.logs| ==> r.0.logs[k].buffer == ""
    ensures !m.running ==> r.0.logs[..|m.logs|] == m.logs
    ensures r.1 == DuplicateIndex <==> HasFileName(m.logs, req.fileName)
    ensures r.1 == DuplicateIndex ==>
      |r.0.logs| == |m.logs| && r.0.reportingLevel == m.reportingLevel && !r.0.running
    ensures r.1 != DuplicateIndex ==>
      && r.1 == |m.logs|
      && |r.0.logs| == |m.logs| + 1
      && r.0.logs[r.1] == NewLog(req)
      && r.0.reportingLevel == req.reportLevel
      && r.0.running == m.running
  {
    var paused := if m.running then Stop(m).0 else m;
    assert forall k :: 0 <= k < |m.logs| ==> paused.logs[k].output.fileName == m.logs[k].output.fileName;
    if HasFileName(paused.logs, req.fileName) then
      (paused, DuplicateIndex)
    else
      var grown := paused.(logs := paused.logs + [NewLog(req)], reportingLevel := req.reportLevel);
      var restarted := if m.running then Start(grown).0 else grown;
      (restarted, |paused.logs|)
  }

  /** `RegisterNewLog` with its duplicate scan written as the source's loop. */
  method RegisterNewLog(m: Manager, req: Request) returns (after: Manager, index: int)
    ensures (after, index) == Register(m, req)
  {
    var paused := m;
    if m.running {
      paused := Stop(m).0;
    }
    var i := 0;
    while i < |paused.logs|
      invariant 0 <= i <= |paused.logs|
      invariant forall k :: 0 <= k < i ==> paused.logs[k].output.fileName != req.fileName
    {
      if paused.logs[i].output.fileName == req.fileName {
        return paused, DuplicateIndex;
      }
      i := i + 1;
    }
    after := paused.(logs := paused.logs + [NewLog(req)], reportingLevel := req.reportLevel);
    if m.running {
      after := Start(after).0;
    }
    index := |paused.logs|;
  }

  /** Registers the requests one after another, collecting the returned indices. */
  function RegisterAll(m: Manager, reqs: seq<Request>): (Manager, seq<int>)
    decreases |reqs|
  {
    if reqs == [] then (m, [])
    else
      var (next, index) := Register(m, reqs[0]);
      var (last, rest) := RegisterAll(next, reqs[1..]);
      (last, [index] + rest)
  }

  predicate FreshNames(m: Manager, reqs: seq<Request>)
  {
    && (forall j :: 0 <= j < |reqs| ==> !HasFileName(m.logs, reqs[j].fileName))
    && (forall i, j :: 0 <= i < j < |reqs| ==> reqs[i].fileName != reqs[j].fileName)
  }

  /** Registering distinct new file names hands out consecutive indices, the
      first one being the registry's size: 0, 1, 2, ... from `Initial`. */
  lemma {:induction false} RegisterAllConsecutive(m: Manager, reqs: seq<Request>)
    requires FreshNames(m, reqs)
    ensures |RegisterAll(m, reqs).1| == |reqs|
    ensures |RegisterAll(m, reqs).0.logs| == |m.logs| + |reqs|
    ensures forall j :: 0 <= j < |reqs| ==> RegisterAll(m, reqs).1[j] == |m.logs| + j
    decreases |reqs|
  {
    if reqs != [] {
      var (next, index) := Register(m, reqs[0]);
      forall j | 0 <= j < |reqs| - 1
        ensures !HasFileName(next.logs, reqs[1..][j].fileName)
      {
        var name := reqs[j + 1].fileName;
        forall k | 0 <= k < |next.logs|
          ensures next.logs[k].output.fileName != name
        {
          if k < |m.logs| {
            assert Retains(next.logs[k], m.logs[k]);
          } else {
            assert next.logs[k] == NewLog(reqs[0]);
          }
        }
      }
      RegisterAllConsecutive(next, reqs[1..]);
    }
  }

  /** The indices a registration makes valid are exactly the old ones plus
      the index it returned; a duplicate makes none valid. */
  lemma RegisterExtendsCheckIndex(m: Manager, req: Request, j: int)
    ensures var (after, index) := Register(m, req);
      CheckIndex(after, j) <==> CheckIndex(m, j) || (index != DuplicateIndex && j == index)
  {
  }

  /** The threshold is not per log: after a registration succeeds, every log,
      including the ones registered before, is gated by the level just given. */
  lemma RegisterOverwritesSharedLevel(m: Manager, req: Request, k: int, level: Level)
    requires !HasFileName(m.logs, req.fileName)
    requires 0 <= k <= |m.logs|
    ensures MacroCheck(Register(m, req).0, k, level) <==> level <= req.reportLevel
  {
  }

  /** `macroCheck` fails at every level for an index outside the registry, and
      on the named levels it admits exactly those not more verbose (by
      declaration order) than the shared level. */
  lemma MacroCheckMeaning(m: Manager, index: int, s: Severity, t: Severity)
    requires m.reportingLevel == Bit(t)
    ensures !CheckIndex(m, index) ==> forall l :: !MacroCheck(m, index, l)
    ensures MacroCheck(m, index, Bit(s)) <==> CheckIndex(m, index) && Rank(s) <= Rank(t)
  {
    NumericOrderIsDeclarationOrder(s, t);
  }

  /** `CloseLogs`, its drain-then-close part: stop the flusher, then open and
      close every file. What a pass did not drain never reaches the file. */
  function CloseLogs(m: Manager): (files: seq<FileStream>)
    ensures |files| == |m.logs|
    ensures forall k :: 0 <= k < |m.logs| ==> !files[k].open && files[k].fileName == m.logs[k].output.fileName
    ensures forall k :: 0 <= k < |m.logs| ==> files[k].append == m.logs[k].output.append
    ensures m.running ==> forall k :: 0 <= k < |m.logs| ==> files[k].content == EntryText(m.logs[k])
    ensures !m.running ==> forall k :: 0 <= k < |m.logs| ==> files[k].content == Stream(m.logs[k].output).content
  {
    var stopped := Stop(m).0;
    seq(|stopped.logs|, k requires 0 <= k < |stopped.logs| => Close(Stream(stopped.logs[k].output)))
  }
}
