# Debug-Logger: registry, sessions and flusher

A model of the bookkeeping at the heart of the Debug-Logger C++ library: the
`FileLog_Mgr` registry of log files, the per-statement write sessions that
`LOGFILEX` creates, and the background thread that drains every log's buffer
into its file. Both versions in the repository are modelled: the current one
(`src/logtools.h`, `src/logtools.cpp`) and the legacy header
(`src/debug_toolset.h`).

The model is a functional state machine:

- `levels.dfy` (`Levels`): the eight `LogLevel` bits, their labels and
  `ToString`. A level value is a `bv8`, which is the range of the enum.
- `sinks.dfy` (`Sinks`): an output file (`FileStream_Policy`) that opens
  lazily in append or truncate mode. `Eventual(file, buffer)` is what the file
  holds once the buffer has been written through it.
- `logtools.dfy` (`Logtools`): the registry (`Manager`: the logs, the one
  shared reporting level, the flusher's running flag) with `Register`,
  `CheckIndex`, `MacroCheck`, a drain pass (`DrainAll`, and `WriteToLogsPass`
  as the loop), `Start`, `Stop` and `CloseLogs`.
- `sessions.dfy` (`Sessions`): a session's header, construction (`Get`),
  streaming (`Put`) and destructor merge (`Release`), and the `LOGFILEX` gate.
- `flow.dfy` (`Flow`): any interleaving of registrations, `LOGFILEX`
  statements, flusher passes, `Start` and `Stop`. Over every such run the text
  on its way to a log's file (file content plus buffer) grows by exactly the
  whole session texts merged into that log, in order.
- `debug_toolset.dfy` (`DebugToolset`): the legacy version, with the same
  text-flow property for its direct writes into the shared buffer, for runs
  without a reallocating registration.

The flusher thread is an explicit step. A `Tick` is one pass of the running
thread. `Stop` performs the one final pass that `WriteToLogs` makes after its
loop. `running` stands for `ThreadRunning`; it always agrees with the thread
being joinable. The timestamp is a parameter `now`.

Quirks of the code that the model reproduces:

- The reporting threshold is not per log. `ReportingLevel()` returns one
  function-local static shared by every log. Each successful registration
  overwrites it, so every earlier log is gated by the newest registration's
  level (`Logtools.RegisterOverwritesSharedLevel`). Its initial value is DEBUG4.
- A duplicate file name is rejected with -2 after the flusher has already been
  stopped. The early return skips the restart, so the flusher stays stopped.
  It also leaves the registration mutex locked: a later registration from
  another thread blocks forever; from the same thread it is undefined
  behaviour.
- `CloseLogs` drains only through `Stop`. When the flusher is not running,
  text still in a buffer never reaches the file (`Logtools.CloseLogs`).
- The line header is `"\n -  " + time + " - \t" + label`. `std::endl` starts
  the line.
- `RegisterNewLog` does not reject an empty file name.
- The legacy `macroCheck` opens the file when it succeeds. The file has no
  append mode, so a check on a closed file truncates it.
- A legacy registration whose `push_back` reallocates the vector copies every
  existing log through copy constructors that keep only the file name. The
  buffered text is dropped, and the file is truncated when it is next opened,
  so the text already written to it is lost too
  (`DebugToolset.ReallocationLosesText`).

## Model

| member | source | states |
|---|---|---|
| `Levels.Bit` | src/logtools.h:26-32 | each of the eight levels is a single, nonzero bit of the byte |
| `Levels.FromBits` | src/logtools.h:26-32 | a raw value denotes a named level exactly when it equals that level's bit (a round trip with `Bit`) |
| `Levels.LevelsAreSingleBits` | src/logtools.h:24-32 | the named levels are exactly the one-bit values of a byte |
| `Levels.NumericOrderIsDeclarationOrder` | src/logtools.cpp:101 | comparing level bits numerically is comparing their declaration order, so FATAL is the least verbose |
| `Levels.ToString` | src/logtools.h:85-124 | each of the eight levels gets its fixed label; every other value gets the default label |
| `Levels.LabelDeterminesLevel` | src/logtools.h:85-124 | distinct levels print distinct labels, none equal to the default label |
| `Sinks.Stream` | src/logtools.h:155-169 | opening happens only when the file is closed: append mode keeps the content, otherwise it is truncated; an open stream is returned unchanged |
| `Sinks.StreamIdempotent` | src/logtools.h:157-167 | repeated `Stream()` calls while open change nothing |
| `Sinks.Write` | src/logtools.cpp:116 | written text lands after what the opened file holds, and the file stays open |
| `Sinks.WritePreservesEventual` | src/logtools.cpp:116-118 | writing a buffer through a file neither loses nor duplicates text |
| `Sinks.Close` | src/logtools.cpp:163 | closing keeps what was written, the name and the append flag, and leaves the file closed |
| `Logtools.CheckIndex` | src/logtools.cpp:91-96 | an index is valid iff 0 ≤ index < the registry's size |
| `Logtools.MacroCheck` | src/logtools.cpp:97-106 | false for an out-of-range index at every level; on named levels true iff the index is valid and the level ranks no later than the shared level |
| `Logtools.NewLog` | src/logtools.cpp:65-69 | a new log has the requested name and flags, an empty buffer and a closed file, whose text to come is the disk content in append mode and nothing otherwise |
| `Logtools.DrainEntry` | src/logtools.cpp:114-120 | one entry's drain empties its buffer into its opened file with no text lost; name and flags unchanged |
| `Logtools.DrainAll` | src/logtools.cpp:126-135 | a pass drains every entry, each exactly as `DrainEntry`, and keeps the registry's size |
| `Logtools.WriteToLogsPass` | src/logtools.cpp:112-121 | the thread's loop over the registry in index order computes exactly one pass |
| `Logtools.DrainAllIdempotent` | src/logtools.cpp:110-135 | a second pass with no writes in between changes nothing |
| `Logtools.Start` | src/logtools.cpp:137-146 | returns false and changes nothing when already running; otherwise starts the flusher and returns true |
| `Logtools.Stop` | src/logtools.cpp:147-156 | returns false and changes nothing when not running; otherwise one final pass, flusher stopped, true |
| `Logtools.Register` | src/logtools.cpp:48-80 | a known name returns -2, keeps every log and the level, and leaves the flusher stopped; a new name gets index = old size, a fresh entry with the given name and flags, the shared level set to `reportLevel`, and the flusher's prior state restored; earlier logs keep their text |
| `Logtools.RegisterNewLog` | src/logtools.cpp:59-63 | the source's duplicate-scan loop computes the same result as `Register` |
| `Logtools.RegisterAllConsecutive` | src/logtools.cpp:59-79 | registering distinct new names returns consecutive indices starting at the registry's size (0, 1, 2, … from empty) |
| `Logtools.RegisterExtendsCheckIndex` | src/logtools.cpp:91-96 | `CheckIndex` after a registration holds for exactly the old indices plus the returned one |
| `Logtools.RegisterOverwritesSharedLevel` | src/logtools.cpp:65-70 | after a successful registration every log, old and new, admits exactly the levels not above the new `reportLevel` |
| `Logtools.MacroCheckMeaning` | src/logtools.cpp:97-106 | `macroCheck` is false at every level for an out-of-range index, and on named levels holds iff the index is valid and the level ranks no higher than the threshold |
| `Logtools.CloseLogs` | src/logtools.cpp:157-166 | every file ends closed with its name and append flag; with a running flusher it holds all buffered text, without one the buffers are not written |
| `Sessions.Header` | src/logtools.h:125-129 | the header is a new line with the time and the level's fixed label, or the default label for a value naming no level |
| `Sessions.Put` | src/logtools.h:43 | streaming into a session appends to its private text only; owner and flag unchanged |
| `Sessions.HeaderNamesLevel` | src/logtools.h:125-129 | the header is newline, " -  ", the time, " - \t", the label; distinct levels give distinct headers |
| `Sessions.Get` | src/logtools.h:69-78 | a session shares the owner's thread-safety flag (and locks iff it is set) and starts its own text with the header |
| `Sessions.Release` | src/logtools.h:48-61 | the destructor appends the whole private text to the owner's buffer, leaving its file and flag as they were, and unlocks iff thread-safe; no other log changes |
| `Sessions.LogFileX` | src/logtools.h:232-234 | a statement passing the mask test and `macroCheck` adds header and body to that log's buffer, leaving its file and flag as they were; no other log changes; a failing statement changes nothing |
| `Sessions.DefaultMaskAdmitsEveryLevel` | src/logtools.h:4-6 | with the default `LOG_MAX_LEVEL` (all eight bits) the gate is `macroCheck` alone |
| `Sessions.ClearedBitSuppresses` | src/logtools.h:232-234 | a level whose bit the mask clears is never written |
| `Sessions.InfoThresholdScenario` | src/logtools.cpp:48-106 | with threshold INFO a DEBUG1 line is dropped, and an ERROR line reaches the file after a flusher start and stop |
| `Flow.StepMergesWholeSessions` | src/logtools.h:48-78 | every operation adds to a log's file-plus-buffer text exactly the session text it merges there, nothing else |
| `Flow.RunMergesWholeSessions` | src/logtools.h:68-78 | over any run, each log's text grows by exactly the whole session texts merged into it, each once and in order |
| `Flow.StopDeliversEverything` | src/logtools.cpp:125-135 | stopping a running flusher leaves every buffer empty and every file holding all merged text |
| `Flow.RunThenStopLosesNothing` | src/logtools.cpp:147-156 | after any run that ends with the flusher running, a `Stop` leaves each file that started open with nothing buffered holding its prior content followed by every session text merged into it |
| `DebugToolset.ToString` | src/debug_toolset.h:101-136 | the eight levels get the same labels as the current version; other values have none |
| `DebugToolset.Get` | src/debug_toolset.h:138-143 | the header goes straight into the log's shared buffer; a value with no label has no defined result |
| `DebugToolset.CopyLog` | src/debug_toolset.h:86-89 | a copied log keeps its file name, append flag and the file's content, but its buffer is empty and its stream closed |
| `DebugToolset.RegisterNewLog` | src/debug_toolset.h:207-215 | appends a log on the file only when the flusher is stopped, otherwise changes nothing; when the vector reallocates, every existing log is replaced by its copy |
| `DebugToolset.ReallocationLosesText` | src/debug_toolset.h:163-166 | after a reallocating registration an existing log's pending text, buffered or already in its file, is gone |
| `DebugToolset.CheckIndex` | src/debug_toolset.h:216-221 | an index is valid iff 0 ≤ index < the number of logs |
| `DebugToolset.RegisterAcceptsDuplicates` | src/debug_toolset.h:207-215 | registering one name twice while stopped yields two logs on it |
| `DebugToolset.MacroCheck` | src/debug_toolset.h:222-231 | true iff the index is valid and the level is not above DEBUG4; when true the log is the same except that its file is opened (`Stream()`: same name and flag, a closed truncate-mode file emptied), and its pending text is unchanged |
| `DebugToolset.LogFileN` | src/debug_toolset.h:291-309 | a passing statement opens the file and adds header and body to log n-1's buffer only; a failing one changes nothing |
| `DebugToolset.DefaultMaskSuppressesWarningAndDebug4` | src/debug_toolset.h:287-289 | with the default mask WARNING and DEBUG4 statements change nothing, on any log |
| `DebugToolset.DrainLog` | src/debug_toolset.h:268-270 | one log's drain writes its buffer through the opened file and clears it; the file then holds the log's whole text, name and flag unchanged |
| `DebugToolset.DrainAll` | src/debug_toolset.h:276-281 | a pass empties every buffer into its opened file with no text lost, keeping name and append flag |
| `DebugToolset.Start` | src/debug_toolset.h:232-241 | false and no change when already running; otherwise starts the flusher |
| `DebugToolset.Stop` | src/debug_toolset.h:242-251 | false and no change when not running; otherwise one final pass and the flusher stops |
| `DebugToolset.StepWritesWholeLines` | src/debug_toolset.h:138-143 | every operation except a reallocating registration keeps a log on its file and adds to its text exactly the header-and-body line written there |
| `DebugToolset.RunWritesWholeLines` | src/debug_toolset.h:262-282 | over any run without a reallocating registration, each log stays on its file and its text grows by exactly the lines written to it, in order |

## Left out

- `NowTime` (both versions) reads the clock and formats it. It is the parameter `now`.
- Threads, `sleep_for`, `StartDelay` and `WriteInterval` are not modelled. The flusher thread is the `Tick` step plus the running flag.
- Steps are atomic. A merge from a session that does not lock can race a drain in the source; the model does not capture that race.
- Mutexes are not modelled. This covers `Lock`, `Unlock` and `isThreadSafe` (src/logtools.cpp:87-90,167-174); the thread-safety flag is a field. It also covers the registration mutex that the duplicate path never releases.
- File-system failures are not modelled: a file always opens. Flushing to disk is not modelled.
- `DebugToolset.MacroCheck`: the source also returns false when opening the file fails; the model assumes the open succeeds.
- Deleting the logs in `CloseLogs` is not modelled. It leaves dangling pointers in the vector, which is a memory-safety issue.
- The owner `Logger()` constructor and destructor allocate and free the mutex and output. That is memory management.
- `LOGFILEX_LOCK` and `LOGFILEX_UNLOCK` are not modelled. As written they use an undeclared `level` and contain a stray `\)`.
- `LOGFILE1` … `LOGFILE5` of the current version are `LOGFILEX` with index 0 … 4, so `Sessions.LogFileX` covers them.
- The legacy `catch(int)` and `exit(-404)` in `FileLog_Mgr::Get` are unreachable, because `operator[]` does not throw.
- `Get` with an out-of-range index is undefined behaviour in both versions. It is a precondition; callers are gated by `macroCheck`.
- `DebugToolset.RegisterNewLog`: when the vector reallocates is left to the standard library, so it is a parameter of the registration.
- `DebugToolset.StepWritesWholeLines`: does not cover a reallocating registration. That step empties every existing log's buffer and closes its file, so the next open truncates the file; `DebugToolset.ReallocationLosesText` states this instead.
- `DebugToolset.RunWritesWholeLines`: holds only for runs without a reallocating registration, for the same reason; with the usual capacity growth the second registration already reallocates.
- Legacy logs that share a file name are modelled as independent files. In the source each opens the same path in truncate mode and writes at its own offset, overwriting the other's bytes, so a log's text says nothing about that shared file.
- `~FileLog_Mgr` is not modelled (it never runs); `~FileStream_Policy` appears only as the close that `DebugToolset.CopyLog` assumes.
- Newline translation is not modelled: a file's `content` is the text written through the stream. The current version builds only on Windows (`localtime_s`, a backslash include path), where a text-mode `std::ofstream` writes each `"\n"` as `"\r\n"`.
- Legacy logs carry `append = false`: that version always opens in truncate mode.
- The default arguments of `RegisterNewLog` (not thread-safe, truncate, DEBUG1) are not modelled. `Request` spells every field out.
