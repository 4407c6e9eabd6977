/** Write sessions of the current version: the `FileLog` that
    `FileLog_Mgr::Get` returns (`Logger(Logger*, LogLevel)` in src/logtools.h),
    and the `LOGFILEX` gate that decides whether one is made at all. */
module Sessions {
  import opened Levels
  import opened Logtools

  /** A session: the index of the owner log it merges into, the owner's
      thread-safety flag (which also says whether it holds the owner's mutex),
      and its private text. */
  datatype Session = Session(owner: int, threadSafe: bool, text: string)

  /** The bits `LOG_MAX_LEVEL` sets by default: all eight levels. Only its low
      byte matters, since a level has no other bits. */
  const MaxLevel: Level := FATAL + ERROR + WARNING + INFO + DEBUG1 + DEBUG2 + DEBUG3 + DEBUG4

  /** The line header `NewLogLine` streams: `std::endl`, the time, and the
      level's fixed label, or the default label for a value naming no level. */
  function Header(now: string, level: Level): (h: string)
    ensures forall s :: Bit(s) == level ==> h == LineHeader(now, Label(s))
    ensures !IsLevel(level) ==> h == LineHeader(now, DefaultLabel)
  {
    LineHeader(now, ToString(level))
  }

  /** The header starts a new line with the time and ends with the level's
      label, so distinct named levels give distinct headers. */
  lemma HeaderNamesLevel(now: string, a: Severity, b: Severity)
    ensures Header(now, Bit(a)) == "\n -  " + now + " - \t" + Label(a)
    ensures Header(now, Bit(a)) == Header(now, Bit(b)) ==> a == b
  {
    var prefix := "\n -  " + now + " - \t";
    if Header(now, Bit(a)) == Header(now, Bit(b)) {
      assert Label(a) == Header(now, Bit(a))[|prefix|..];
      assert Label(b) == Header(now, Bit(b))[|prefix|..];
      LabelDeterminesLevel(a, b);
    }
  }

  /** `FileLog_Mgr::Get`: a session on a valid index (the source indexes the
      vector unchecked, so callers must pass `macroCheck` first). It shares the
      owner's flag, locks the owner iff that flag is set, and starts its own
      text with the header; the owner's buffer is not touched yet. */
  function Get(m: Manager, index: int, level: Level, now: string): (s: Session)
    requires CheckIndex(m, index)
    ensures s.owner == index && s.threadSafe == m.logs[index].threadSafe
    ensures s.text == Header(now, level)
  {
    Session(index, m.logs[index].threadSafe, Header(now, level))
  }

  /** `session << text`: appends to the private text only. */
  function Put(s: Session, text: string): (r: Session)
    ensures r.owner == s.owner && r.threadSafe == s.threadSafe
    ensures r.text == s.text + text
  {
    s.(text := s.text + text)
  }

  /** The session destructor: the whole private text goes to the end of the
      owner's buffer in one piece, and the owner's mutex is released iff the
      session is thread-safe (second component). No other log changes. */
  function Release(m: Manager, s: Session): (r: (Manager, bool))
    requires CheckIndex(m, s.owner)
    ensures r.1 == s.threadSafe
    ensures |r.0.logs| == |m.logs| && r.0.reportingLevel == m.reportingLevel && r.0.running == m.running
    ensures r.0.logs[s.owner] == m.logs[s.owner].(buffer := m.logs[s.owner].buffer + s.text)
    ensures EntryText(r.0.logs[s.owner]) == EntryText(m.logs[s.owner]) + s.text
    ensures forall k :: 0 <= k < |m.logs| && k != s.owner ==> r.0.logs[k] == m.logs[k]
  {
    var owner := m.logs[s.owner];
    (m.(logs := m.logs[s.owner := owner.(buffer := owner.buffer + s.text)]), s.threadSafe)
  }

  /** The condition of `LOGFILEX(index, level)`: no bit outside the mask and
      `macroCheck`, the mask test first. */
  predicate Gate(m: Manager, maxLevel: Level, index: int, level: Level)
  {
    (level & !maxLevel) == 0 && MacroCheck(m, index, level)
  }

  /** `LOGFILEX(index, level) << body;`: when the gate holds, a session is
      made, the body streamed into it, and the temporary destroyed at the end
      of the statement; otherwise nothing happens. */
  function LogFileX(m: Manager, maxLevel: Level, index: int, level: Level, now: string, body: string): (r: Manager)
    ensures |r.logs| == |m.logs| && r.reportingLevel == m.reportingLevel && r.running == m.running
    ensures !Gate(m, maxLevel, index, level) ==> r == m
    ensures Gate(m, maxLevel, index, level) ==>
      && r.logs[index] == m.logs[index].(buffer := m.logs[index].buffer + Header(now, level) + body)
      && EntryText(r.logs[index]) == EntryText(m.logs[index]) + Header(now, level) + body
      && forall k :: 0 <= k < |m.logs| && k != index ==> r.logs[k] == m.logs[k]
  {
    if (level & !maxLevel) != 0 || !MacroCheck(m, index, level) then m
    else
      var s := Put(Get(m, index, level, now), body);
      Release(m, s).0
  }

  /** With the default mask the mask test never fails: `LOGFILEX` is gated
      by `macroCheck` alone. */
  lemma DefaultMaskAdmitsEveryLevel(m: Manager, index: int, level: Level)
    ensures Gate(m, MaxLevel, index, level) <==> MacroCheck(m, index, level)
  {
  }

  /** A mask that clears a level's bit suppresses that level on every log,
      whatever the shared threshold admits. */
  lemma ClearedBitSuppresses(m: Manager, maxLevel: Level, index: int, s: Severity, now: string, body: string)
    requires Bit(s) & maxLevel == 0
    ensures LogFileX(m, maxLevel, index, Bit(s), now, body) == m
  {
  }

  /** A log registered with threshold INFO: a DEBUG1 statement changes
      nothing, an ERROR statement's line, header first, reaches the file once
      the flusher is started and stopped. */
  lemma InfoThresholdScenario(now: string)
    ensures var (m, index) := Register(Initial, Request("a.log", false, false, INFO, ""));
      && index == 0
      && LogFileX(m, MaxLevel, index, DEBUG1, now, "x") == m
      && Stop(Start(LogFileX(m, MaxLevel, index, ERROR, now, "boom")).0).0.logs[index].output.content
         == "\n -  " + now + " - \t" + Label(Error) + "boom"
  {
    var req := Request("a.log", false, false, INFO, "");
    var (m, index) := Register(Initial, req);
    assert !HasFileName(Initial.logs, "a.log");
    assert index == 0 && |m.logs| == 1 && m.logs[0] == NewLog(req) && m.reportingLevel == INFO;
    assert !Gate(m, MaxLevel, index, DEBUG1);
    assert Gate(m, MaxLevel, index, ERROR);
    var written := LogFileX(m, MaxLevel, index, ERROR, now, "boom");
    var line := Header(now, ERROR) + "boom";
    assert written.logs[0] == Entry(NewLog(req).output, false, line);
    var started := Start(written).0;
    assert started.logs == written.logs && started.running;
    assert Stop(started).0.logs[0] == DrainEntry(written.logs[0]);
    assert DrainEntry(written.logs[0]).output.content == line;
  }
}
