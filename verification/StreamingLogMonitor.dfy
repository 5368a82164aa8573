/**
 * The line loop of the log monitor: which lines raise a stream start or stop, given the pairing
 * by uuid, and the launch commands it reads out of the server's own launch lines.
 */
module StreamingLogMonitor {
  import opened Common
  import opened Text
  import opened LogParser

  // ── What a line says ────────────────────────────────────────────────────────

  const EXECUTING := "Executing: [\""
  const SPAWNING := "Spawning ["
  const SPAWNED_IN := "] in ["
  const UUID := "uuid="
  const HISTORY_BEGIN := "session_history: begin_session"
  const HISTORY_END := "session_history: end_session"

  function TryParseLaunchedCommand(line: string): Option<string> {
    match IndexOf(line, EXECUTING, 0)
    case None => None
    case Some(at) =>
      var start := at + |EXECUTING|;
      var end := IndexOf(line, "\"", start);
      if end.None? || end.value <= start then None else Some(line[start..end.value])
  }

  function TryParseSpawnedCommand(line: string): Option<string> {
    match IndexOf(line, SPAWNING, 0)
    case None => None
    case Some(at) =>
      var start := at + |SPAWNING|;
      var end := IndexOf(line, SPAWNED_IN, start);
      if end.None? || end.value <= start then None
      else
        var cmd := Trim(line[start..end.value]);
        if cmd == "" then None else Some(cmd)
  }

  /** The command of a launch line, whichever of the two forms it has. */
  function LaunchCommandOf(line: string): Option<string> {
    var executed := TryParseLaunchedCommand(line);
    if executed.Some? then executed else TryParseSpawnedCommand(line)
  }

  predicate IsUuidChar(c: char) {
    '0' <= c <= '9' || 'a' <= c <= 'z' || 'A' <= c <= 'Z' || c == '-'
  }

  function UuidRun(s: string): string {
    if s != "" && IsUuidChar(s[0]) then [s[0]] + UuidRun(s[1..]) else ""
  }

  function TryParseHistoryUuid(line: string): Option<string> {
    match IndexOf(line, UUID, 0)
    case None => None
    case Some(at) =>
      var run := UuidRun(line[at + |UUID|..]);
      if run == "" then None else Some(run)
  }

  predicate IsHistoryBegin(line: string) {
    IndexOf(line, HISTORY_BEGIN, 0).Some?
  }

  predicate IsHistoryEnd(line: string) {
    IndexOf(line, HISTORY_END, 0).Some?
  }

  /** All the monitor takes from a line. */
  datatype Line = Line(event: StreamingEvent, begins: bool, ends: bool, uuid: Option<string>)

  function Read(line: string): Line {
    Line(ParseLogLine(line), IsHistoryBegin(line), IsHistoryEnd(line), TryParseHistoryUuid(line))
  }

  function ReadAll(lines: seq<string>): (r: seq<Line>)
    ensures |r| == |lines| && forall i | 0 <= i < |r| :: r[i] == Read(lines[i])
  {
    Map(Read, lines)
  }

  // ── The loop ────────────────────────────────────────────────────────────────

  datatype Monitor = Monitor(seenStreamStarted: bool, openHistoryUuid: Option<string>)

  /** An end_session that names another session than the declared one. */
  predicate IsForeignEnd(m: Monitor, line: Line) {
    line.ends && m.openHistoryUuid.Some? && line.uuid.Some? && line.uuid != m.openHistoryUuid
  }

  function AfterLine(m: Monitor, line: Line): Monitor {
    match line.event
    case NoEvent => m
    case StreamStarted => Monitor(true, if line.begins then line.uuid else m.openHistoryUuid)
    case StreamStopped =>
      if IsForeignEnd(m, line) then m else Monitor(false, if line.ends then None else m.openHistoryUuid)
  }

  function RaisedBy(m: Monitor, line: Line): StreamingEvent {
    match line.event
    case NoEvent => NoEvent
    case StreamStarted => StreamStarted
    case StreamStopped => if !IsForeignEnd(m, line) && m.seenStreamStarted then StreamStopped else NoEvent
  }

  function AfterLines(m: Monitor, lines: seq<Line>): Monitor
    decreases |lines|
  {
    if lines == [] then m else AfterLines(AfterLine(m, lines[0]), lines[1..])
  }

  /** What each line of a log raises, in order. */
  function Raised(m: Monitor, lines: seq<Line>): (r: seq<StreamingEvent>)
    ensures |r| == |lines|
    decreases |lines|
  {
    if lines == [] then [] else [RaisedBy(m, lines[0])] + Raised(AfterLine(m, lines[0]), lines[1..])
  }

  class LogMonitor {
    var seenStreamStarted: bool
    var openHistoryUuid: Option<string>

    ghost function Model(): Monitor
      reads this
    {
      Monitor(seenStreamStarted, openHistoryUuid)
    }

    method OnLine(line: string) returns (raised: StreamingEvent)
      modifies this
      ensures Model() == AfterLine(old(Model()), Read(line)) && raised == RaisedBy(old(Model()), Read(line))
    {
      var streamingEvent := ParseLogLine(line);
      raised := NoEvent;
      if streamingEvent == StreamStarted {
        if IsHistoryBegin(line) {
          openHistoryUuid := TryParseHistoryUuid(line);
        }
        seenStreamStarted := true;
        raised := StreamStarted;
      } else if streamingEvent == StreamStopped {
        if IsHistoryEnd(line) && openHistoryUuid.Some? {
          var ending := TryParseHistoryUuid(line);
          if ending.Some? && ending != openHistoryUuid {
            return;
          }
          openHistoryUuid := None;
        }
        if seenStreamStarted {
          seenStreamStarted := false;
          raised := StreamStopped;
        }
      }
    }

    method MonitorLogFile(lines: seq<string>) returns (raised: seq<StreamingEvent>)
      modifies this
      ensures Model() == AfterLines(old(Model()), ReadAll(lines)) && raised == Raised(old(Model()), ReadAll(lines))
    {
      raised := [];
      ghost var read := ReadAll(lines);
      for i := 0 to |lines|
        invariant AfterLines(Model(), read[i..]) == AfterLines(old(Model()), read)
        invariant raised + Raised(Model(), read[i..]) == Raised(old(Model()), read)
      {
        var e := OnLine(lines[i]);
        raised := raised + [e];
        assert read[i..][1..] == read[i + 1..];
      }
    }
  }

  // ── Discipline over any log ─────────────────────────────────────────────────

  lemma {:induction false} StopNeedsAStart(m: Monitor, lines: seq<Line>, j: nat)
    requires j < |lines| && Raised(m, lines)[j] == StreamStopped && !m.seenStreamStarted
    ensures exists k | 0 <= k < j :: Raised(m, lines)[k] == StreamStarted
    decreases |lines|
  {
    var m1 := AfterLine(m, lines[0]);
    if RaisedBy(m, lines[0]) != StreamStarted {
      StopNeedsAStart(m1, lines[1..], j - 1);
      var k :| 0 <= k < j - 1 && Raised(m1, lines[1..])[k] == StreamStarted;
      assert Raised(m, lines)[k + 1] == StreamStarted;
    } else {
      assert Raised(m, lines)[0] == StreamStarted;
    }
  }

  /** Between two raised stops there is a raised start, whatever the log says. */
  lemma {:induction false} StopsAlternateWithStarts(m: Monitor, lines: seq<Line>, i: nat, j: nat)
    requires i < j < |lines| && Raised(m, lines)[i] == Raised(m, lines)[j] == StreamStopped
    ensures exists k | i < k < j :: Raised(m, lines)[k] == StreamStarted
    decreases |lines|
  {
    var m1 := AfterLine(m, lines[0]);
    if i == 0 {
      StopNeedsAStart(m1, lines[1..], j - 1);
      var k :| 0 <= k < j - 1 && Raised(m1, lines[1..])[k] == StreamStarted;
      assert Raised(m, lines)[k + 1] == StreamStarted;
    } else {
      StopsAlternateWithStarts(m1, lines[1..], i - 1, j - 1);
      var k :| i - 1 < k < j - 1 && Raised(m1, lines[1..])[k] == StreamStarted;
      assert Raised(m, lines)[k + 1] == StreamStarted;
    }
  }

  /** The session declared open before line `k`: by the last begin that no stop has closed since. */
  function DeclaredBefore(lines: seq<Line>, k: nat): Option<string>
    requires k <= |lines|
  {
    if k == 0 then None
    else
      var line, before := lines[k - 1], DeclaredBefore(lines, k - 1);
      if line.event == StreamStarted && line.begins then line.uuid
      else if line.event == StreamStopped && line.ends && !EndsAnother(line, before) then None
      else before
  }

  /** The line ends a session by a uuid other than the declared one. */
  predicate EndsAnother(line: Line, declared: Option<string>) {
    line.ends && line.uuid.Some? && declared.Some? && line.uuid.value != declared.value
  }

  /** A stop that belongs to the session it finds: any stop but the declared end of another. */
  predicate EffectiveStop(lines: seq<Line>, k: nat)
    requires k < |lines|
  {
    lines[k].event == StreamStopped && !EndsAnother(lines[k], DeclaredBefore(lines, k))
  }

  /** A start came before line `k` and no effective stop since. */
  function LiveBefore(lines: seq<Line>, k: nat): bool
    requires k <= |lines|
  {
    k > 0 && (lines[k - 1].event == StreamStarted || (!EffectiveStop(lines, k - 1) && LiveBefore(lines, k - 1)))
  }

  const FRESH := Monitor(false, None)

  lemma {:induction false} AfterLinesOneMore(m: Monitor, lines: seq<Line>)
    requires lines != []
    ensures var front, last := lines[..|lines| - 1], lines[|lines| - 1];
      && AfterLines(m, lines) == AfterLine(AfterLines(m, front), last)
      && Raised(m, lines) == Raised(m, front) + [RaisedBy(AfterLines(m, front), last)]
    decreases |lines|
  {
    if |lines| > 1 {
      AfterLinesOneMore(AfterLine(m, lines[0]), lines[1..]);
      assert lines[1..][..|lines| - 2] == lines[..|lines| - 1][1..];
    }
  }

  lemma {:induction false} DeclaredPrefix(lines: seq<Line>, n: nat, k: nat)
    requires k <= n <= |lines|
    ensures DeclaredBefore(lines[..n], k) == DeclaredBefore(lines, k)
    ensures LiveBefore(lines[..n], k) == LiveBefore(lines, k)
  {
    if k > 0 {
      DeclaredPrefix(lines, n, k - 1);
    }
  }

  /** The two fields of the loop are functions of the lines read so far. */
  lemma {:induction false} FieldsReflectLines(lines: seq<Line>)
    ensures AfterLines(FRESH, lines) == Monitor(LiveBefore(lines, |lines|), DeclaredBefore(lines, |lines|))
  {
    if lines != [] {
      var n := |lines| - 1;
      FieldsReflectLines(lines[..n]);
      DeclaredPrefix(lines, n, n);
      AfterLinesOneMore(FRESH, lines);
    }
  }

  /**
   * What a log raises, line by line and in terms of the log alone: a start for every start line, and
   * a stop for exactly those stop lines that find a live stream and do not end another session.
   */
  lemma {:induction false} LineRaisesIff(lines: seq<Line>, k: nat)
    requires k < |lines|
    ensures Raised(FRESH, lines)[k] == StreamStarted <==> lines[k].event == StreamStarted
    ensures Raised(FRESH, lines)[k] == StreamStopped <==> EffectiveStop(lines, k) && LiveBefore(lines, k)
    decreases |lines|
  {
    var n := |lines| - 1;
    AfterLinesOneMore(FRESH, lines);
    if k < n {
      LineRaisesIff(lines[..n], k);
      DeclaredPrefix(lines, n, k);
    } else {
      FieldsReflectLines(lines[..n]);
      DeclaredPrefix(lines, n, n);
    }
  }

  /** The line opens another session, or may close session `u`. */
  predicate SpeaksOf(line: Line, u: string) {
    || (line.event == StreamStarted && line.begins)
    || (line.event == StreamStopped && line.ends && (line.uuid.None? || line.uuid == Some(u)))
  }

  lemma {:induction false} DeclarationHolds(m: Monitor, lines: seq<Line>, u: string)
    requires m.openHistoryUuid == Some(u) && forall line | line in lines :: !SpeaksOf(line, u)
    ensures AfterLines(m, lines).openHistoryUuid == Some(u)
    decreases |lines|
  {
    if lines != [] {
      assert !SpeaksOf(lines[0], u);
      DeclarationHolds(AfterLine(m, lines[0]), lines[1..], u);
    }
  }

  /**
   * The pairing the uuid buys: once a session is declared open, and until a line that opens
   * another or may close it, the end of any other session raises nothing and changes nothing.
   */
  lemma ForeignEndIsIgnored(m: Monitor, begin: Line, between: seq<Line>, end: Line, u: string)
    requires begin.event == StreamStarted && begin.begins && begin.uuid == Some(u)
    requires forall line | line in between :: !SpeaksOf(line, u)
    requires end.ends && end.uuid.Some? && end.uuid != Some(u) && end.event != StreamStarted
    ensures var after := AfterLines(AfterLine(m, begin), between);
      RaisedBy(after, end) == NoEvent && AfterLine(after, end) == after
  {
    DeclarationHolds(AfterLine(m, begin), between, u);
  }

  // ── A whole session as the server writes it ─────────────────────────────────

  /** A timestamp, as every supported server writes it. */
  predicate Timestamp(ts: string) {
    ']' !in ts && '=' !in ts && '_' !in ts
  }

  predicate Uuid(u: string) {
    u != "" && forall c | c in u :: IsUuidChar(c)
  }

  /** What may follow the uuid on its line. */
  predicate EndsUuid(rest: string) {
    rest == "" || !IsUuidChar(rest[0])
  }

  function InfoLine(ts: string, message: string): string {
    Render(ts, "Info: ", [], message)
  }

  lemma InfoLineIs(ts: string, message: string)
    requires ']' !in ts && Bare(message)
    ensures ParseLogLine(InfoLine(ts, message)) == Classify(message)
  {
    assert "Info: " == LEVEL_PREFIXES[2];
    RenderedMessageIsExtracted(ts, "Info: ", [], message);
  }

  lemma {:induction false} UuidRunIs(u: string, rest: string)
    requires (forall c | c in u :: IsUuidChar(c)) && EndsUuid(rest)
    ensures UuidRun(u + rest) == u
  {
    if u == "" {
      assert u + rest == rest;
    } else {
      UuidRunIs(u[1..], rest);
      assert (u + rest)[1..] == u[1..] + rest;
    }
  }

  lemma HistoryUuidIs(before: string, u: string, rest: string)
    requires '=' !in before && Uuid(u) && EndsUuid(rest)
    ensures TryParseHistoryUuid(before + UUID + (u + rest)) == Some(u)
  {
    NoOccurrence(before, UUID, '=');
    assert before[0..] == before;
    IndexOfAfter(before, UUID, u + rest, 0);
    assert (before + UUID + (u + rest))[|before| + |UUID|..] == u + rest;
    UuidRunIs(u, rest);
  }

  /** Whatever is written in hexadecimal digits of either case and dashes is read as a uuid. */
  lemma HexIsAUuid(u: string)
    requires u != "" && forall c | c in u :: c in "0123456789abcdefABCDEF-"
    ensures Uuid(u)
  {
    forall i | 0 <= i < |u| ensures IsUuidChar(u[i]) {
      assert u[i] in u;
    }
  }

  /** As the server prints it: a uuid, a space and the rest of the line. */
  lemma PrintedUuidIsRead(before: string, u: string, rest: string)
    requires '=' !in before && u != "" && forall c | c in u :: c in "0123456789abcdefABCDEF-"
    ensures TryParseHistoryUuid(before + "uuid=" + (u + (" " + rest))) == Some(u)
  {
    HexIsAUuid(u);
    HistoryUuidIs(before, u, " " + rest);
  }

  lemma MentionedAt(before: string, p: string, rest: string)
    ensures IndexOf(before + p + rest, p, 0).Some?
  {
    assert (before + p + rest)[|before|..|before| + |p|] == p;
    assert At(before + p + rest, p, |before|);
  }

  function BeginLine(ts: string, u: string, rest: string): string {
    InfoLine(ts, HISTORY_BEGIN + (" " + UUID + (u + rest)))
  }

  function EndLine(ts: string, u: string, rest: string): string {
    InfoLine(ts, HISTORY_END + (" " + UUID + (u + rest)))
  }

  /** The two lines as the server spells them. */
  lemma HistoryLinesAreSpelled(ts: string, u: string, rest: string)
    ensures BeginLine(ts, u, rest) == InfoLine(ts, "session_history: begin_session" + (" uuid=" + (u + rest)))
    ensures EndLine(ts, u, rest) == InfoLine(ts, "session_history: end_session" + (" uuid=" + (u + rest)))
  {
    assert " " + UUID + (u + rest) == " uuid=" + (u + rest);
  }

  lemma InfoLineShape(ts: string, marker: string, tail: string)
    ensures InfoLine(ts, marker + tail) == (ts + "]: Info: ") + marker + tail
  {
    assert RenderTagged([], marker + tail) == marker + tail;
  }

  lemma MarkerOnLine(ts: string, marker: string, tail: string)
    requires ']' !in ts && Bare(marker)
    ensures IndexOf(InfoLine(ts, marker + tail), marker, 0).Some?
    ensures ParseLogLine(InfoLine(ts, marker + tail)) == Classify(marker + tail)
  {
    InfoLineIs(ts, marker + tail);
    InfoLineShape(ts, marker, tail);
    MentionedAt(ts + "]: Info: ", marker, tail);
  }

  /** What the monitor reads off a session-history line. */
  lemma HistoryLineIs(ts: string, marker: string, u: string, rest: string, tail: string)
    requires Timestamp(ts) && Uuid(u) && EndsUuid(rest) && '=' !in marker && Bare(marker)
    requires tail == " " + UUID + (u + rest)
    ensures var line := InfoLine(ts, marker + tail);
      && IndexOf(line, marker, 0).Some? && TryParseHistoryUuid(line) == Some(u)
      && ParseLogLine(line) == Classify(marker + tail)
  {
    MarkerOnLine(ts, marker, tail);
    InfoLineShape(ts, marker, tail);
    HeaderHasNoEquals(ts, marker);
    UuidOnLine(ts + "]: Info: " + marker, u, rest);
  }

  lemma HeaderHasNoEquals(ts: string, marker: string)
    requires '=' !in ts && '=' !in marker
    ensures '=' !in ts + "]: Info: " + marker
  {
  }

  lemma UuidOnLine(before: string, u: string, rest: string)
    requires '=' !in before && Uuid(u) && EndsUuid(rest)
    ensures TryParseHistoryUuid(before + (" " + UUID + (u + rest))) == Some(u)
  {
    assert before + (" " + UUID + (u + rest)) == (before + " ") + UUID + (u + rest);
    HistoryUuidIs(before + " ", u, rest);
  }

  lemma BeginLineReads(ts: string, u: string, rest: string)
    requires Timestamp(ts) && Uuid(u) && EndsUuid(rest)
    ensures var line := Read(BeginLine(ts, u, rest));
      line.event == StreamStarted && line.begins && line.uuid == Some(u)
  {
    HistoryLineIs(ts, HISTORY_BEGIN, u, rest, " " + UUID + (u + rest));
    BeginStarts(" " + UUID + (u + rest));
  }

  lemma EndLineReads(ts: string, u: string, rest: string)
    requires Timestamp(ts) && Uuid(u) && EndsUuid(rest)
    ensures var line := Read(EndLine(ts, u, rest));
      line.event == StreamStopped && line.ends && line.uuid == Some(u)
  {
    HistoryLineIs(ts, HISTORY_END, u, rest, " " + UUID + (u + rest));
    EveryStopCounts(" " + UUID + (u + rest));
  }

  /** A line without an underscore is no line of the session history. */
  lemma PlainLine(ts: string, message: string)
    requires '_' !in ts && '_' !in message
    ensures !IsHistoryBegin(InfoLine(ts, message)) && !IsHistoryEnd(InfoLine(ts, message))
  {
    var line := InfoLine(ts, message);
    assert line == ts + "]: " + ("Info: " + message);
    assert HISTORY_BEGIN[7] == HISTORY_END[7] == '_';
    NoOccurrence(line, HISTORY_BEGIN, '_');
    NoOccurrence(line, HISTORY_END, '_');
  }

  lemma MarkedMessage(marker: string, detail: string)
    requires Bare(marker) && '_' !in marker && '_' !in detail
    ensures Bare(marker + detail) && '_' !in marker + detail
  {
  }

  lemma PlainLineReads(ts: string, message: string)
    requires Timestamp(ts) && Bare(message) && '_' !in message
    ensures var line := Read(InfoLine(ts, message)); line.event == Classify(message) && !line.begins && !line.ends
  {
    InfoLineIs(ts, message);
    PlainLine(ts, message);
  }

  lemma ConnectLineReads(ts: string, detail: string)
    requires Timestamp(ts) && '_' !in detail
    ensures var line := Read(InfoLine(ts, "CLIENT CONNECTED" + detail)); line.event == StreamStarted && !line.begins
  {
    MarkedMessage("CLIENT CONNECTED", detail);
    ConnectedStarts(detail);
    PlainLineReads(ts, "CLIENT CONNECTED" + detail);
  }

  lemma EndedLineReads(ts: string, detail: string)
    requires Timestamp(ts) && '_' !in detail
    ensures var line := Read(InfoLine(ts, "Session ended" + detail)); line.event == StreamStopped && !line.ends
  {
    MarkedMessage("Session ended", detail);
    EveryStopCounts(detail);
    PlainLineReads(ts, "Session ended" + detail);
  }

  lemma {:induction false} QuietLines(m: Monitor, lines: seq<Line>)
    requires forall line | line in lines :: line.event == NoEvent
    ensures AfterLines(m, lines) == m && forall i | 0 <= i < |lines| :: Raised(m, lines)[i] == NoEvent
  {
    if lines != [] {
      QuietLines(m, lines[1..]);
    }
  }

  lemma {:induction false} LinesConcat(m: Monitor, a: seq<Line>, b: seq<Line>)
    ensures AfterLines(m, a + b) == AfterLines(AfterLines(m, a), b)
    ensures Raised(m, a + b) == Raised(m, a) + Raised(AfterLines(m, a), b)
    decreases |a|
  {
    if a == [] {
      assert a + b == b;
    } else {
      LinesConcat(AfterLine(m, a[0]), a[1..], b);
      assert (a + b)[1..] == a[1..] + b;
    }
  }

  lemma TwoLines(m: Monitor, a: Line, b: Line)
    ensures AfterLines(m, [a, b]) == AfterLine(AfterLine(m, a), b)
    ensures Raised(m, [a, b]) == [RaisedBy(m, a), RaisedBy(AfterLine(m, a), b)]
  {
    assert [a, b][1..] == [b] && [b][1..] == [];
    assert AfterLines(AfterLine(m, a), [b]) == AfterLine(AfterLine(m, a), b);
  }

  /** The same block, as the monitor reads it. */
  lemma ReadBlockStopsOnce(m: Monitor, head: seq<Line>, noise: seq<Line>, tail: seq<Line>, u: string)
    requires |head| == |tail| == 2 && (forall line | line in noise :: line.event == NoEvent)
    requires head[0].event == head[1].event == StreamStarted && head[0].begins && !head[1].begins
    requires tail[0].event == tail[1].event == StreamStopped && !tail[0].ends && tail[1].ends
    requires head[0].uuid == tail[1].uuid == Some(u)
    ensures var lines := head + noise + tail;
      && (forall i | 0 <= i < |lines| :: Raised(m, lines)[i] == StreamStopped <==> i == |lines| - 2)
      && AfterLines(m, lines) == Monitor(false, None)
  {
    var live := Monitor(true, Some(u));
    assert head == [head[0], head[1]] && tail == [tail[0], tail[1]];
    TwoLines(m, head[0], head[1]);
    QuietLines(live, noise);
    TwoLines(live, tail[0], tail[1]);
    LinesConcat(m, head, noise);
    LinesConcat(m, head + noise, tail);
  }

  /** begin_session and connect; then session end and end_session. */
  function Opening(t0: string, t1: string, u: string, detail: string, rest: string): seq<string> {
    [BeginLine(t0, u, rest), InfoLine(t1, "CLIENT CONNECTED" + detail)]
  }

  function Closing(t2: string, t3: string, u: string, detail: string, rest: string): seq<string> {
    [InfoLine(t2, "Session ended" + detail), EndLine(t3, u, rest)]
  }

  /**
   * One complete server block, with anything that is no marker in between, raises exactly one
   * stop, on the line that ends the session, and leaves the monitor with nothing open - whatever
   * state it was in before.
   */
  lemma CompleteBlockStopsOnce(m: Monitor, t0: string, t1: string, t2: string, t3: string,
                               u: string, detail: string, rest: string, noise: seq<string>)
    requires Timestamp(t0) && Timestamp(t1) && Timestamp(t2) && Timestamp(t3)
    requires Uuid(u) && EndsUuid(rest) && '_' !in detail
    requires forall line | line in noise :: ParseLogLine(line) == NoEvent
    ensures
      var lines := ReadAll(Opening(t0, t1, u, detail, rest) + noise + Closing(t2, t3, u, detail, rest));
      && (forall i | 0 <= i < |lines| :: Raised(m, lines)[i] == StreamStopped <==> i == |lines| - 2)
      && AfterLines(m, lines) == Monitor(false, None)
  {
    BeginLineReads(t0, u, rest);
    ConnectLineReads(t1, detail);
    EndedLineReads(t2, detail);
    EndLineReads(t3, u, rest);
    var head, tail := Opening(t0, t1, u, detail, rest), Closing(t2, t3, u, detail, rest);
    MapConcat(Read, head, noise);
    MapConcat(Read, head + noise, tail);
    forall line | line in ReadAll(noise) ensures line.event == NoEvent {
      var i :| 0 <= i < |noise| && ReadAll(noise)[i] == line;
      assert noise[i] in noise;
    }
    ReadBlockStopsOnce(m, ReadAll(head), ReadAll(noise), ReadAll(tail), u);
  }
}
