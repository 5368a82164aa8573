/**
 * The session history: one row per session, and the live-stream spans of the active one. Times
 * are milliseconds of one clock that never goes back.
 */
module SessionLog {
  import opened Common

  const MIN_SESSION_MS := 60_000

  datatype Span = Span(start: int, end: Option<int>)

  datatype Row = Row(id: int, start: int, end: Option<int>, spans: Option<seq<Span>>, debug: bool)

  datatype Log = Log(activeId: Option<int>, activeStart: int, spans: seq<Span>, rows: seq<Row>)

  predicate LastOpen(spans: seq<Span>) {
    spans != [] && spans[|spans| - 1].end.None?
  }

  function RecordStreamStart(l: Log, when: int): Log {
    if LastOpen(l.spans) then l else l.(spans := l.spans + [Span(when, None)])
  }

  function RecordStreamStop(l: Log, when: int): Log {
    if !LastOpen(l.spans) then l
    else l.(spans := l.spans[|l.spans| - 1 := l.spans[|l.spans| - 1].(end := Some(when))])
  }

  function SnapshotStreamSpans(l: Log): Option<seq<Span>> {
    if l.spans == [] then None else Some(l.spans)
  }

  function StartSession(l: Log, id: int, now: int): Log {
    Log(Some(id), now, [Span(now, None)], [Row(id, now, None, None, false)] + l.rows)
  }

  function RemoveAt(rows: seq<Row>, i: nat): seq<Row>
    requires i < |rows|
  {
    rows[..i] + rows[i + 1..]
  }

  /** Nobody owns the open row any more: close the newest one. */
  function RescueOrphan(l: Log, now: int): Log {
    match FirstIndex(l.rows, (r: Row) => r.end.None?)
    case None => l
    case Some(i) =>
      if now - l.rows[i].start < MIN_SESSION_MS then l.(rows := RemoveAt(l.rows, i))
      else l.(rows := l.rows[i := l.rows[i].(end := Some(now))])
  }

  /** Whether a closed row is worth keeping. */
  predicate Keeps(row: Row, now: int, onlyGames: bool, gamesPlayed: bool) {
    now - row.start >= MIN_SESSION_MS && (!onlyGames || row.debug || gamesPlayed)
  }

  function ActiveRow(rows: seq<Row>, id: int): Option<nat> {
    FirstIndex(rows, (r: Row) => r.id == id)
  }

  function EndSession(l: Log, now: int, onlyGames: bool, gamesPlayed: bool): Log {
    if l.activeId.None? then RescueOrphan(l, now)
    else
      var idle := l.(activeId := None);
      var found := ActiveRow(l.rows, l.activeId.value);
      if found.None? || l.rows[found.value].end.Some? then idle
      else
        var i := found.value;
        var stopped := RecordStreamStop(idle, now);
        var closed := l.rows[i].(end := Some(now), spans := SnapshotStreamSpans(stopped));
        stopped.(rows :=
          if Keeps(closed, now, onlyGames, gamesPlayed) then l.rows[i := closed] else RemoveAt(l.rows, i))
  }

  /** Clearing history keeps the active session's row. */
  function ClearSince(l: Log, cutoff: int): Log {
    l.(rows := Filter(l.rows, (r: Row) => l.activeId == Some(r.id) || r.start < cutoff))
  }

  // ── What the spans always are ───────────────────────────────────────────────

  /** Ordered, apart, only the last one open, and none in the future. */
  predicate WellFormed(spans: seq<Span>, now: int) {
    && (forall i | 0 <= i < |spans| :: spans[i].start <= now
          && (spans[i].end.Some? ==> spans[i].start <= spans[i].end.value <= now)
          && (spans[i].end.None? ==> i == |spans| - 1))
    && (forall i | 0 <= i < |spans| - 1 :: spans[i].end.Some? && spans[i].end.value <= spans[i + 1].start)
  }

  ghost predicate LogOk(l: Log, now: int) {
    && WellFormed(l.spans, now)
    && (l.activeId.Some? ==>
          && l.activeStart <= now && l.spans != [] && l.spans[0].start == l.activeStart
          && forall r | r in l.rows && r.id == l.activeId.value :: r.start == l.activeStart && r.end.None?)
  }

  datatype LogOp =
    | LogStreamStart(now: int)
    | LogStreamStop(now: int)
    | LogStart(id: int, now: int)
    | LogEnd(now: int, onlyGames: bool, gamesPlayed: bool)
    | LogClear(now: int, cutoff: int)

  function LogAfter(l: Log, op: LogOp): Log {
    match op
    case LogStreamStart(now) => RecordStreamStart(l, now)
    case LogStreamStop(now) => RecordStreamStop(l, now)
    case LogStart(id, now) => StartSession(l, id, now)
    case LogEnd(now, onlyGames, gamesPlayed) => EndSession(l, now, onlyGames, gamesPlayed)
    case LogClear(_, cutoff) => ClearSince(l, cutoff)
  }

  /** A new session's identifier is new. */
  predicate LogLegal(l: Log, op: LogOp) {
    op.LogStart? ==> forall r | r in l.rows :: r.id != op.id
  }

  lemma SpansStayWellFormed(l: Log, then_: int, op: LogOp)
    requires LogOk(l, then_) && then_ <= op.now && LogLegal(l, op)
    ensures LogOk(LogAfter(l, op), op.now)
  {
  }

  predicate LogRun(l: Log, then_: int, ops: seq<LogOp>)
    decreases |ops|
  {
    ops == [] || (then_ <= ops[0].now && LogLegal(l, ops[0]) && LogRun(LogAfter(l, ops[0]), ops[0].now, ops[1..]))
  }

  function LogEndState(l: Log, ops: seq<LogOp>): Log
    decreases |ops|
  {
    if ops == [] then l else LogEndState(LogAfter(l, ops[0]), ops[1..])
  }

  function LastTime(then_: int, ops: seq<LogOp>): int {
    if ops == [] then then_ else ops[|ops| - 1].now
  }

  lemma {:induction false} EveryRunIsWellFormed(l: Log, then_: int, ops: seq<LogOp>)
    requires LogOk(l, then_) && LogRun(l, then_, ops)
    ensures LogOk(LogEndState(l, ops), LastTime(then_, ops))
    decreases |ops|
  {
    if ops != [] {
      SpansStayWellFormed(l, then_, ops[0]);
      EveryRunIsWellFormed(LogAfter(l, ops[0]), ops[0].now, ops[1..]);
    }
  }

  /** The streamed time of closed spans. */
  function Streamed(spans: seq<Span>): int
    requires forall s | s in spans :: s.end.Some?
  {
    if spans == [] then 0
    else Streamed(spans[..|spans| - 1]) + spans[|spans| - 1].end.value - spans[|spans| - 1].start
  }

  lemma {:induction false} StreamedFits(spans: seq<Span>, now: int)
    requires WellFormed(spans, now) && spans != [] && forall s | s in spans :: s.end.Some?
    ensures 0 <= Streamed(spans) <= spans[|spans| - 1].end.value - spans[0].start
  {
    if |spans| > 1 {
      var front := spans[..|spans| - 1];
      StreamedFits(front, now);
      assert front[|front| - 1].end.value <= spans[|spans| - 1].start;
    } else {
      assert spans[..0] == [];
    }
  }

  /**
   * After any run of the log, when the session ends and its row is kept: the row's spans are all
   * closed, lie inside the session, and together are no longer than it.
   */
  lemma KeptRowHoldsItsSpans(l: Log, then_: int, ops: seq<LogOp>, now: int, onlyGames: bool, gamesPlayed: bool)
    requires LogOk(l, then_) && LogRun(l, then_, ops) && LastTime(then_, ops) <= now
    requires var before := LogEndState(l, ops);
      before.activeId.Some? && ActiveRow(before.rows, before.activeId.value).Some?
    ensures
      var before := LogEndState(l, ops);
      var i := ActiveRow(before.rows, before.activeId.value).value;
      var after := EndSession(before, now, onlyGames, gamesPlayed);
      if !Keeps(before.rows[i], now, onlyGames, gamesPlayed) then after.rows == RemoveAt(before.rows, i)
      else
        var row := after.rows[i];
        && row.end == Some(now) && row.spans.Some? && row.spans.value == after.spans
        && (forall s | s in after.spans :: s.end.Some? && row.start <= s.start <= s.end.value <= now)
        && Streamed(after.spans) <= now - row.start
  {
    EveryRunIsWellFormed(l, then_, ops);
    var before := LogEndState(l, ops);
    var i := ActiveRow(before.rows, before.activeId.value).value;
    assert before.rows[i] in before.rows;
    CloseKeepsOrder(before, now);
    var after := EndSession(before, now, onlyGames, gamesPlayed);
    if Keeps(before.rows[i], now, onlyGames, gamesPlayed) {
      StreamedFits(after.spans, now);
    }
  }

  lemma CloseKeepsOrder(l: Log, now: int)
    requires WellFormed(l.spans, now) && l.spans != []
    ensures var spans := RecordStreamStop(l, now).spans;
      && WellFormed(spans, now) && |spans| == |l.spans| && spans[0].start == l.spans[0].start
      && (forall s | s in spans :: s.end.Some? && l.spans[0].start <= s.start <= s.end.value <= now)
  {
    var spans := RecordStreamStop(l, now).spans;
    StartsAscend(spans, now);
  }

  lemma {:induction false} StartsAscend(spans: seq<Span>, now: int)
    requires WellFormed(spans, now)
    ensures forall i | 0 <= i < |spans| :: spans[0].start <= spans[i].start
    decreases |spans|
  {
    if |spans| > 1 {
      var front := spans[..|spans| - 1];
      StartsAscend(front, now);
      assert front[|front| - 1].start <= spans[|spans| - 1].start;
    }
  }
}
