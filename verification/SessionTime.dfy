/** What the session history says of time: when spans open and close, and how much was streamed. */
module SessionTime {
  import opened Common
  import opened SessionLog

  // ── One event ───────────────────────────────────────────────────────────────

  /** A stop ends the open span at the moment of the event and touches nothing else. */
  lemma StopEndsTheSpan(l: Log, when: int)
    ensures var after, n := RecordStreamStop(l, when), |l.spans|;
      && after == l.(spans := after.spans) && |after.spans| == n
      && (LastOpen(l.spans) ==>
            after.spans[n - 1] == Span(l.spans[n - 1].start, Some(when)) && after.spans[..n - 1] == l.spans[..n - 1])
      && (!LastOpen(l.spans) ==> after == l)
  {
  }

  /** A start opens a span at the moment of the event, unless one is open. */
  lemma StartOpensASpan(l: Log, when: int)
    ensures var after := RecordStreamStart(l, when);
      && after == l.(spans := after.spans)
      && after.spans == if LastOpen(l.spans) then l.spans else l.spans + [Span(when, None)]
  {
  }

  /** A session starts with one open span and an open row in front of all others, both from now. */
  lemma SessionOpens(l: Log, id: int, now: int)
    ensures var after := StartSession(l, id, now);
      && after.activeId == Some(id) && after.activeStart == now && after.spans == [Span(now, None)]
      && |after.rows| == |l.rows| + 1 && after.rows[1..] == l.rows
      && after.rows[0].id == id && after.rows[0].start == now && after.rows[0].end.None? && !after.rows[0].debug
  {
  }

  /** Row `i` is the one the end of the session closes. */
  predicate ClosesRow(l: Log, i: nat) {
    && l.activeId.Some? && i < |l.rows| && l.rows[i].id == l.activeId.value && l.rows[i].end.None?
    && forall j | 0 <= j < i :: l.rows[j].id != l.activeId.value
  }

  /**
   * The end of a session. Nobody owns the log any more, an open span ends now, and the row is kept,
   * ended now and with its spans, exactly when it lasted a minute and is one the user wants.
   */
  lemma SessionCloses(l: Log, i: nat, now: int, onlyGames: bool, gamesPlayed: bool)
    requires ClosesRow(l, i) && l.spans != []
    ensures var after, row := EndSession(l, now, onlyGames, gamesPlayed), l.rows[i];
      && after.activeId.None? && after.spans == RecordStreamStop(l, now).spans
      && after.rows ==
         if now - row.start >= 60_000 && (!onlyGames || row.debug || gamesPlayed)
         then l.rows[i := Row(row.id, row.start, Some(now), Some(after.spans), row.debug)]
         else l.rows[..i] + l.rows[i + 1..]
  {
    FirstIndexUnique(l.rows, (r: Row) => r.id == l.activeId.value, i);
  }

  /** With no session active the newest open row is closed now, or removed if it is under a minute. */
  lemma OrphanCloses(l: Log, i: nat, now: int, onlyGames: bool, gamesPlayed: bool)
    requires l.activeId.None? && i < |l.rows| && l.rows[i].end.None?
    requires forall j | 0 <= j < i :: l.rows[j].end.Some?
    ensures var after := EndSession(l, now, onlyGames, gamesPlayed);
      && after == l.(rows := after.rows)
      && after.rows == if now - l.rows[i].start >= 60_000 then l.rows[i := l.rows[i].(end := Some(now))]
                       else l.rows[..i] + l.rows[i + 1..]
  {
    FirstIndexUnique(l.rows, (r: Row) => r.end.None?, i);
  }

  /** Clearing forgets the rows from the cutoff on, but never the active session's, and no span. */
  lemma ClearForgetsTheRecent(l: Log, cutoff: int)
    ensures var after := ClearSince(l, cutoff);
      && after == l.(rows := after.rows)
      && forall r :: r in after.rows <==> r in l.rows && (l.activeId == Some(r.id) || r.start < cutoff)
  {
    FilterHasAll(l.rows, (r: Row) => l.activeId == Some(r.id) || r.start < cutoff);
  }

  // ── A whole session ─────────────────────────────────────────────────────────

  /** What can happen to the log while its session lasts. */
  predicate DuringSession(ops: seq<LogOp>) {
    forall i | 0 <= i < |ops| :: ops[i].LogStreamStart? || ops[i].LogStreamStop? || ops[i].LogClear?
  }

  /** Whether the stream is live after the events, starting live. */
  function LiveAfter(ops: seq<LogOp>): bool {
    if ops == [] then true
    else
      var last := ops[|ops| - 1];
      if last.LogStreamStart? then true else if last.LogStreamStop? then false else LiveAfter(ops[..|ops| - 1])
  }

  /** How long the stream was live from `t0` to `until`, read off the events and their times alone. */
  function LiveTime(t0: int, ops: seq<LogOp>, until: int): int {
    if ops == [] then until - t0
    else
      var last := ops[|ops| - 1];
      LiveTime(t0, ops[..|ops| - 1], last.now) + if LiveAfter(ops) then until - last.now else 0
  }

  /** The length of the spans, an open one counted up to `until`. */
  function SpanTime(spans: seq<Span>, until: int): int {
    if spans == [] then 0
    else
      var last := spans[|spans| - 1];
      SpanTime(spans[..|spans| - 1], until) + (if last.end.Some? then last.end.value else until) - last.start
  }

  predicate OnlyLastOpen(spans: seq<Span>) {
    forall i | 0 <= i < |spans| - 1 :: spans[i].end.Some?
  }

  lemma {:induction false} ClosedTimeStands(spans: seq<Span>, a: int, b: int)
    requires forall i | 0 <= i < |spans| :: spans[i].end.Some?
    ensures SpanTime(spans, a) == SpanTime(spans, b)
  {
    if spans != [] {
      ClosedTimeStands(spans[..|spans| - 1], a, b);
    }
  }

  lemma TimePasses(spans: seq<Span>, a: int, b: int)
    requires OnlyLastOpen(spans)
    ensures SpanTime(spans, b) == SpanTime(spans, a) + if LastOpen(spans) then b - a else 0
  {
    if spans != [] {
      ClosedTimeStands(spans[..|spans| - 1], a, b);
    }
  }

  /** An event changes what is open, not what has been streamed up to its moment. */
  lemma EventKeepsTime(l: Log, op: LogOp)
    requires op.LogStreamStart? || op.LogStreamStop? || op.LogClear?
    requires l.spans != [] && OnlyLastOpen(l.spans)
    ensures var after := LogAfter(l, op);
      && after.spans != [] && OnlyLastOpen(after.spans) && SpanTime(after.spans, op.now) == SpanTime(l.spans, op.now)
      && LastOpen(after.spans) == (op.LogStreamStart? || (!op.LogStreamStop? && LastOpen(l.spans)))
      && after.activeId == l.activeId
  {
    var after, n := LogAfter(l, op), |l.spans|;
    if op.LogStreamStop? && LastOpen(l.spans) {
      assert after.spans[..n - 1] == l.spans[..n - 1];
    } else if op.LogStreamStart? && !LastOpen(l.spans) {
      assert after.spans[..n] == l.spans;
    }
  }

  lemma {:induction false} EndStateOneMore(l: Log, ops: seq<LogOp>)
    requires ops != []
    ensures LogEndState(l, ops) == LogAfter(LogEndState(l, ops[..|ops| - 1]), ops[|ops| - 1])
    decreases |ops|
  {
    if |ops| > 1 {
      EndStateOneMore(LogAfter(l, ops[0]), ops[1..]);
      assert ops[1..][..|ops| - 2] == ops[..|ops| - 1][1..];
    }
  }

  /**
   * The spans measure the stream. Over every session, whatever starts, stops and clears come: the
   * last span is open exactly while the stream is live, and the spans together are as long as the
   * stream was live by the times of the events.
   */
  lemma {:induction false} SpansMeasureTheStream(l: Log, id: int, t0: int, ops: seq<LogOp>, until: int)
    requires DuringSession(ops)
    ensures var end := LogEndState(StartSession(l, id, t0), ops);
      && end.activeId == Some(id) && end.spans != [] && OnlyLastOpen(end.spans)
      && LastOpen(end.spans) == LiveAfter(ops) && SpanTime(end.spans, until) == LiveTime(t0, ops, until)
  {
    var started := StartSession(l, id, t0);
    if ops == [] {
      assert started.spans[..0] == [];
    } else {
      var front, last := ops[..|ops| - 1], ops[|ops| - 1];
      SpansMeasureTheStream(l, id, t0, front, last.now);
      EndStateOneMore(started, ops);
      EventKeepsTime(LogEndState(started, front), last);
      TimePasses(LogEndState(started, ops).spans, last.now, until);
    }
  }

  lemma {:induction false} StreamedIsSpanTime(spans: seq<Span>, until: int)
    requires forall s | s in spans :: s.end.Some?
    ensures Streamed(spans) == SpanTime(spans, until)
  {
    if spans != [] {
      StreamedIsSpanTime(spans[..|spans| - 1], until);
    }
  }

  lemma StopClosesAll(l: Log, now: int)
    requires l.spans != [] && OnlyLastOpen(l.spans)
    ensures var spans := RecordStreamStop(l, now).spans;
      && (forall s | s in spans :: s.end.Some?) && |spans| == |l.spans|
      && SpanTime(spans, now) == SpanTime(l.spans, now)
      && (LastOpen(l.spans) ==> spans[|spans| - 1].end == Some(now))
  {
    var spans, n := RecordStreamStop(l, now).spans, |l.spans|;
    assert spans[..n - 1] == l.spans[..n - 1];
  }

  /**
   * The row of a session that is kept carries exactly its streamed time: the total of its spans is
   * how long the stream was live, and a stream still live at the end is ended with the session.
   */
  lemma KeptRowMeasuresTheStream(l: Log, id: int, t0: int, ops: seq<LogOp>, i: nat, now: int,
                                 onlyGames: bool, gamesPlayed: bool)
    requires DuringSession(ops)
    requires ClosesRow(LogEndState(StartSession(l, id, t0), ops), i)
    ensures
      var before := LogEndState(StartSession(l, id, t0), ops);
      var after := EndSession(before, now, onlyGames, gamesPlayed);
      && (forall s | s in after.spans :: s.end.Some?) && after.spans != []
      && Streamed(after.spans) == LiveTime(t0, ops, now)
      && (LiveAfter(ops) ==> after.spans[|after.spans| - 1].end == Some(now))
      && (now - before.rows[i].start >= 60_000 && (!onlyGames || before.rows[i].debug || gamesPlayed) ==>
            after.rows[i].spans == Some(after.spans) && after.rows[i].end == Some(now))
  {
    var before := LogEndState(StartSession(l, id, t0), ops);
    SpansMeasureTheStream(l, id, t0, ops, now);
    SessionCloses(before, i, now, onlyGames, gamesPlayed);
    StopClosesAll(before, now);
    StreamedIsSpanTime(RecordStreamStop(before, now).spans, now);
  }
}
