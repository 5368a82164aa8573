/** The session logger as an object: its rows and spans are changed in place by every operation. */
module SessionLoggerObject {
  import opened Common
  import opened Spec = SessionLog

  class SessionLogger {
    var activeSessionId: Option<int>
    var activeSessionStartTime: int
    var activeStreamSpans: seq<Span>
    var rows: seq<Row>
    var recordOnlyGameSessions: bool

    ghost function Model(): Log
      reads this
    {
      Log(activeSessionId, activeSessionStartTime, activeStreamSpans, rows)
    }

    method RecordStreamStart(when: int)
      modifies `activeStreamSpans
      ensures Model() == Spec.RecordStreamStart(old(Model()), when)
    {
      if |activeStreamSpans| > 0 && activeStreamSpans[|activeStreamSpans| - 1].end.None? {
        return;
      }
      activeStreamSpans := activeStreamSpans + [Span(when, None)];
    }

    method RecordStreamStop(when: int)
      modifies `activeStreamSpans
      ensures Model() == Spec.RecordStreamStop(old(Model()), when)
    {
      if |activeStreamSpans| == 0 {
        return;
      }
      var last := |activeStreamSpans| - 1;
      if activeStreamSpans[last].end.None? {
        activeStreamSpans := activeStreamSpans[last := activeStreamSpans[last].(end := Some(when))];
      }
    }

    method StartSession(id: int, now: int)
      modifies `activeSessionId, `activeSessionStartTime, `activeStreamSpans, `rows
      ensures Model() == Spec.StartSession(old(Model()), id, now)
    {
      activeSessionId, activeSessionStartTime := Some(id), now;
      activeStreamSpans := [Span(now, None)];
      rows := [Row(id, now, None, None, false)] + rows;
    }

    method EndSession(now: int, gamesPlayed: bool)
      modifies `activeSessionId, `activeStreamSpans, `rows
      ensures Model() == Spec.EndSession(old(Model()), now, recordOnlyGameSessions, gamesPlayed)
    {
      var sessionId := activeSessionId;
      activeSessionId := None;
      if sessionId.None? {
        CloseOrphan(now);
        return;
      }
      var id := sessionId.value;
      var found := FirstIndexOfId(id);
      if found.None? || rows[found.value].end.Some? {
        return;
      }
      RecordStreamStop(now);
      var spans := if activeStreamSpans == [] then None else Some(activeStreamSpans);
      var entry := rows[found.value].(end := Some(now), spans := spans);
      if now - entry.start < MIN_SESSION_MS || (recordOnlyGameSessions && !entry.debug && !gamesPlayed) {
        rows := RemoveAt(rows, found.value);
        return;
      }
      rows := rows[found.value := entry];
    }

    method FirstIndexOfId(id: int) returns (found: Option<nat>)
      ensures found == ActiveRow(rows, id)
    {
      for i := 0 to |rows|
        invariant forall j | 0 <= j < i :: rows[j].id != id
      {
        if rows[i].id == id {
          FirstIndexUnique(rows, (r: Row) => r.id == id, i);
          return Some(i);
        }
      }
      found := None;
    }

    method CloseOrphan(now: int)
      requires activeSessionId.None?
      modifies `rows
      ensures Model() == RescueOrphan(old(Model()), now)
    {
      for i := 0 to |rows|
        invariant rows == old(rows) && forall j | 0 <= j < i :: rows[j].end.Some?
      {
        if rows[i].end.None? {
          FirstIndexUnique(rows, (r: Row) => r.end.None?, i);
          if now - rows[i].start < MIN_SESSION_MS {
            rows := RemoveAt(rows, i);
          } else {
            rows := rows[i := rows[i].(end := Some(now))];
          }
          return;
        }
      }
    }
  }
}
