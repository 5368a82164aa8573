/** Classifying one line of the streaming server's log. */
module LogParser {
  import opened Common
  import opened Text

  datatype StreamingEvent = NoEvent | StreamStarted | StreamStopped

  const LEVEL_PREFIXES: seq<string> := ["Verbose: ", "Debug: ", "Info: ", "Warning: ", "Error: ", "Fatal: "]

  const START_MARKERS: seq<string> :=
    ["CLIENT CONNECTED", "Starting stream", "Stream started", "session_history: begin_session"]

  const STOP_MARKERS: seq<string> :=
    ["CLIENT DISCONNECTED", "Session ended", "Stream ended", "Stream stopped", "Stopping stream",
     "session_history: end_session"]

  const MAX_TAGS := 2

  function StripTimestamp(s: string): string {
    match IndexOf(s, "]: ", 0)
    case None => s
    case Some(ts) => s[ts + 3..]
  }

  function StripLevel(s: string): string {
    match First(LEVEL_PREFIXES, (prefix: string) => StartsWithFold(s, prefix))
    case None => s
    case Some(prefix) => s[|prefix|..]
  }

  /** Where a leading `[tag] ` ends, if the message opens with one. */
  function TagEnd(s: string): (r: Option<nat>)
    ensures r.Some? ==> 1 < r.value < |s|
  {
    if s == "" || s[0] != '[' then None
    else
      match IndexOf(s, "]", 0)
      case None => None
      case Some(close) => if close + 1 >= |s| || s[close + 1] != ' ' then None else Some(close + 1)
  }

  function StripTags(s: string, tags: nat): string
    decreases tags
  {
    if tags == 0 || TagEnd(s).None? then s
    else StripTags(TrimStart(s[TagEnd(s).value..]), tags - 1)
  }

  function ExtractMessage(line: string): string {
    StripTags(TrimStart(StripLevel(StripTimestamp(line))), MAX_TAGS)
  }

  predicate StartsWithMarker(message: string, markers: seq<string>) {
    exists marker | marker in markers :: StartsWithFold(message, marker)
  }

  function Classify(message: string): StreamingEvent {
    if StartsWithMarker(message, STOP_MARKERS) then StreamStopped
    else if StartsWithMarker(message, START_MARKERS) then StreamStarted
    else NoEvent
  }

  function ParseLogLine(line: string): StreamingEvent {
    if Trim(line) == "" then NoEvent else Classify(ExtractMessage(line))
  }

  // ── The loops ───────────────────────────────────────────────────────────────

  method RunExtractMessage(logLine: string) returns (s: string)
    ensures s == ExtractMessage(logLine)
  {
    s := logLine;
    var ts := IndexOf(s, "]: ", 0);
    if ts.Some? {
      s := s[ts.value + 3..];
    }
    s := RunStripLevel(s);
    s := TrimStart(s);
    s := RunStripTags(s);
  }

  method RunStripLevel(message: string) returns (s: string)
    ensures s == StripLevel(message)
  {
    s := message;
    for level := 0 to |LEVEL_PREFIXES|
      invariant s == message && StripLevel(message) == LevelFrom(message, level)
    {
      if StartsWithFold(s, LEVEL_PREFIXES[level]) {
        return s[|LEVEL_PREFIXES[level]|..];
      }
    }
  }

  method RunStripTags(message: string) returns (s: string)
    ensures s == StripTags(message, MAX_TAGS)
  {
    s := message;
    var i := 0;
    while i < MAX_TAGS && s != "" && s[0] == '['
      invariant i <= MAX_TAGS
      invariant StripTags(message, MAX_TAGS) == StripTags(s, MAX_TAGS - i)
      decreases MAX_TAGS - i
    {
      var close := IndexOf(s, "]", 0);
      if close.None? || close.value + 1 >= |s| || s[close.value + 1] != ' ' {
        break;
      }
      s := TrimStart(s[close.value + 1..]);
      i := i + 1;
    }
  }

  /** StripLevel with the first `level` prefixes already ruled out. */
  ghost function LevelFrom(s: string, level: nat): string
    requires level <= |LEVEL_PREFIXES|
  {
    match First(LEVEL_PREFIXES[level..], (prefix: string) => StartsWithFold(s, prefix))
    case None => s
    case Some(prefix) => s[|prefix|..]
  }

  // ── Anchoring ───────────────────────────────────────────────────────────────

  /** Spaces, and at most `tags` bracketed tags each followed by a space: all a header may hold. */
  predicate IsHeader(h: string, tags: nat)
    decreases |h|, tags
  {
    || h == ""
    || (IsSpace(h[0]) && IsHeader(h[1..], tags))
    || (tags > 0 && TagEnd(h).Some? && IsHeader(h[TagEnd(h).value..], tags - 1))
  }

  /** How a server writes a line: `ts]: Level: [tag] message`, up to two tags. */
  function Render(ts: string, level: string, tags: seq<string>, message: string): string {
    ts + "]: " + (level + RenderTagged(tags, message))
  }

  function RenderTagged(tags: seq<string>, message: string): string {
    if tags == [] then message else "[" + tags[0] + "] " + RenderTagged(tags[1..], message)
  }

  /** A message that is not itself mistaken for a tag or for leading space. */
  predicate Bare(message: string) {
    message != "" && !IsSpace(message[0]) && message[0] != '['
  }

  ghost predicate Renderable(ts: string, level: string, tags: seq<string>, message: string) {
    ']' !in ts && level in LEVEL_PREFIXES && |tags| <= MAX_TAGS && (forall t | t in tags :: ']' !in t) && Bare(message)
  }

  lemma TagIsStripped(tag: string, inner: string)
    requires ']' !in tag
    ensures var s := "[" + tag + "] " + inner;
      TagEnd(s) == Some(|tag| + 2) && s[|tag| + 2..] == " " + inner
  {
    var open := "[" + tag;
    var s := "[" + tag + "] " + inner;
    assert s == open + "]" + (" " + inner);
    NoOccurrence(open, "]", ']');
    assert open[0..] == open;
    IndexOfAfter(open, "]", " " + inner, 0);
  }

  lemma SpaceIsTrimmed(inner: string)
    requires TrimStart(inner) == inner
    ensures TrimStart(" " + inner) == inner
  {
    assert (" " + inner)[1..] == inner;
  }

  lemma OneTagIsStripped(tag: string, inner: string, n: nat)
    requires ']' !in tag && TrimStart(inner) == inner && n > 0
    ensures var s := "[" + tag + "] " + inner;
      TrimStart(s) == s && StripTags(s, n) == StripTags(inner, n - 1)
  {
    TagIsStripped(tag, inner);
    SpaceIsTrimmed(inner);
  }

  lemma {:induction false} TagsAreStripped(tags: seq<string>, message: string, n: nat)
    requires |tags| <= n && (forall t | t in tags :: ']' !in t) && Bare(message)
    ensures TrimStart(RenderTagged(tags, message)) == RenderTagged(tags, message)
    ensures StripTags(RenderTagged(tags, message), n) == message
    decreases |tags|
  {
    if tags != [] {
      TagsAreStripped(tags[1..], message, n - 1);
      OneTagIsStripped(tags[0], RenderTagged(tags[1..], message), n);
    }
  }

  lemma LevelIsStripped(level: string, rest: string)
    requires level in LEVEL_PREFIXES
    ensures StripLevel(level + rest) == rest
  {
    var s := level + rest;
    assert s[..|level|] == level && StartsWithFold(s, level);
    var found := First(LEVEL_PREFIXES, (prefix: string) => StartsWithFold(s, prefix));
    assert found.Some?;
    if found.value != level {
      assert Upper(found.value[0]) != Upper(level[0]);
      DiffersAt(s, found.value, 0);
    }
  }

  /** Whatever the level and the tags, the message that comes out is the one that was written. */
  lemma RenderedMessageIsExtracted(ts: string, level: string, tags: seq<string>, message: string)
    requires Renderable(ts, level, tags, message)
    ensures ExtractMessage(Render(ts, level, tags, message)) == message
    ensures ParseLogLine(Render(ts, level, tags, message)) == Classify(message)
  {
    var body := level + RenderTagged(tags, message);
    TimestampIsStripped(ts, body);
    LevelIsStripped(level, RenderTagged(tags, message));
    TagsAreStripped(tags, message, MAX_TAGS);
    NotBlank(Render(ts, level, tags, message), |ts|);
  }

  lemma {:induction false} NotBlank(s: string, i: nat)
    requires i < |s| && !IsSpace(s[i])
    ensures Trim(s) != ""
    decreases |s|
  {
    if IsSpace(s[0]) {
      NotBlank(s[1..], i - 1);
    } else {
      FrontSurvives(s);
    }
  }

  lemma {:induction false} FrontSurvives(s: string)
    requires s != "" && !IsSpace(s[0])
    ensures TrimEnd(s) != ""
    decreases |s|
  {
    if IsSpace(s[|s| - 1]) {
      FrontSurvives(s[..|s| - 1]);
    }
  }

  /**
   * Anchoring, on every line that carries a timestamp: a line raises an event only if its marker
   * stands where the message starts - after the timestamp, the level, and nothing but spaces and
   * at most two tags. Anywhere else it raises nothing.
   */
  lemma MarkersAreAnchored(ts: string, rest: string) returns (header: string)
    requires ']' !in ts
    ensures var line := ts + "]: " + rest;
      && header <= StripLevel(rest) && IsHeader(header, MAX_TAGS)
      && ExtractMessage(line) == StripLevel(rest)[|header|..]
      && (ParseLogLine(line) != NoEvent ==>
            StartsWithMarker(StripLevel(rest)[|header|..], STOP_MARKERS)
            || StartsWithMarker(StripLevel(rest)[|header|..], START_MARKERS))
  {
    TimestampIsStripped(ts, rest);
    header := WholeHeader(StripLevel(rest));
  }

  lemma TimestampIsStripped(ts: string, rest: string)
    requires ']' !in ts
    ensures StripTimestamp(ts + "]: " + rest) == rest
  {
    NoOccurrence(ts, "]: ", ']');
    assert ts[0..] == ts;
    IndexOfAfter(ts, "]: ", rest, 0);
  }

  lemma WholeHeader(body: string) returns (header: string)
    ensures header <= body && IsHeader(header, MAX_TAGS)
    ensures StripTags(TrimStart(body), MAX_TAGS) == body[|header|..]
  {
    var spaces := TrimStartDropsSpaces(body);
    var inner := HeaderOf(body[spaces..], MAX_TAGS);
    SpacesExtendHeader(body[..spaces], inner, MAX_TAGS);
    header := body[..spaces] + inner;
    assert body[spaces..][|inner|..] == body[|header|..];
  }

  lemma {:induction false} SpacesExtendHeader(spaces: string, h: string, tags: nat)
    requires IsHeader(h, tags) && forall i | 0 <= i < |spaces| :: IsSpace(spaces[i])
    ensures IsHeader(spaces + h, tags)
  {
    if spaces != "" {
      SpacesExtendHeader(spaces[1..], h, tags);
      assert (spaces + h)[1..] == spaces[1..] + h;
    } else {
      assert spaces + h == h;
    }
  }

  lemma TagExtendsHeader(s: string, tail: string, tags: nat)
    requires tags > 0 && TagEnd(s).Some? && tail <= s[TagEnd(s).value..] && tail != ""
    requires IsHeader(tail, tags - 1)
    ensures var h := s[..TagEnd(s).value] + tail; h <= s && IsHeader(h, tags)
  {
    var h := s[..TagEnd(s).value] + tail;
    assert h == s[..|h|];
    TagEndIsLocal(s, h);
    assert h[TagEnd(s).value..] == tail;
  }

  lemma SlicesJoin(s: string, end: nat, spaces: nat, inner: string)
    requires end + spaces <= |s| && inner <= s[end + spaces..]
    ensures var tail := s[end..end + spaces] + inner;
      && tail <= s[end..] && s[..end] + tail == s[..end + spaces] + inner <= s
      && s[end + spaces..][|inner|..] == s[end + spaces + |inner|..]
  {
  }

  /** A tag, the spaces after it and a header make a header. */
  lemma TagSpacesHeader(s: string, end: nat, spaces: nat, inner: string, tags: nat)
    requires tags > 0 && TagEnd(s) == Some(end) && end + spaces <= |s|
    requires forall i | end <= i < end + spaces :: IsSpace(s[i])
    requires inner <= s[end + spaces..] && IsHeader(inner, tags - 1) && spaces > 0
    ensures var h := s[..end + spaces] + inner;
      h <= s && IsHeader(h, tags) && s[end + spaces..][|inner|..] == s[|h|..]
  {
    var run := s[end..end + spaces];
    SlicesJoin(s, end, spaces, inner);
    SpacesExtendHeader(run, inner, tags - 1);
    TagExtendsHeader(s, run + inner, tags);
  }

  lemma SpaceAfterTag(s: string)
    requires TagEnd(s).Some?
    ensures s[TagEnd(s).value] == ' '
  {
  }

  /** What StripTags takes off the front is a header. */
  lemma {:induction false} HeaderOf(s: string, tags: nat) returns (h: string)
    ensures h <= s && IsHeader(h, tags) && StripTags(s, tags) == s[|h|..]
    decreases tags
  {
    if tags == 0 || TagEnd(s).None? {
      h := "";
    } else {
      var end := TagEnd(s).value;
      SpaceAfterTag(s);
      var spaces := TrimStartDropsSpaces(s[end..]);
      assert s[end..][spaces..] == s[end + spaces..];
      var inner := HeaderOf(s[end + spaces..], tags - 1);
      TagSpacesHeader(s, end, spaces, inner, tags);
      h := s[..end + spaces] + inner;
    }
  }

  /** The end of a leading tag does not depend on what follows the space after it. */
  lemma TagEndIsLocal(s: string, h: string)
    requires h <= s && TagEnd(s).Some? && TagEnd(s).value < |h|
    ensures TagEnd(h) == TagEnd(s)
  {
    var close := TagEnd(s).value - 1;
    assert At(s, "]", close);
    assert h[close..close + 1] == s[close..close + 1];
    forall i: nat | i < close ensures !At(h, "]", i) {
      assert !At(s, "]", i) && h[i..i + 1] == s[i..i + 1];
    }
    IndexOfUnique(h, "]", 0, close);
  }

  // ── The markers themselves ──────────────────────────────────────────────────

  /** The wordings that end a session. */
  predicate EndsASession(message: string) {
    || StartsWithFold(message, "CLIENT DISCONNECTED") || StartsWithFold(message, "Session ended")
    || StartsWithFold(message, "Stream ended") || StartsWithFold(message, "Stream stopped")
    || StartsWithFold(message, "Stopping stream") || StartsWithFold(message, "session_history: end_session")
  }

  /** The wordings that begin one. */
  predicate BeginsASession(message: string) {
    || StartsWithFold(message, "CLIENT CONNECTED") || StartsWithFold(message, "Starting stream")
    || StartsWithFold(message, "Stream started") || StartsWithFold(message, "session_history: begin_session")
  }

  lemma StopMarkerIff(message: string)
    ensures StartsWithMarker(message, STOP_MARKERS) <==> EndsASession(message)
  {
    var m := STOP_MARKERS;
    assert m[0] == "CLIENT DISCONNECTED" && m[1] == "Session ended" && m[2] == "Stream ended";
    assert m[3] == "Stream stopped" && m[4] == "Stopping stream" && m[5] == "session_history: end_session";
    assert forall i | 0 <= i < 6 :: m[i] in m;
  }

  lemma StartMarkerIff(message: string)
    ensures StartsWithMarker(message, START_MARKERS) <==> BeginsASession(message)
  {
    var m := START_MARKERS;
    assert m[0] == "CLIENT CONNECTED" && m[1] == "Starting stream" && m[2] == "Stream started";
    assert m[3] == "session_history: begin_session";
    assert forall i | 0 <= i < 4 :: m[i] in m;
  }

  /** A message stops exactly with the six wordings, and starts exactly with the four when it does not stop. */
  lemma ClassifiedIff(message: string)
    ensures Classify(message) == StreamStopped <==> EndsASession(message)
    ensures Classify(message) == StreamStarted <==> BeginsASession(message) && !EndsASession(message)
  {
    StopMarkerIff(message);
    StartMarkerIff(message);
  }

  lemma PrefixFolds(marker: string, detail: string)
    ensures StartsWithFold(marker + detail, marker)
  {
    assert (marker + detail)[..|marker|] == marker;
  }

  /** Each of the ten wordings, followed by anything, is what it should be. */
  lemma EveryMarkerCounts(detail: string)
    ensures Classify("CLIENT DISCONNECTED" + detail) == StreamStopped
    ensures Classify("Session ended" + detail) == StreamStopped
    ensures Classify("Stream ended" + detail) == StreamStopped
    ensures Classify("Stream stopped" + detail) == StreamStopped
    ensures Classify("Stopping stream" + detail) == StreamStopped
    ensures Classify("session_history: end_session" + detail) == StreamStopped
    ensures Classify("CLIENT CONNECTED" + detail) == StreamStarted
    ensures Classify("Starting stream" + detail) == StreamStarted
    ensures Classify("Stream started" + detail) == StreamStarted
    ensures Classify("session_history: begin_session" + detail) == StreamStarted
  {
    EveryStopCounts(detail);
    ConnectedStarts(detail);
    StartingStarts(detail);
    StartedStarts(detail);
    BeginStarts(detail);
  }

  lemma StopCounts(marker: string, detail: string)
    requires EndsASession(marker)
    ensures Classify(marker + detail) == StreamStopped
  {
    ClassifiedIff(marker + detail);
    LongerStillFolds(marker, detail);
  }

  lemma LongerStillFolds(marker: string, detail: string)
    ensures EndsASession(marker) ==> EndsASession(marker + detail)
  {
    FoldsLonger(marker, detail, "CLIENT DISCONNECTED");
    FoldsLonger(marker, detail, "Session ended");
    FoldsLonger(marker, detail, "Stream ended");
    FoldsLonger(marker, detail, "Stream stopped");
    FoldsLonger(marker, detail, "Stopping stream");
    FoldsLonger(marker, detail, "session_history: end_session");
  }

  lemma FoldsLonger(s: string, detail: string, prefix: string)
    ensures StartsWithFold(s, prefix) ==> StartsWithFold(s + detail, prefix)
  {
    if StartsWithFold(s, prefix) {
      assert (s + detail)[..|prefix|] == s[..|prefix|];
    }
  }

  lemma EveryStopCounts(detail: string)
    ensures Classify("CLIENT DISCONNECTED" + detail) == StreamStopped
    ensures Classify("Session ended" + detail) == StreamStopped
    ensures Classify("Stream ended" + detail) == StreamStopped
    ensures Classify("Stream stopped" + detail) == StreamStopped
    ensures Classify("Stopping stream" + detail) == StreamStopped
    ensures Classify("session_history: end_session" + detail) == StreamStopped
  {
    WholeFolds("CLIENT DISCONNECTED");
    StopCounts("CLIENT DISCONNECTED", detail);
    WholeFolds("Session ended");
    StopCounts("Session ended", detail);
    WholeFolds("Stream ended");
    StopCounts("Stream ended", detail);
    WholeFolds("Stream stopped");
    StopCounts("Stream stopped", detail);
    WholeFolds("Stopping stream");
    StopCounts("Stopping stream", detail);
    WholeFolds("session_history: end_session");
    StopCounts("session_history: end_session", detail);
  }

  lemma WholeFolds(s: string)
    ensures StartsWithFold(s, s)
  {
    assert s[..|s|] == s;
  }

  /** No stop wording has these letters in these places. */
  lemma NoStop(message: string)
    requires |message| > 9
    requires
      || (message[0] == 'C' && message[7] == 'C')
      || (message[0] == 'S' && message[1] == 't' && message[2] == 'a')
      || (message[0] == 'S' && message[1] == 't' && message[2] == 'r' && message[7] == 's' && message[9] == 'a')
    ensures !EndsASession(message)
  {
    if message[0] == 'C' {
      DiffersAt(message, "CLIENT DISCONNECTED", 7);
      DiffersAt(message, "Session ended", 0);
      DiffersAt(message, "Stream ended", 0);
      DiffersAt(message, "Stream stopped", 0);
      DiffersAt(message, "Stopping stream", 0);
      DiffersAt(message, "session_history: end_session", 0);
    } else {
      DiffersAt(message, "CLIENT DISCONNECTED", 0);
      DiffersAt(message, "Session ended", 1);
      DiffersAt(message, "Stream ended", if message[2] == 'a' then 2 else 7);
      DiffersAt(message, "Stream stopped", if message[2] == 'a' then 2 else 9);
      DiffersAt(message, "Stopping stream", 2);
      DiffersAt(message, "session_history: end_session", 1);
    }
  }

  lemma ConnectedStarts(detail: string)
    ensures Classify("CLIENT CONNECTED" + detail) == StreamStarted
  {
    var message := "CLIENT CONNECTED" + detail;
    PrefixFolds("CLIENT CONNECTED", detail);
    assert message[0] == 'C' && message[7] == 'C';
    NoStop(message);
    ClassifiedIff(message);
  }

  lemma StartingStarts(detail: string)
    ensures Classify("Starting stream" + detail) == StreamStarted
  {
    var message := "Starting stream" + detail;
    PrefixFolds("Starting stream", detail);
    assert message[0] == 'S' && message[1] == 't' && message[2] == 'a';
    NoStop(message);
    ClassifiedIff(message);
  }

  lemma StartedStarts(detail: string)
    ensures Classify("Stream started" + detail) == StreamStarted
  {
    var message := "Stream started" + detail;
    PrefixFolds("Stream started", detail);
    assert message[0] == 'S' && message[1] == 't' && message[2] == 'r' && message[7] == 's' && message[9] == 'a';
    NoStop(message);
    ClassifiedIff(message);
  }

  lemma BeginStarts(detail: string)
    ensures Classify("session_history: begin_session" + detail) == StreamStarted
  {
    var message := "session_history: begin_session" + detail;
    PrefixFolds("session_history: begin_session", detail);
    assert message[0] == 's' && message[1] == 'e' && message[7] == '_' && message[17] == 'b';
    DiffersAt(message, "CLIENT DISCONNECTED", 0);
    DiffersAt(message, "Session ended", 7);
    DiffersAt(message, "Stream ended", 1);
    DiffersAt(message, "Stream stopped", 1);
    DiffersAt(message, "Stopping stream", 1);
    DiffersAt(message, "session_history: end_session", 17);
    ClassifiedIff(message);
  }

  /** The six levels of the server's log are all taken off. */
  lemma EveryLevelIsStripped(ts: string, tags: seq<string>, message: string)
    requires ']' !in ts && |tags| <= 2 && (forall t | t in tags :: ']' !in t) && Bare(message)
    ensures forall level | level in ["Verbose: ", "Debug: ", "Info: ", "Warning: ", "Error: ", "Fatal: "] ::
      ParseLogLine(Render(ts, level, tags, message)) == Classify(message)
  {
    forall level | level in ["Verbose: ", "Debug: ", "Info: ", "Warning: ", "Error: ", "Fatal: "]
      ensures ParseLogLine(Render(ts, level, tags, message)) == Classify(message)
    {
      RenderedMessageIsExtracted(ts, level, tags, message);
    }
  }
}
