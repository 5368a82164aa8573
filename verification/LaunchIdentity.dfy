/**
 * From the server's launch line back to the game: resolving a command against the apps list, and
 * the round trip of a synced game through the line the server prints when it launches it.
 */
module LaunchIdentity {
  import opened Common
  import opened Text
  import opened SunshineSync
  import opened StreamingLogMonitor
  import SyncLaws

  function NormalizeCommand(s: string): string {
    var t := Trim(s);
    if |t| >= 2 && t[0] == '"' && t[|t| - 1] == '"' then Trim(t[1..|t| - 1]) else t
  }

  predicate SameCommand(stored: string, wanted: string) {
    Fold(NormalizeCommand(stored)) == Fold(wanted)
  }

  predicate CarriedBy(a: App, wanted: string) {
    SameCommand(a.cmd, wanted) || exists d | d in a.detached :: SameCommand(d, wanted)
  }

  /** The name under which a node carries the (normalised) command, if it has a name and does. */
  function CarrierName(n: Option<App>, wanted: string): Option<string> {
    if n.Some? && NameOf(n.value) != "" && CarriedBy(n.value, wanted) then Some(NameOf(n.value)) else None
  }

  /** The names of the entries that carry the command, node by node. */
  function Carriers(doc: Doc, wanted: string): (r: seq<Option<string>>)
    ensures |r| == |doc| && forall i | 0 <= i < |r| :: r[i] == CarrierName(doc[i], wanted)
  {
    seq(|doc|, i requires 0 <= i < |doc| => CarrierName(doc[i], wanted))
  }

  predicate HasFold(names: seq<string>, name: string) {
    exists n | n in names :: Fold(n) == Fold(name)
  }

  /** The names collected over the first `i` nodes, ignoring repeats up to case. */
  function Matches(carriers: seq<Option<string>>, i: nat): seq<string>
    requires i <= |carriers|
  {
    if i == 0 then []
    else
      var before := Matches(carriers, i - 1);
      var name := carriers[i - 1];
      if name.Some? && !HasFold(before, name.value) then before + [name.value] else before
  }

  function ResolveAppNameForCommand(doc: Doc, command: string): Option<string> {
    var wanted := NormalizeCommand(command);
    var matches := Matches(Carriers(doc, wanted), |doc|);
    if Trim(command) == "" || wanted == "" || |matches| != 1 then None else Some(matches[0])
  }

  method FindCommand(a: App, wanted: string) returns (hit: bool)
    ensures hit == CarriedBy(a, wanted)
  {
    hit := SameCommand(a.cmd, wanted);
    if !hit {
      for d := 0 to |a.detached|
        invariant forall i | 0 <= i < d :: !SameCommand(a.detached[i], wanted)
      {
        if SameCommand(a.detached[d], wanted) {
          return true;
        }
      }
    }
  }

  method CollectMatches(doc: Doc, wanted: string, ghost carriers: seq<Option<string>>) returns (matches: seq<string>)
    requires carriers == Carriers(doc, wanted)
    ensures matches == Matches(carriers, |doc|)
  {
    matches := [];
    for i := 0 to |doc|
      invariant matches == Matches(carriers, i)
    {
      matches := ConsiderNode(doc[i], wanted, matches, carriers, i);
    }
  }

  method ConsiderNode(n: Option<App>, wanted: string, matches: seq<string>,
                      ghost carriers: seq<Option<string>>, ghost i: nat)
    returns (matches': seq<string>)
    requires i < |carriers| && carriers[i] == CarrierName(n, wanted) && matches == Matches(carriers, i)
    ensures matches' == Matches(carriers, i + 1)
  {
    matches' := matches;
    if n.None? || NameOf(n.value) == "" || HasFold(matches, NameOf(n.value)) {
      return;
    }
    var hit := FindCommand(n.value, wanted);
    if hit {
      matches' := matches + [NameOf(n.value)];
    }
  }

  method RunResolveAppNameForCommand(doc: Doc, command: string) returns (name: Option<string>)
    ensures name == ResolveAppNameForCommand(doc, command)
  {
    name := None;
    if Trim(command) == "" { return; }
    var wanted := NormalizeCommand(command);
    if wanted == "" { return; }
    var matches := CollectMatches(doc, wanted, Carriers(doc, wanted));
    if |matches| == 1 {
      return Some(matches[0]);
    }
  }

  // ── What carrying a command means ───────────────────────────────────────────

  /** The stored command is the wanted one once both are stripped of spaces and quotes, in any case. */
  ghost predicate SameStripped(stored: string, wanted: string) {
    exists s | Strips(stored, s) :: Fold(s) == Fold(wanted)
  }

  /** `s` is `text` without the spaces around it, and without one pair of quotes and the spaces inside them. */
  ghost predicate Strips(text: string, s: string) {
    var t := Trim(text);
    if |t| >= 2 && t[0] == t[|t| - 1] == '"' then s == Trim(t[1..|t| - 1]) else s == t
  }

  /** An entry carries a command when its own, or one of its detached ones, is the same once stripped. */
  lemma CarriesIff(n: Option<App>, wanted: string, name: string)
    ensures CarrierName(n, wanted) == Some(name) <==>
      && n.Some? && name != "" && n.value.name == Some(name)
      && (SameStripped(n.value.cmd, wanted) || exists d | d in n.value.detached :: SameStripped(d, wanted))
  {
    if n.Some? {
      StrippedIff(n.value.cmd, wanted);
      forall d | d in n.value.detached ensures SameCommand(d, wanted) <==> SameStripped(d, wanted) {
        StrippedIff(d, wanted);
      }
    }
  }

  lemma StrippedIff(stored: string, wanted: string)
    ensures SameCommand(stored, wanted) <==> SameStripped(stored, wanted)
  {
    assert Strips(stored, NormalizeCommand(stored));
  }

  // ── A resolved name is the only one ─────────────────────────────────────────

  lemma HasFoldStays(names: seq<string>, name: string, extra: string)
    requires HasFold(names, name)
    ensures HasFold(names + [extra], name)
  {
    var n :| n in names && Fold(n) == Fold(name);
    assert n in names + [extra];
  }

  lemma HasFoldOfLast(names: seq<string>, extra: string)
    ensures HasFold(names + [extra], extra)
  {
    assert (names + [extra])[|names|] in names + [extra];
  }

  /** Every carrier's name is among the matches, up to case. */
  lemma {:induction false} MatchesCover(carriers: seq<Option<string>>, i: nat, j: nat)
    requires j < i <= |carriers| && carriers[j].Some?
    ensures HasFold(Matches(carriers, i), carriers[j].value)
  {
    var before, last := Matches(carriers, i - 1), carriers[i - 1];
    if j < i - 1 {
      MatchesCover(carriers, i - 1, j);
      if last.Some? {
        HasFoldStays(before, carriers[j].value, last.value);
      }
    } else if !HasFold(before, last.value) {
      HasFoldOfLast(before, last.value);
    }
  }

  /** Every match is a carrier's name. */
  lemma {:induction false} MatchIsACarrier(carriers: seq<Option<string>>, i: nat, a: nat)
    requires i <= |carriers| && a < |Matches(carriers, i)|
    ensures Some(Matches(carriers, i)[a]) in carriers
  {
    if a < |Matches(carriers, i - 1)| {
      MatchIsACarrier(carriers, i - 1, a);
    }
  }

  /** No two matches are the same name up to case. */
  lemma {:induction false} MatchesAreDistinct(carriers: seq<Option<string>>, i: nat, a: nat, b: nat)
    requires i <= |carriers| && a < b < |Matches(carriers, i)|
    ensures Fold(Matches(carriers, i)[a]) != Fold(Matches(carriers, i)[b])
  {
    var before := Matches(carriers, i - 1);
    if b < |before| {
      MatchesAreDistinct(carriers, i - 1, a, b);
    } else {
      assert before[a] in before;
    }
  }

  /** Some entry carries the command under this name, and every other carrier has it too, up to case. */
  ghost predicate OnlyName(carriers: seq<Option<string>>, name: string) {
    && Some(name) in carriers
    && forall j | 0 <= j < |carriers| && carriers[j].Some? :: Fold(carriers[j].value) == Fold(name)
  }

  /**
   * A command resolves if and only if exactly one name, ignoring case, carries it; and the name
   * it resolves to is one an entry really has.
   */
  lemma ResolvedIffOnlyName(doc: Doc, command: string)
    requires NormalizeCommand(command) != ""
    ensures var carriers := Carriers(doc, NormalizeCommand(command));
      match ResolveAppNameForCommand(doc, command)
      case Some(name) => OnlyName(carriers, name)
      case None => forall name :: !OnlyName(carriers, name)
  {
    var carriers := Carriers(doc, NormalizeCommand(command));
    MatchesDecide(carriers);
  }

  lemma MatchesDecide(carriers: seq<Option<string>>)
    ensures var m := Matches(carriers, |carriers|);
      if |m| == 1 then OnlyName(carriers, m[0]) else forall name :: !OnlyName(carriers, name)
  {
    var n := |carriers|;
    var m := Matches(carriers, n);
    if |m| == 1 {
      MatchIsACarrier(carriers, n, 0);
      forall j | 0 <= j < n && carriers[j].Some? ensures Fold(carriers[j].value) == Fold(m[0]) {
        MatchesCover(carriers, n, j);
      }
    } else if |m| > 1 {
      MatchIsACarrier(carriers, n, 0);
      MatchIsACarrier(carriers, n, 1);
      MatchesAreDistinct(carriers, n, 0, 1);
    } else {
      forall j | 0 <= j < n ensures carriers[j].None? {
        if carriers[j].Some? {
          MatchesCover(carriers, n, j);
        }
      }
    }
  }

  // ── Printing a launch and reading it back ───────────────────────────────────

  /** The command a game is launched with: its detached command, or the bare path of its executable. */
  function LaunchText(g: Game): string {
    var launch := BuildLaunchCommand(g);
    if launch.detached != "" then launch.detached else g.exePath
  }

  /** The server's line for a launch. `head` is whatever precedes it: timestamp and level. */
  function LaunchLine(g: Game, head: string, dir: string): string {
    if BuildLaunchCommand(g).detached != ""
    then head + "Spawning [" + LaunchText(g) + "] in [" + dir + "]"
    else head + "Executing: [\"" + LaunchText(g) + "\"] in [" + dir + "]"
  }

  /**
   * The line can be taken apart again: the marker before the command is the first of its kind on
   * it, and what closes the command does not occur inside it. The directory of the Executing form
   * may be anything; that of the Spawning form must only not spell the other marker out.
   */
  predicate Separable(g: Game, head: string, dir: string) {
    var cmd := LaunchText(g);
    if BuildLaunchCommand(g).detached != "" then
      && !Occurs(head, EXECUTING) && !Occurs(cmd, EXECUTING) && !Occurs(dir, EXECUTING)
      && !Occurs(head, SPAWNING) && !Occurs(cmd, SPAWNED_IN)
    else
      !Occurs(head, EXECUTING) && '"' !in cmd
  }

  lemma MarkerFound(head: string, marker: string, tail: string)
    requires !Occurs(head, marker)
    requires marker != "" && forall i | 0 <= i < |marker| - 1 :: marker[i] != marker[|marker| - 1]
    ensures IndexOf(head + marker + tail, marker, 0) == Some(|head|)
  {
    assert head[0..] == head;
    IndexOfAfter(head, marker, tail, 0);
  }

  lemma ClosedBy(before: string, start: nat, closer: string, rest: string)
    requires start <= |before| && !Occurs(before[start..], closer)
    requires closer != "" && forall i | 0 <= i < |closer| - 1 :: closer[i] != closer[|closer| - 1]
    ensures IndexOf(before + closer + rest, closer, start) == Some(|before|)
    ensures (before + closer + rest)[start..|before|] == before[start..]
  {
    IndexOfAfter(before, closer, rest, start);
  }

  lemma ExecutedLineParses(head: string, cmd: string, rest: string)
    requires !Occurs(head, EXECUTING) && '"' !in cmd && cmd != ""
    ensures TryParseLaunchedCommand(head + EXECUTING + cmd + "\"" + rest) == Some(cmd)
  {
    var before, start := head + EXECUTING + cmd, |head + EXECUTING|;
    assert before[start..] == cmd;
    assert before + "\"" + rest == head + EXECUTING + (cmd + "\"" + rest);
    MarkerFound(head, EXECUTING, cmd + "\"" + rest);
    NoOccurrence(cmd, "\"", '"');
    ClosedBy(before, start, "\"", rest);
  }

  lemma SpawnedLineParses(head: string, cmd: string, rest: string)
    requires !Occurs(head, SPAWNING) && !Occurs(cmd, SPAWNED_IN) && Trim(cmd) != ""
    ensures TryParseSpawnedCommand(head + SPAWNING + cmd + SPAWNED_IN + rest) == Some(Trim(cmd))
  {
    var before, start := head + SPAWNING + cmd, |head + SPAWNING|;
    assert before[start..] == cmd;
    assert before + SPAWNED_IN + rest == head + SPAWNING + (cmd + SPAWNED_IN + rest);
    MarkerFound(head, SPAWNING, cmd + SPAWNED_IN + rest);
    ClosedBy(before, start, SPAWNED_IN, rest);
  }

  lemma TrimTwice(cmd: string)
    ensures NormalizeCommand(Trim(cmd)) == NormalizeCommand(cmd)
  {
    TrimFixed(Trim(cmd));
  }

  /** The words of the Executing form cannot straddle a marker of the Spawning form. */
  lemma NoStraddling(a: string, m: string, b: string)
    requires |m| >= 3 && '"' !in m && m[|m| - 1] == '[' && m[|m| - 3] != ':'
    requires !Occurs(a, EXECUTING) && !Occurs(b, EXECUTING)
    ensures !Occurs(a + m + b, EXECUTING)
  {
    var s, bracket := a + m + b, |a| + |m| - 1;
    forall i: nat | i <= |s| ensures !At(s, EXECUTING, i) {
      if i + 13 <= |a| {
        assert a[i..i + 13] == s[i..i + 13] && !At(a, EXECUTING, i);
      } else if i + 13 > |s| {
      } else if i > bracket {
        var j := i - bracket - 1;
        assert b[j..j + 13] == s[i..i + 13] && !At(b, EXECUTING, j);
      } else if i + 12 <= bracket {
        assert s[i..i + 13][12] == m[i + 12 - |a|] != EXECUTING[12];
      } else if bracket - i == 11 {
        assert s[i..i + 13][9] == m[|m| - 3] != EXECUTING[9];
      } else {
        assert s[i..i + 13][bracket - i] == '[' != EXECUTING[bracket - i];
      }
    }
  }

  lemma ClosingBracketAddsNothing(dir: string)
    requires !Occurs(dir, EXECUTING)
    ensures !Occurs(dir + "]", EXECUTING)
  {
    var s := dir + "]";
    forall i: nat | i <= |s| ensures !At(s, EXECUTING, i) {
      if i + 13 <= |dir| {
        assert dir[i..i + 13] == s[i..i + 13] && !At(dir, EXECUTING, i);
      } else if i + 13 == |s| {
        assert s[i..i + 13][12] == ']' != EXECUTING[12];
      }
    }
  }

  lemma SpawnLineIsNoExecuting(head: string, cmd: string, dir: string)
    requires !Occurs(head, EXECUTING) && !Occurs(cmd, EXECUTING) && !Occurs(dir, EXECUTING)
    ensures TryParseLaunchedCommand(head + SPAWNING + cmd + SPAWNED_IN + (dir + "]")) == None
  {
    ClosingBracketAddsNothing(dir);
    NoStraddling(head, SPAWNING, cmd);
    NoStraddling(head + SPAWNING + cmd, SPAWNED_IN, dir + "]");
  }

  /** The monitor reads back the command the server printed, up to surrounding spaces. */
  lemma LaunchLineParses(g: Game, head: string, dir: string)
    requires Separable(g, head, dir) && Trim(LaunchText(g)) != ""
    ensures var read := LaunchCommandOf(LaunchLine(g, head, dir));
      read.Some? && NormalizeCommand(read.value) == NormalizeCommand(LaunchText(g))
  {
    var cmd := LaunchText(g);
    var line := LaunchLine(g, head, dir);
    if BuildLaunchCommand(g).detached != "" {
      assert line == head + SPAWNING + cmd + SPAWNED_IN + (dir + "]");
      SpawnLineIsNoExecuting(head, cmd, dir);
      SpawnedLineParses(head, cmd, dir + "]");
      TrimTwice(cmd);
    } else {
      assert line == head + EXECUTING + cmd + "\"" + ("] in [" + dir + "]");
      ExecutedLineParses(head, cmd, "] in [" + dir + "]");
    }
  }

  // What the server really prints around the command

  /** The timestamp and level the server puts before its message. */
  function InfoHead(ts: string): string {
    "[" + ts + "]: Info: "
  }

  /** A directory is printed in quotes. `shown` is what stands between them. */
  function Quoted(shown: string): string {
    "\"" + shown + "\""
  }

  lemma InfoHeadIsClean(ts: string)
    requires '[' !in ts
    ensures !Occurs(InfoHead(ts), EXECUTING) && !Occurs(InfoHead(ts), SPAWNING)
  {
    var head := InfoHead(ts);
    assert forall k | 0 < k < |head| :: head[k] != '[';
    forall i: nat | i <= |head| ensures !At(head, EXECUTING, i) && !At(head, SPAWNING, i) {
      if i + 13 <= |head| {
        assert head[i..i + 13][11] == head[i + 11] && EXECUTING[11] == '[';
      }
      if i + 10 <= |head| {
        assert head[i..i + 10][9] == head[i + 9] && SPAWNING[9] == '[';
      }
    }
  }

  lemma QuotesAddNothing(shown: string)
    requires !Occurs(shown, EXECUTING[..12])
    ensures !Occurs(Quoted(shown), EXECUTING)
  {
    var s := Quoted(shown);
    forall i: nat | i <= |s| ensures !At(s, EXECUTING, i) {
      if 0 < i && i + 13 <= |s| {
        assert shown[i - 1..i + 11] == s[i..i + 13][..12] && !At(shown, EXECUTING[..12], i - 1);
      } else if i == 0 {
        assert s[0] == '"' != EXECUTING[0];
      }
    }
  }

  /** The Executing reader gives the command back if and only if it has no quote in it. */
  lemma ExecutedReadsIff(head: string, cmd: string, rest: string)
    requires !Occurs(head, EXECUTING) && cmd != ""
    ensures TryParseLaunchedCommand(head + EXECUTING + cmd + "\"" + rest) == Some(cmd) <==> '"' !in cmd
    ensures cmd[0] != '"' ==> TryParseLaunchedCommand(head + EXECUTING + cmd + "\"" + rest).Some?
  {
    var line, start := head + EXECUTING + cmd + "\"" + rest, |head + EXECUTING|;
    if '"' !in cmd {
      ExecutedLineParses(head, cmd, rest);
    } else {
      assert line == head + EXECUTING + (cmd + "\"" + rest);
      MarkerFound(head, EXECUTING, cmd + "\"" + rest);
      var k :| 0 <= k < |cmd| && cmd[k] == '"';
      assert line[start + k..start + k + 1] == [cmd[k]] == "\"";
      assert At(line, "\"", start + k);
      assert line[start..start + 1] == [cmd[0]];
    }
  }

  /** The Spawning reader gives the command back if and only if it does not spell the closing mark. */
  lemma SpawnedReadsIff(head: string, cmd: string, rest: string)
    requires !Occurs(head, SPAWNING) && Trim(cmd) != ""
    ensures TryParseSpawnedCommand(head + SPAWNING + cmd + SPAWNED_IN + rest) == Some(Trim(cmd))
      <==> !Occurs(cmd, SPAWNED_IN)
  {
    if !Occurs(cmd, SPAWNED_IN) {
      SpawnedLineParses(head, cmd, rest);
    } else {
      var line := head + SPAWNING + cmd + SPAWNED_IN + rest;
      assert line == head + SPAWNING + (cmd + SPAWNED_IN + rest);
      MarkerFound(head, SPAWNING, cmd + SPAWNED_IN + rest);
      TrimKeepsMarks(cmd, SPAWNED_IN);
      ReadHoldsNoMark(line, |head + SPAWNING|);
    }
  }

  /** What the Spawning reader cuts out never holds the closing mark. */
  lemma ReadHoldsNoMark(line: string, start: nat)
    requires start <= |line|
    ensures var end := IndexOf(line, SPAWNED_IN, start);
      end.Some? && start < end.value <= |line| ==> !Occurs(Trim(line[start..end.value]), SPAWNED_IN)
  {
    var end := IndexOf(line, SPAWNED_IN, start);
    if end.Some? && start < end.value <= |line| {
      var text := line[start..end.value];
      TrimKeepsMarks(text, SPAWNED_IN);
      forall i: nat | i <= |text| ensures !At(text, SPAWNED_IN, i) {
        if i + |SPAWNED_IN| <= |text| {
          assert text[i..i + |SPAWNED_IN|] == line[start + i..start + i + |SPAWNED_IN|];
          assert !At(line, SPAWNED_IN, start + i);
        }
      }
    }
  }

  /**
   * What the monitor makes of a printed launch, exactly. A path that does not start with a quote is
   * read back if and only if it has no quote in it; a detached command that does not spell the other
   * form's mark, if and only if it does not spell its own closing mark either.
   */
  lemma PrintedLineReadsIff(g: Game, ts: string, shown: string)
    requires '[' !in ts && !Occurs(shown, EXECUTING[..12]) && Trim(LaunchText(g)) != ""
    requires if BuildLaunchCommand(g).detached != "" then !Occurs(LaunchText(g), EXECUTING) else LaunchText(g)[0] != '"'
    ensures var read := LaunchCommandOf(LaunchLine(g, InfoHead(ts), Quoted(shown)));
      if BuildLaunchCommand(g).detached != ""
      then read == Some(Trim(LaunchText(g))) <==> !Occurs(LaunchText(g), SPAWNED_IN)
      else read == Some(LaunchText(g)) <==> '"' !in LaunchText(g)
  {
    var head, cmd, dir := InfoHead(ts), LaunchText(g), Quoted(shown);
    var line := LaunchLine(g, head, dir);
    InfoHeadIsClean(ts);
    QuotesAddNothing(shown);
    if BuildLaunchCommand(g).detached != "" {
      assert line == head + SPAWNING + cmd + SPAWNED_IN + (dir + "]");
      SpawnLineIsNoExecuting(head, cmd, dir);
      SpawnedReadsIff(head, cmd, dir + "]");
    } else {
      assert line == head + EXECUTING + cmd + "\"" + ("] in [" + dir + "]");
      ExecutedReadsIff(head, cmd, "] in [" + dir + "]");
    }
  }

  /** With the server's own head and its quoted directory, only the command can get in the way. */
  lemma PrintedLineIsSeparable(g: Game, ts: string, shown: string)
    requires '[' !in ts && !Occurs(shown, EXECUTING[..12])
    ensures Separable(g, InfoHead(ts), Quoted(shown)) <==> Printable(g)
  {
    InfoHeadIsClean(ts);
    QuotesAddNothing(shown);
  }

  /** Quotes around a command disappear in normalisation. */
  lemma QuotesAreStripped(path: string)
    requires '"' !in path
    ensures NormalizeCommand("\"" + path + "\"") == NormalizeCommand(path) == Trim(path)
  {
    var quoted := "\"" + path + "\"";
    TrimFixed(quoted);
    assert quoted[1..|quoted| - 1] == path;
    TrimKeeps(path);
  }

  /** The entry a Sync writes for a game carries the command its launch prints. */
  lemma StampedEntryCarries(a: App, g: Game)
    requires SyncLaws.Stamped(a, g) && g.name != ""
    requires BuildLaunchCommand(g).detached == "" ==> '"' !in LaunchText(g)
    ensures CarrierName(Some(a), NormalizeCommand(LaunchText(g))) == Some(g.name)
  {
    if BuildLaunchCommand(g).detached != "" {
      assert a.detached == [LaunchText(g)] && LaunchText(g) in a.detached;
    } else {
      QuotesAreStripped(g.exePath);
    }
  }

  /** The game of the `j`-th managed entry of a synced list. */
  function GameAt(doc: Doc, games: seq<Game>, j: nat): Game
    requires j < |Matching(doc, games).out|
  {
    games[Matching(doc, games).out[j].game]
  }

  /** No differently named entry carries the command. */
  ghost predicate Unambiguous(carriers: seq<Option<string>>, name: string) {
    forall i | 0 <= i < |carriers| && carriers[i].Some? :: Fold(carriers[i].value) == Fold(name)
  }

  /** Some entry of the list has this very name. */
  ghost predicate NameInUse(doc: Doc, name: string) {
    exists i | 0 <= i < |doc| :: doc[i].Some? && NameOf(doc[i].value) == name
  }

  /** A command carried by one name only resolves to it, as some carrier spells it. */
  lemma CarriedNameResolves(doc: Doc, command: string, at: nat, name: string)
    requires NormalizeCommand(command) != ""
    requires at < |doc| && CarrierName(doc[at], NormalizeCommand(command)) == Some(name)
    requires Unambiguous(Carriers(doc, NormalizeCommand(command)), name)
    ensures var r := ResolveAppNameForCommand(doc, command);
      r.Some? && Fold(r.value) == Fold(name) && NameInUse(doc, r.value)
  {
    var carriers := Carriers(doc, NormalizeCommand(command));
    assert carriers[at] == Some(name);
    assert OnlyName(carriers, name);
    ResolvedIffOnlyName(doc, command);
    var r := ResolveAppNameForCommand(doc, command);
    var i :| 0 <= i < |carriers| && carriers[i] == r;
    assert doc[i].Some? && NameOf(doc[i].value) == r.value;
  }

  /** In a settled list of distinct games, only a game's own entry has its name. */
  lemma NamesakeIsTheGame(manual: seq<App>, managed: seq<App>, games: seq<Game>, owners: seq<nat>, j: nat, i: nat)
    requires SyncLaws.DistinctGames(games) && SyncLaws.Settled(manual, managed, games, owners)
    requires j < |owners| && i < |manual| + |managed|
    requires Fold(NameOf((manual + managed)[i])) == Fold(games[owners[j]].name)
    ensures NameOf((manual + managed)[i]) == games[owners[j]].name
  {
    assert !Shadowed(manual, games[owners[j]].name);
    assert forall a | 0 <= a < |manual| :: manual[a] in manual;
    assert i >= |manual| ==> SyncLaws.Stamped((manual + managed)[i], games[owners[i - |manual|]]);
  }

  /**
   * End-to-end identity. Take any list a Sync has written and any game with an entry in it. If no
   * differently named entry carries the game's command, then the line the server prints when it
   * launches the game, read by the monitor and resolved, gives back that game's name - exactly,
   * when the games' names are distinct.
   */
  lemma LaunchIsIdentified(doc: Doc, games: seq<Game>, uuids: nat -> string, j: nat, head: string, dir: string)
    requires j < |Matching(doc, games).out|
    requires var g := GameAt(doc, games, j);
      && g.name != "" && NormalizeCommand(LaunchText(g)) != "" && Separable(g, head, dir)
      && Unambiguous(Carriers(Sync(doc, games, uuids).doc, NormalizeCommand(LaunchText(g))), g.name)
    ensures var g := GameAt(doc, games, j);
      var read := LaunchCommandOf(LaunchLine(g, head, dir));
      && read.Some?
      && var name := ResolveAppNameForCommand(Sync(doc, games, uuids).doc, read.value);
         name.Some? && Fold(name.value) == Fold(g.name)
         && (SyncLaws.DistinctGames(games) ==> name.value == g.name)
  {
    var g := GameAt(doc, games, j);
    LaunchLineParses(g, head, dir);
    var manual, managed := Manual(doc), SyncLaws.Synced(doc, games, uuids);
    var owners := SyncLaws.Owners(Matching(doc, games).out);
    SyncLaws.SyncSettles(doc, games, uuids);
    assert Sync(doc, games, uuids).doc == Wrap(manual + managed);
    var command := LaunchCommandOf(LaunchLine(g, head, dir)).value;
    StampedEntryCarries(managed[j], g);
    LaunchResolves(manual, managed, j, g.name, command, NormalizeCommand(LaunchText(g)));
    if SyncLaws.DistinctGames(games) {
      SpelledAsTheGame(manual, managed, games, owners, j,
                       ResolveAppNameForCommand(Wrap(manual + managed), command).value);
    }
  }

  /** What a launch must spell for its printed line to be read back: nothing of the line's own marks. */
  predicate Printable(g: Game) {
    if BuildLaunchCommand(g).detached != ""
    then !Occurs(LaunchText(g), EXECUTING) && !Occurs(LaunchText(g), SPAWNED_IN)
    else '"' !in LaunchText(g)
  }

  /**
   * The same for the line as the server prints it: behind its own timestamp and level, with the
   * directory in quotes. The executable's path may hold brackets, the directory almost anything.
   */
  lemma PrintedLaunchIsIdentified(doc: Doc, games: seq<Game>, uuids: nat -> string, j: nat, ts: string, shown: string)
    requires j < |Matching(doc, games).out| && '[' !in ts && !Occurs(shown, EXECUTING[..12])
    requires var g := GameAt(doc, games, j);
      && g.name != "" && NormalizeCommand(LaunchText(g)) != "" && Printable(g)
      && Unambiguous(Carriers(Sync(doc, games, uuids).doc, NormalizeCommand(LaunchText(g))), g.name)
    ensures var g := GameAt(doc, games, j);
      var read := LaunchCommandOf(LaunchLine(g, InfoHead(ts), Quoted(shown)));
      && read.Some?
      && var name := ResolveAppNameForCommand(Sync(doc, games, uuids).doc, read.value);
         name.Some? && Fold(name.value) == Fold(g.name)
         && (SyncLaws.DistinctGames(games) ==> name.value == g.name)
  {
    PrintedLineIsSeparable(GameAt(doc, games, j), ts, shown);
    LaunchIsIdentified(doc, games, uuids, j, InfoHead(ts), Quoted(shown));
  }

  /** The entry of a settled list that has the name of a game up to case has it exactly. */
  lemma SpelledAsTheGame(manual: seq<App>, managed: seq<App>, games: seq<Game>, owners: seq<nat>, j: nat, name: string)
    requires SyncLaws.DistinctGames(games) && SyncLaws.Settled(manual, managed, games, owners) && j < |owners|
    requires Fold(name) == Fold(games[owners[j]].name) && NameInUse(Wrap(manual + managed), name)
    ensures name == games[owners[j]].name
  {
    var doc := Wrap(manual + managed);
    var i :| 0 <= i < |doc| && doc[i].Some? && NameOf(doc[i].value) == name;
    assert doc[i].value == (manual + managed)[i];
    NamesakeIsTheGame(manual, managed, games, owners, j, i);
  }

  lemma LaunchResolves(manual: seq<App>, managed: seq<App>, j: nat, name: string, command: string, wanted: string)
    requires j < |managed| && wanted == NormalizeCommand(command) != ""
    requires CarrierName(Some(managed[j]), wanted) == Some(name)
    requires Unambiguous(Carriers(Wrap(manual + managed), wanted), name)
    ensures var doc := Wrap(manual + managed);
      var resolved := ResolveAppNameForCommand(doc, command);
      resolved.Some? && Fold(resolved.value) == Fold(name) && NameInUse(doc, resolved.value)
  {
    var doc := Wrap(manual + managed);
    assert doc[|manual| + j] == Some(managed[j]);
    CarriedNameResolves(doc, command, |manual| + j, name);
  }
}
