/** Reading an entry's command back: what the server will start is the very game it was written for. */
module LaunchCommands {
  import opened Common
  import opened SunshineSync
  import SyncLaws

  /** What a command starts. */
  datatype Target =
    | SteamApp(appId: string)
    | EpicLaunch(launchId: string)
    | XboxPackage(storeId: string)
    | Executable(path: string)

  const STEAM := "steam://rungameid/"
  const EPIC := "com.epicgames.launcher://apps/"
  const EPIC_OPTIONS := "?action=launch&silent=true"
  const SHELL := "explorer.exe shell:appsFolder\\"

  predicate Ends(s: string, suffix: string) {
    |suffix| <= |s| && s[|s| - |suffix|..] == suffix
  }

  /** What a detached command starts, by its own spelling. */
  function ReadDetached(text: string): Option<Target> {
    if STEAM <= text then Some(SteamApp(text[|STEAM|..]))
    else if EPIC <= text && Ends(text[|EPIC|..], EPIC_OPTIONS)
    then Some(EpicLaunch(text[|EPIC|..|text| - |EPIC_OPTIONS|]))
    else if SHELL <= text then Some(XboxPackage(text[|SHELL|..]))
    else None
  }

  /** What an entry starts: its one detached command, or its quoted executable. */
  function ReadTarget(cmd: string, detached: seq<string>): Option<Target> {
    if cmd == "" && |detached| == 1 then ReadDetached(detached[0])
    else if detached == [] && |cmd| >= 2 && cmd[0] == '"' && cmd[|cmd| - 1] == '"'
    then Some(Executable(cmd[1..|cmd| - 1]))
    else None
  }

  /** What a game should be started by: its store's own id where it has one, else its executable. */
  function TargetOf(g: Game): Target {
    if g.store == "Steam" && g.steamAppId.Some? then SteamApp(g.steamAppId.value)
    else if g.store == "Epic Games" && g.launchId != "" then EpicLaunch(g.launchId)
    else if g.store == "Xbox" && g.storeId != "" then XboxPackage(g.storeId)
    else Executable(g.exePath)
  }

  lemma SteamReads(id: string)
    ensures ReadDetached("steam://rungameid/" + id) == Some(SteamApp(id))
  {
  }

  lemma EpicReads(id: string)
    ensures ReadDetached("com.epicgames.launcher://apps/" + id + "?action=launch&silent=true") == Some(EpicLaunch(id))
  {
    var text := EPIC + id + EPIC_OPTIONS;
    assert text[0] == 'c' && STEAM[0] == 's';
    assert text[..|EPIC|] == EPIC && text[|EPIC|..] == id + EPIC_OPTIONS;
  }

  lemma ShellReads(id: string)
    ensures ReadDetached("explorer.exe shell:appsFolder\\" + id) == Some(XboxPackage(id))
  {
    var text := SHELL + id;
    assert text[0] == 'e' && STEAM[0] == 's' && EPIC[0] == 'c';
  }

  lemma ExecutableReads(path: string)
    ensures ReadTarget("\"" + path + "\"", []) == Some(Executable(path))
  {
  }

  /** The command built for a game reads back as that game's own target, for every store. */
  lemma CommandReadsBack(g: Game)
    ensures ReadTarget(BuildLaunchCommand(g).cmd, DetachedOf(g)) == Some(TargetOf(g))
  {
    if g.store == "Steam" && g.steamAppId.Some? {
      SteamReads(g.steamAppId.value);
    } else if g.store == "Epic Games" && g.launchId != "" {
      EpicReads(g.launchId);
    } else if g.store == "Xbox" && g.storeId != "" {
      ShellReads(g.storeId);
    } else {
      ExecutableReads(g.exePath);
    }
  }

  function Starts(a: App): Option<Target> {
    ReadTarget(a.cmd, a.detached)
  }

  /** Every managed entry a Sync leaves starts the game it is named for. */
  lemma SyncedEntriesStartTheirGames(doc: Doc, games: seq<Game>, uuids: nat -> string, j: nat)
    requires j < |Matching(doc, games).out|
    ensures var entries := Managed(Sync(doc, games, uuids).doc);
      && |entries| == |Matching(doc, games).out|
      && var g := games[Matching(doc, games).out[j].game];
         entries[j].name == Some(g.name) && Starts(entries[j]) == Some(TargetOf(g))
  {
    SyncLaws.SyncedLists(doc, games, uuids);
    SyncLaws.SyncedEntries(doc, games, uuids);
    CommandReadsBack(games[Matching(doc, games).out[j].game]);
  }

  /** Games with different targets - Steam games of different app ids, say - never share a command. */
  lemma DifferentGamesStartDifferently(doc: Doc, games: seq<Game>, uuids: nat -> string, i: nat, j: nat)
    requires i < |Matching(doc, games).out| && j < |Matching(doc, games).out|
    requires TargetOf(games[Matching(doc, games).out[i].game]) != TargetOf(games[Matching(doc, games).out[j].game])
    ensures var entries := Managed(Sync(doc, games, uuids).doc);
      && |entries| == |Matching(doc, games).out|
      && (entries[i].cmd != entries[j].cmd || entries[i].detached != entries[j].detached)
  {
    SyncedEntriesStartTheirGames(doc, games, uuids, i);
    SyncedEntriesStartTheirGames(doc, games, uuids, j);
  }

  lemma SteamGamesStartByTheirId(g: Game, other: Game)
    requires g.store == other.store == "Steam" && g.steamAppId.Some? && other.steamAppId.Some?
    ensures TargetOf(g) == TargetOf(other) <==> g.steamAppId == other.steamAppId
    ensures DetachedOf(g) == DetachedOf(other) <==> g.steamAppId == other.steamAppId
  {
    CommandReadsBack(g);
    CommandReadsBack(other);
  }
}
