/**
 * The synchroniser of the streaming server's apps list: what one Sync, AddApp, RemoveApp,
 * RenameApp or ClearAll does to the list of entries. An entry carries the fields the code reads
 * or writes; `rest` stands for every other member of the JSON object.
 */
module SunshineSync {
  import opened Common
  import opened Text

  datatype App = App(
    managed: bool,
    legacy: bool,
    id: Option<string>,
    uuid: Option<string>,
    appId: Option<string>,
    name: Option<string>,
    cmd: string,
    detached: seq<string>,
    imagePath: string,
    workingDir: string,
    rest: string)

  /** A discovered game, with its cached cover and the stable id hashed from its name. */
  datatype Game = Game(
    name: string,
    store: string,
    steamAppId: Option<string>,
    launchId: string,
    storeId: string,
    exePath: string,
    exeDir: string,
    cover: string,
    stableId: string)

  /** The `apps` array. None is a JSON null, which every reader skips. */
  type Doc = seq<Option<App>>

  predicate IsManaged(a: App) {
    a.managed || a.legacy
  }

  predicate ManagedNode(n: Option<App>) {
    n.Some? && IsManaged(n.value)
  }

  predicate ManualNode(n: Option<App>) {
    n.Some? && !IsManaged(n.value)
  }

  function Unwrap(nodes: seq<Option<App>>): (r: seq<App>)
    requires forall n | n in nodes :: n.Some?
    ensures |r| == |nodes| && forall i | 0 <= i < |r| :: r[i] == nodes[i].value
  {
    seq(|nodes|, i requires 0 <= i < |nodes| => nodes[i].value)
  }

  function Wrap(apps: seq<App>): (r: Doc)
    ensures |r| == |apps| && forall i | 0 <= i < |r| :: r[i] == Some(apps[i])
  {
    seq(|apps|, i requires 0 <= i < |apps| => Some(apps[i]))
  }

  function Manual(doc: Doc): (r: seq<App>)
    ensures forall a | a in r :: !IsManaged(a)
  {
    var nodes := Filter(doc, ManualNode);
    assert forall i | 0 <= i < |nodes| :: nodes[i] in nodes;
    Unwrap(nodes)
  }

  function Managed(doc: Doc): (r: seq<App>)
    ensures forall a | a in r :: IsManaged(a)
  {
    var nodes := Filter(doc, ManagedNode);
    assert forall i | 0 <= i < |nodes| :: nodes[i] in nodes;
    Unwrap(nodes)
  }

  function NameOf(a: App): string {
    if a.name.Some? then a.name.value else ""
  }

  predicate Shadowed(manual: seq<App>, name: string) {
    exists a | a in manual :: Fold(NameOf(a)) == Fold(name)
  }

  // ── Launch commands ─────────────────────────────────────────────────────────

  function StoreLaunchUri(store: string, launchId: string): Option<string> {
    if store == "Epic Games" && launchId != ""
    then Some("com.epicgames.launcher://apps/" + launchId + "?action=launch&silent=true")
    else None
  }

  datatype Launch = Launch(cmd: string, detached: string)

  function BuildLaunchCommand(g: Game): Launch {
    if g.store == "Steam" && g.steamAppId.Some? then Launch("", "steam://rungameid/" + g.steamAppId.value)
    else if g.store == "Epic Games" && g.launchId != "" then Launch("", StoreLaunchUri(g.store, g.launchId).value)
    else if g.store == "Epic Games" then Launch("\"" + g.exePath + "\"", "")
    else if g.store == "Xbox" && g.storeId != "" then Launch("", "explorer.exe shell:appsFolder\\" + g.storeId)
    else Launch("\"" + g.exePath + "\"", "")
  }

  function DetachedOf(g: Game): seq<string> {
    var detached := BuildLaunchCommand(g).detached;
    if detached == "" then [] else [detached]
  }

  // ── One Sync ────────────────────────────────────────────────────────────────

  predicate HasAppId(a: App, key: string) {
    a.appId.Some? && a.appId.value != "" && Fold(a.appId.value) == Fold(key)
  }

  predicate HasName(a: App, name: string) {
    NameOf(a) != "" && Fold(NameOf(a)) == Fold(name)
  }

  /** The first-wins index over the app ids. */
  function FirstByAppId(managed: seq<App>, key: string): (r: Option<nat>)
    ensures r.Some? ==> r.value < |managed| && HasAppId(managed[r.value], key)
                        && forall i | 0 <= i < r.value :: !HasAppId(managed[i], key)
    ensures r.None? ==> forall i | 0 <= i < |managed| :: !HasAppId(managed[i], key)
  {
    FirstIndex(managed, (a: App) => HasAppId(a, key))
  }

  /** The first-wins index over the names. */
  function FirstByName(managed: seq<App>, name: string): (r: Option<nat>)
    ensures r.Some? ==> r.value < |managed| && HasName(managed[r.value], name)
                        && forall i | 0 <= i < r.value :: !HasName(managed[i], name)
    ensures r.None? ==> forall i | 0 <= i < |managed| :: !HasName(managed[i], name)
  {
    FirstIndex(managed, (a: App) => HasName(a, name))
  }

  function Match(managed: seq<App>, g: Game): (r: Option<nat>)
    ensures r.Some? ==> r.value < |managed|
  {
    var byId := if g.steamAppId.Some? then FirstByAppId(managed, g.steamAppId.value) else None;
    if byId.Some? then byId else FirstByName(managed, g.name)
  }

  function Updated(a: App, g: Game, uuid: string): App {
    a.(name := Some(g.name),
       cmd := BuildLaunchCommand(g).cmd,
       workingDir := g.exeDir,
       appId := g.steamAppId,
       detached := DetachedOf(g),
       imagePath := if g.cover != "" then g.cover else a.imagePath,
       id := if a.id.None? then Some(g.stableId) else a.id,
       uuid := if a.uuid.None? then Some(uuid) else a.uuid,
       legacy := false,
       managed := true)
  }

  function NewEntry(g: Game, uuid: string): App {
    App(true, false, Some(g.stableId), Some(uuid), g.steamAppId, Some(g.name),
        BuildLaunchCommand(g).cmd, DetachedOf(g), g.cover, g.exeDir, "prep-cmd: []")
  }

  /** What a game asks of the old list. Both indexes are built before any entry is changed. */
  datatype Claim = Hidden | Fresh | Reuse(entry: nat)

  function ClaimOf(manual: seq<App>, managed: seq<App>, g: Game): (c: Claim)
    ensures c.Hidden? <==> Shadowed(manual, g.name)
    ensures c.Reuse? ==> c.entry < |managed| && Match(managed, g) == Some(c.entry)
    ensures c.Fresh? ==> Match(managed, g) == None
  {
    if Shadowed(manual, g.name) then Hidden
    else
      match Match(managed, g)
      case None => Fresh
      case Some(i) => Reuse(i)
  }

  function Claims(manual: seq<App>, managed: seq<App>, games: seq<Game>): (r: seq<Claim>)
    ensures |r| == |games| && forall k | 0 <= k < |r| :: r[k] == ClaimOf(manual, managed, games[k])
  {
    seq(|games|, k requires 0 <= k < |games| => ClaimOf(manual, managed, games[k]))
  }

  /** A place in the new managed list: the game it is for and the old entry it reuses, if any. */
  datatype Slot = Slot(game: nat, from: Option<nat>)

  datatype Round = Round(out: seq<Slot>, used: set<nat>, added: nat)

  function Consider(r: Round, c: Claim, k: nat): Round {
    match c
    case Hidden => r
    case Fresh => Round(r.out + [Slot(k, None)], r.used, r.added + 1)
    case Reuse(i) => if i in r.used then r else Round(r.out + [Slot(k, Some(i))], r.used + {i}, r.added)
  }

  /** A slot answers the claim of its game. */
  predicate Answers(s: Slot, claims: seq<Claim>) {
    s.game < |claims|
    && (claims[s.game] == if s.from.Some? then Reuse(s.from.value) else Fresh)
  }

  /** The first `k` games considered in order. */
  function Rounds(claims: seq<Claim>, k: nat): (r: Round)
    requires k <= |claims|
    ensures forall j | 0 <= j < |r.out| :: r.out[j].game < k && Answers(r.out[j], claims)
  {
    if k == 0 then Round([], {}, 0)
    else Consider(Rounds(claims, k - 1), claims[k - 1], k - 1)
  }

  /** The entry written for a slot; `uuids(k)` is the identifier drawn for game `k`. */
  function Entry(managed: seq<App>, games: seq<Game>, uuids: nat -> string, s: Slot): App
    requires s.game < |games| && (s.from.Some? ==> s.from.value < |managed|)
  {
    if s.from.Some? then Updated(managed[s.from.value], games[s.game], uuids(s.game))
    else NewEntry(games[s.game], uuids(s.game))
  }

  predicate ValidSlots(managed: seq<App>, games: seq<Game>, out: seq<Slot>) {
    forall j | 0 <= j < |out| :: out[j].game < |games| && (out[j].from.Some? ==> out[j].from.value < |managed|)
  }

  function Entries(managed: seq<App>, games: seq<Game>, uuids: nat -> string, out: seq<Slot>): (r: seq<App>)
    requires ValidSlots(managed, games, out)
    ensures |r| == |out| && forall j | 0 <= j < |r| :: r[j] == Entry(managed, games, uuids, out[j])
  {
    seq(|out|, j requires 0 <= j < |out| => Entry(managed, games, uuids, out[j]))
  }

  /** The indices below `n`. */
  function Below(n: nat): (r: set<nat>)
    ensures |r| == n
    ensures forall i: nat :: i in r <==> i < n
  {
    if n == 0 then {} else Below(n - 1) + {n - 1}
  }

  datatype Outcome = Outcome(doc: Doc, added: nat, removed: nat)

  function Matching(doc: Doc, games: seq<Game>): (r: Round)
    ensures ValidSlots(Managed(doc), games, r.out)
  {
    var claims := Claims(Manual(doc), Managed(doc), games);
    var r := Rounds(claims, |games|);
    assert forall j | 0 <= j < |r.out| :: Answers(r.out[j], claims);
    r
  }

  function Sync(doc: Doc, games: seq<Game>, uuids: nat -> string): Outcome {
    var r := Matching(doc, games);
    Outcome(Wrap(Manual(doc) + Entries(Managed(doc), games, uuids, r.out)),
            r.added, |Below(|Managed(doc)|) - r.used|)
  }

  // ── The single-entry edits ──────────────────────────────────────────────────

  predicate NamedNode(n: Option<App>, name: string) {
    n.Some? && n.value.name.Some? && Fold(n.value.name.value) == Fold(name)
  }

  /** AddApp skips a name that any entry already has, managed or not. */
  function AddApp(doc: Doc, g: Game, uuid: string): Doc {
    if exists n | n in doc :: NamedNode(n, g.name) then doc
    else doc + [Some(NewEntry(g, uuid).(appId := None))]
  }

  predicate RemovedBy(n: Option<App>, name: string) {
    ManagedNode(n) && NamedNode(n, name)
  }

  /** RemoveApp drops the managed entries of that name, and the nulls. */
  function RemoveApp(doc: Doc, name: string): Doc {
    Filter(doc, (n: Option<App>) => n.Some? && !RemovedBy(n, name))
  }

  predicate RenamedBy(n: Option<App>, steamAppId: Option<string>, oldName: string) {
    ManagedNode(n) &&
    ((steamAppId.Some? && n.value.appId.Some? && Fold(steamAppId.value) == Fold(n.value.appId.value))
     || NamedNode(n, oldName))
  }

  /** RenameApp renames the first managed entry that matches by app id or by old name. */
  function RenameApp(doc: Doc, steamAppId: Option<string>, oldName: string, newName: string): (r: Doc)
    ensures |r| == |doc|
  {
    match FirstIndex(doc, (n: Option<App>) => RenamedBy(n, steamAppId, oldName))
    case None => doc
    case Some(i) => doc[i := Some(doc[i].value.(name := Some(newName)))]
  }

  function ClearAll(doc: Doc): Doc {
    Filter(doc, ManualNode)
  }
}
