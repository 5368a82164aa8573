/**
 * What the synchroniser promises about the list as a whole: conservation, the untouched manual
 * entries, and convergence in at most two rounds.
 */
module SyncLaws {
  import opened Common
  import opened Text
  import opened SunshineSync

  // ── The books of a round ────────────────────────────────────────────────────

  predicate Ordered(out: seq<Slot>) {
    forall i, j | 0 <= i < j < |out| ::
      out[i].game < out[j].game && (out[i].from.Some? ==> out[i].from != out[j].from)
  }

  /** Every place in the new list is either an addition or the one use of an old entry. */
  predicate Balanced(r: Round) {
    && |r.out| == r.added + |r.used|
    && (forall j | 0 <= j < |r.out| && r.out[j].from.Some? :: r.out[j].from.value in r.used)
    && Ordered(r.out)
  }

  lemma {:induction false} RoundsBalance(claims: seq<Claim>, k: nat)
    requires k <= |claims|
    ensures Balanced(Rounds(claims, k))
  {
    if k > 0 {
      RoundsBalance(claims, k - 1);
    }
  }

  lemma {:induction false} UsedWereClaimed(claims: seq<Claim>, k: nat)
    requires k <= |claims|
    ensures forall i: nat :: i in Rounds(claims, k).used <==> Reuse(i) in claims[..k]
  {
    if k > 0 {
      UsedWereClaimed(claims, k - 1);
      assert claims[..k] == claims[..k - 1] + [claims[k - 1]];
    }
  }

  // ── The entries a round writes ──────────────────────────────────────────────

  /** The entry is exactly what a Sync of `g` leaves, apart from its identifiers and its old image. */
  predicate Stamped(a: App, g: Game) {
    && a.managed && !a.legacy && a.id.Some? && a.uuid.Some?
    && a.name == Some(g.name) && a.appId == g.steamAppId
    && a.cmd == BuildLaunchCommand(g).cmd && a.detached == DetachedOf(g) && a.workingDir == g.exeDir
    && (g.cover != "" ==> a.imagePath == g.cover)
  }

  lemma EntryIsStamped(managed: seq<App>, games: seq<Game>, uuids: nat -> string, s: Slot)
    requires s.game < |games| && (s.from.Some? ==> s.from.value < |managed|)
    ensures Stamped(Entry(managed, games, uuids, s), games[s.game])
  {
  }

  lemma StampIsFixed(a: App, g: Game, uuid: string)
    requires Stamped(a, g)
    ensures Updated(a, g, uuid) == a
  {
  }

  function Synced(doc: Doc, games: seq<Game>, uuids: nat -> string): seq<App> {
    Entries(Managed(doc), games, uuids, Matching(doc, games).out)
  }

  lemma SyncedEntries(doc: Doc, games: seq<Game>, uuids: nat -> string)
    ensures var out := Matching(doc, games).out;
      forall j | 0 <= j < |out| ::
        Stamped(Synced(doc, games, uuids)[j], games[out[j].game]) && !Shadowed(Manual(doc), games[out[j].game].name)
  {
    var out := Matching(doc, games).out;
    forall j | 0 <= j < |out|
      ensures Stamped(Synced(doc, games, uuids)[j], games[out[j].game])
      ensures !Shadowed(Manual(doc), games[out[j].game].name)
    {
      EntryIsStamped(Managed(doc), games, uuids, out[j]);
      assert Answers(out[j], Claims(Manual(doc), Managed(doc), games));
    }
  }

  lemma SyncedLists(doc: Doc, games: seq<Game>, uuids: nat -> string)
    ensures Manual(Sync(doc, games, uuids).doc) == Manual(doc)
    ensures Managed(Sync(doc, games, uuids).doc) == Synced(doc, games, uuids)
  {
    SyncedEntries(doc, games, uuids);
    ListsOfWrap(Manual(doc), Synced(doc, games, uuids));
  }

  lemma ListsOfWrap(manual: seq<App>, managed: seq<App>)
    requires forall a | a in manual :: !IsManaged(a)
    requires forall j | 0 <= j < |managed| :: IsManaged(managed[j])
    ensures Manual(Wrap(manual + managed)) == manual && Managed(Wrap(manual + managed)) == managed
  {
    assert Wrap(manual + managed) == Wrap(manual) + Wrap(managed);
    assert Filter(Wrap(manual + managed), ManualNode) == Wrap(manual) by {
      FilterConcat(Wrap(manual), Wrap(managed), ManualNode);
      FilterAll(Wrap(manual), ManualNode);
      FilterNone(Wrap(managed), ManualNode);
    }
    assert Filter(Wrap(manual + managed), ManagedNode) == Wrap(managed) by {
      FilterConcat(Wrap(manual), Wrap(managed), ManagedNode);
      FilterNone(Wrap(manual), ManagedNode);
      FilterAll(Wrap(managed), ManagedNode);
    }
  }

  /**
   * Conservation: entries in, entries out and the two counts balance; no old entry is reused
   * twice; and no managed name hides behind a manual one.
   */
  lemma SyncConserves(doc: Doc, games: seq<Game>, uuids: nat -> string)
    ensures var o := Sync(doc, games, uuids);
      && |Managed(o.doc)| + o.removed == o.added + |Managed(doc)|
      && Ordered(Matching(doc, games).out)
      && (forall a | a in Managed(o.doc) :: !Shadowed(Manual(o.doc), NameOf(a)))
  {
    var n := |Managed(doc)|;
    var r := Matching(doc, games);
    RoundsBalance(Claims(Manual(doc), Managed(doc), games), |games|);
    SyncedLists(doc, games, uuids);
    SyncedEntries(doc, games, uuids);
    UsedWereClaimed(Claims(Manual(doc), Managed(doc), games), |games|);
    UnusedCount(n, r.used);
  }

  lemma UnusedCount(n: nat, used: set<nat>)
    requires used <= Below(n)
    ensures |Below(n) - used| == n - |used|
  {
    assert (Below(n) - used) + used == Below(n);
  }

  // ── The manual entries are never touched ────────────────────────────────────

  /** An edit of the list; `written` says whether the file could be replaced. */
  datatype Edit =
    | EditSync(games: seq<Game>, uuids: nat -> string)
    | EditAdd(game: Game, uuid: string)
    | EditRemove(name: string)
    | EditRename(steamAppId: Option<string>, oldName: string, newName: string)
    | EditClear
    | EditFailed

  function Apply(doc: Doc, e: Edit): Doc {
    match e
    case EditSync(games, uuids) => Sync(doc, games, uuids).doc
    case EditAdd(game, uuid) => AddApp(doc, game, uuid)
    case EditRemove(name) => RemoveApp(doc, name)
    case EditRename(steamAppId, oldName, newName) => RenameApp(doc, steamAppId, oldName, newName)
    case EditClear => ClearAll(doc)
    case EditFailed => doc
  }

  function ApplyAll(doc: Doc, edits: seq<Edit>): Doc {
    if edits == [] then doc else Apply(ApplyAll(doc, edits[..|edits| - 1]), edits[|edits| - 1])
  }

  lemma {:induction false} FilterFilter<T>(s: seq<T>, p: T -> bool, q: T -> bool)
    requires forall x | x in s && p(x) :: q(x)
    ensures Filter(Filter(s, q), p) == Filter(s, p)
  {
    if s != [] {
      FilterFilter(s[1..], p, q);
      FilterConcat(if q(s[0]) then [s[0]] else [], Filter(s[1..], q), p);
    }
  }

  lemma RenameKeepsManual(doc: Doc, i: nat, a: App)
    requires i < |doc| && ManagedNode(doc[i]) && IsManaged(a)
    ensures Filter(doc[i := Some(a)], ManualNode) == Filter(doc, ManualNode)
  {
    var front, back := doc[..i], doc[i + 1..];
    assert doc == front + [doc[i]] + back && doc[i := Some(a)] == front + [Some(a)] + back;
    FilterConcat(front + [doc[i]], back, ManualNode);
    FilterConcat(front, [doc[i]], ManualNode);
    FilterConcat(front + [Some(a)], back, ManualNode);
    FilterConcat(front, [Some(a)], ManualNode);
  }

  lemma AppendKeepsManual(doc: Doc, a: App)
    requires IsManaged(a)
    ensures Manual(doc + [Some(a)]) == Manual(doc)
  {
    FilterConcat(doc, [Some(a)], ManualNode);
  }

  lemma RemoveKeepsManual(doc: Doc, name: string)
    ensures Manual(RemoveApp(doc, name)) == Manual(doc)
  {
    FilterFilter(doc, ManualNode, (n: Option<App>) => n.Some? && !RemovedBy(n, name));
  }

  lemma EditKeepsManual(doc: Doc, e: Edit)
    ensures Manual(Apply(doc, e)) == Manual(doc)
  {
    match e
    case EditSync(games, uuids) => SyncedLists(doc, games, uuids);
    case EditAdd(game, uuid) =>
      AppendKeepsManual(doc, NewEntry(game, uuid).(appId := None));
    case EditRemove(name) =>
      RemoveKeepsManual(doc, name);
    case EditRename(steamAppId, oldName, newName) =>
      var found := FirstIndex(doc, (n: Option<App>) => RenamedBy(n, steamAppId, oldName));
      if found.Some? {
        RenameKeepsManual(doc, found.value, doc[found.value].value.(name := Some(newName)));
      }
    case EditClear =>
      FilterAll(Filter(doc, ManualNode), ManualNode);
    case EditFailed =>
  }

  /** Whatever is done to the list, the hand-made entries keep their content and their order. */
  lemma {:induction false} ManualEntriesAreUntouched(doc: Doc, edits: seq<Edit>)
    ensures Manual(ApplyAll(doc, edits)) == Manual(doc)
  {
    if edits != [] {
      var front := edits[..|edits| - 1];
      ManualEntriesAreUntouched(doc, front);
      EditKeepsManual(ApplyAll(doc, front), edits[|edits| - 1]);
    }
  }

  // ── Convergence ─────────────────────────────────────────────────────────────

  ghost predicate DistinctGames(games: seq<Game>) {
    && (forall g | g in games :: g.name != "")
    && (forall i, j | 0 <= i < j < |games| :: Fold(games[i].name) != Fold(games[j].name))
    && (forall i, j | 0 <= i < j < |games| && games[i].steamAppId.Some? && games[j].steamAppId.Some? ::
          Fold(games[i].steamAppId.value) != Fold(games[j].steamAppId.value))
  }

  /** The games, in order, that no manual entry shadows. */
  function Open(manual: seq<App>, games: seq<Game>, k: nat): (r: seq<nat>)
    requires k <= |games|
    ensures forall j | 0 <= j < |r| :: r[j] < k
  {
    if k == 0 then []
    else Open(manual, games, k - 1) + (if Shadowed(manual, games[k - 1].name) then [] else [k - 1])
  }

  function OpenClaims(claims: seq<Claim>, k: nat): seq<nat>
    requires k <= |claims|
  {
    if k == 0 then []
    else OpenClaims(claims, k - 1) + (if claims[k - 1].Hidden? then [] else [k - 1])
  }

  function Owners(out: seq<Slot>): (r: seq<nat>)
    ensures |r| == |out| && forall i | 0 <= i < |r| :: r[i] == out[i].game
  {
    seq(|out|, i requires 0 <= i < |out| => out[i].game)
  }

  /** The managed list left by a Sync: entry `j` is the stamp of game `owners[j]`, in game order. */
  ghost predicate Settled(manual: seq<App>, managed: seq<App>, games: seq<Game>, owners: seq<nat>) {
    && |owners| == |managed|
    && (forall j | 0 <= j < |owners| ::
          owners[j] < |games| && Stamped(managed[j], games[owners[j]]) && !Shadowed(manual, games[owners[j]].name))
    && (forall i, j | 0 <= i < j < |owners| :: owners[i] < owners[j])
  }

  lemma SyncSettles(doc: Doc, games: seq<Game>, uuids: nat -> string)
    ensures Settled(Manual(doc), Synced(doc, games, uuids), games, Owners(Matching(doc, games).out))
  {
    SyncedEntries(doc, games, uuids);
    RoundsBalance(Claims(Manual(doc), Managed(doc), games), |games|);
  }

  /** On a settled list a game can only match its own entry, and does when it has one. */
  lemma SettledMatch(manual: seq<App>, managed: seq<App>, games: seq<Game>, owners: seq<nat>, k: nat)
    requires DistinctGames(games) && Settled(manual, managed, games, owners) && k < |games|
    ensures match Match(managed, games[k])
      case Some(j) => owners[j] == k
      case None => k !in owners
  {
    var g := games[k];
    forall j | 0 <= j < |managed| && owners[j] != k
      ensures !HasName(managed[j], g.name)
      ensures g.steamAppId.Some? ==> !HasAppId(managed[j], g.steamAppId.value)
    {
      var lo, hi := if owners[j] < k then owners[j] else k, if owners[j] < k then k else owners[j];
      assert Fold(games[lo].name) != Fold(games[hi].name);
    }
    forall j | 0 <= j < |managed| && owners[j] == k ensures HasName(managed[j], g.name) {
      assert g in games;
    }
  }

  /** What the claims of a settled list look like. */
  ghost predicate SettledClaims(claims: seq<Claim>, owners: seq<nat>) {
    && (forall j | 0 <= j < |owners| :: owners[j] < |claims| && claims[owners[j]] == Reuse(j))
    && (forall k | 0 <= k < |claims| && claims[k].Reuse? :: claims[k].entry < |owners| && owners[claims[k].entry] == k)
  }

  lemma SettledListHasSettledClaims(manual: seq<App>, managed: seq<App>, games: seq<Game>, owners: seq<nat>)
    requires DistinctGames(games) && Settled(manual, managed, games, owners)
    ensures SettledClaims(Claims(manual, managed, games), owners)
  {
    var claims := Claims(manual, managed, games);
    forall j | 0 <= j < |owners| ensures claims[owners[j]] == Reuse(j) {
      SettledMatch(manual, managed, games, owners, owners[j]);
    }
    forall k | 0 <= k < |claims| && claims[k].Reuse?
      ensures claims[k].entry < |owners| && owners[claims[k].entry] == k
    {
      SettledMatch(manual, managed, games, owners, k);
    }
  }

  /** Where a Sync over a settled list stands before game `k`. */
  ghost predicate Resynced(r: Round, claims: seq<Claim>, owners: seq<nat>, k: nat)
    requires k <= |claims|
  {
    && Owners(r.out) == OpenClaims(claims, k)
    && forall j: nat :: j in r.used <==> j < |owners| && owners[j] < k
  }

  lemma ResyncStep(r: Round, claims: seq<Claim>, owners: seq<nat>, k: nat)
    requires SettledClaims(claims, owners) && k < |claims| && Resynced(r, claims, owners, k)
    ensures Resynced(Consider(r, claims[k], k), claims, owners, k + 1)
  {
    var r' := Consider(r, claims[k], k);
    assert forall j: nat | j < |owners| && owners[j] == k :: claims[k] == Reuse(j);
    assert Owners(r'.out) == OpenClaims(claims, k + 1);
  }

  /**
   * A Sync over a settled list, game by game: every game that has an entry keeps it, every open
   * game without one gets one, in game order, and no entry is left over.
   */
  lemma {:induction false} ResyncRound(claims: seq<Claim>, owners: seq<nat>, k: nat)
    requires SettledClaims(claims, owners) && k <= |claims|
    ensures Resynced(Rounds(claims, k), claims, owners, k)
  {
    if k > 0 {
      ResyncRound(claims, owners, k - 1);
      ResyncStep(Rounds(claims, k - 1), claims, owners, k - 1);
    }
  }

  /** When the list already has every open game, each slot reuses the entry at its own place. */
  lemma {:induction false} CompleteRound(claims: seq<Claim>, k: nat)
    requires SettledClaims(claims, OpenClaims(claims, |claims|)) && k <= |claims|
    ensures Rounds(claims, k).added == 0
    ensures var out := Rounds(claims, k).out; forall j | 0 <= j < |out| :: out[j].from == Some(j)
  {
    var owners := OpenClaims(claims, |claims|);
    ResyncRound(claims, owners, k);
    if k > 0 {
      CompleteRound(claims, k - 1);
      ResyncRound(claims, owners, k - 1);
      if !claims[k - 1].Hidden? {
        OpenPrefix(claims, k, |claims|);
        assert owners[|OpenClaims(claims, k - 1)|] == OpenClaims(claims, k)[|OpenClaims(claims, k - 1)|] == k - 1;
      }
    }
  }

  lemma {:induction false} OpenPrefix(claims: seq<Claim>, k: nat, n: nat)
    requires k <= n <= |claims|
    ensures OpenClaims(claims, k) <= OpenClaims(claims, n)
  {
    if k < n {
      OpenPrefix(claims, k, n - 1);
    }
  }

  lemma {:induction false} OpenAsClaims(manual: seq<App>, managed: seq<App>, games: seq<Game>, k: nat)
    requires k <= |games|
    ensures OpenClaims(Claims(manual, managed, games), k) == Open(manual, games, k)
  {
    if k > 0 {
      OpenAsClaims(manual, managed, games, k - 1);
    }
  }

  /** The second Sync: nothing removed, every open game present. */
  lemma SecondSyncIsComplete(doc: Doc, games: seq<Game>, owners: seq<nat>, uuids: nat -> string)
    requires DistinctGames(games) && Settled(Manual(doc), Managed(doc), games, owners)
    ensures Sync(doc, games, uuids).removed == 0
    ensures Settled(Manual(doc), Synced(doc, games, uuids), games, Open(Manual(doc), games, |games|))
  {
    var claims := Claims(Manual(doc), Managed(doc), games);
    SettledListHasSettledClaims(Manual(doc), Managed(doc), games, owners);
    ResyncRound(claims, owners, |games|);
    OpenAsClaims(Manual(doc), Managed(doc), games, |games|);
    SyncSettles(doc, games, uuids);
    assert Below(|Managed(doc)|) - Matching(doc, games).used == {};
  }

  lemma EntriesUnchanged(managed: seq<App>, games: seq<Game>, uuids: nat -> string, owners: seq<nat>, out: seq<Slot>)
    requires |out| == |owners| == |managed| && ValidSlots(managed, games, out)
    requires forall j | 0 <= j < |out| :: out[j] == Slot(owners[j], Some(j))
    requires forall j | 0 <= j < |out| :: Stamped(managed[j], games[out[j].game])
    ensures Entries(managed, games, uuids, out) == managed
  {
    forall j | 0 <= j < |out| ensures Entry(managed, games, uuids, out[j]) == managed[j] {
      StampIsFixed(managed[j], games[out[j].game], uuids(out[j].game));
    }
  }

  /** Over a complete list each slot is an old entry in its old place, and all of them are used. */
  lemma CompleteRoundIs(claims: seq<Claim>, owners: seq<nat>)
    requires owners == OpenClaims(claims, |claims|) && SettledClaims(claims, owners)
    ensures var r := Rounds(claims, |claims|);
      && r.added == 0 && |r.out| == |owners| && Below(|owners|) - r.used == {}
      && forall j | 0 <= j < |r.out| :: r.out[j] == Slot(owners[j], Some(j))
  {
    ResyncRound(claims, owners, |claims|);
    CompleteRound(claims, |claims|);
    var out := Rounds(claims, |claims|).out;
    assert Owners(out) == owners;
    assert forall j | 0 <= j < |out| :: out[j].game == Owners(out)[j];
  }

  /** A Sync over a complete list: nothing changes at all. */
  lemma CompleteListIsFixed(manual: seq<App>, managed: seq<App>, games: seq<Game>, uuids: nat -> string)
    requires DistinctGames(games) && Settled(manual, managed, games, Open(manual, games, |games|))
    requires forall a | a in manual :: !IsManaged(a)
    ensures Sync(Wrap(manual + managed), games, uuids) == Outcome(Wrap(manual + managed), 0, 0)
  {
    ListsOfWrap(manual, managed);
    var claims, owners := Claims(manual, managed, games), Open(manual, games, |games|);
    OpenAsClaims(manual, managed, games, |games|);
    SettledListHasSettledClaims(manual, managed, games, owners);
    CompleteRoundIs(claims, owners);
    EntriesUnchanged(managed, games, uuids, owners, Matching(Wrap(manual + managed), games).out);
  }

  /**
   * Convergence. From any list at all, with a fixed list of games: the second Sync removes nothing
   * and leaves exactly one entry per game that no manual entry shadows, in game order; the third
   * changes nothing - not a field, not an identifier - and reports (0, 0).
   */
  lemma SyncConverges(doc: Doc, games: seq<Game>, u1: nat -> string, u2: nat -> string, u3: nat -> string)
    requires DistinctGames(games)
    ensures
      var first := Sync(doc, games, u1);
      var second := Sync(first.doc, games, u2);
      && second.removed == 0
      && Settled(Manual(doc), Managed(second.doc), games, Open(Manual(doc), games, |games|))
      && Sync(second.doc, games, u3) == Outcome(second.doc, 0, 0)
  {
    var first := Sync(doc, games, u1).doc;
    SyncedLists(doc, games, u1);
    SyncSettles(doc, games, u1);
    SyncedLists(first, games, u2);
    SecondSyncIsComplete(first, games, Owners(Matching(doc, games).out), u2);
    CompleteListIsFixed(Manual(first), Synced(first, games, u2), games, u3);
  }

  /**
   * An entry that is reused keeps whichever of id and uuid it has, and has both afterwards; it keeps
   * its image unless the game has a cover, and everything else a Sync does not own.
   */
  lemma KeptEntriesKeepTheirIdentity(doc: Doc, games: seq<Game>, uuids: nat -> string, j: nat)
    requires j < |Matching(doc, games).out| && Matching(doc, games).out[j].from.Some?
    requires Matching(doc, games).out[j].from.value < |Managed(doc)|
    ensures var before, after := Managed(doc)[Matching(doc, games).out[j].from.value], Synced(doc, games, uuids)[j];
      var g := games[Matching(doc, games).out[j].game];
      && (before.id.Some? ==> after.id == before.id) && (before.uuid.Some? ==> after.uuid == before.uuid)
      && (before.id.None? ==> after.id == Some(g.stableId)) && after.uuid.Some?
      && after.imagePath == (if g.cover != "" then g.cover else before.imagePath) && after.rest == before.rest
  {
  }

  /** A new entry carries the game's stable id, the identifier drawn for it, and its cover. */
  lemma NewEntriesGetTheirs(doc: Doc, games: seq<Game>, uuids: nat -> string, j: nat)
    requires j < |Matching(doc, games).out| && Matching(doc, games).out[j].from.None?
    ensures var k, after := Matching(doc, games).out[j].game, Synced(doc, games, uuids)[j];
      after.id == Some(games[k].stableId) && after.uuid == Some(uuids(k)) && after.imagePath == games[k].cover
  {
  }

  // ── What a match and a shadow are ───────────────────────────────────────────

  /** The entry has the app id of the game, in any case. */
  predicate SameAppId(a: App, g: Game) {
    && g.steamAppId.Some? && a.appId.Some? && a.appId.value != ""
    && Fold(a.appId.value) == Fold(g.steamAppId.value)
  }

  /** The entry has the name of the game, in any case. */
  predicate SameName(a: App, g: Game) {
    a.name.Some? && a.name.value != "" && Fold(a.name.value) == Fold(g.name)
  }

  /** A game takes the first old entry with its app id, whatever its name; without one, the first with its name. */
  lemma MatchMeans(managed: seq<App>, g: Game)
    ensures var byId := exists a | a in managed :: SameAppId(a, g);
      match Match(managed, g)
      case Some(i) =>
        if byId then SameAppId(managed[i], g) && forall k | 0 <= k < i :: !SameAppId(managed[k], g)
        else SameName(managed[i], g) && forall k | 0 <= k < i :: !SameName(managed[k], g)
      case None => !byId && forall a | a in managed :: !SameName(a, g)
  {
    assert forall i | 0 <= i < |managed| :: managed[i] in managed;
  }

  /** The games a Sync keeps entries for are those no hand-made entry has the name of, in any case. */
  lemma {:induction false} OpenIff(manual: seq<App>, games: seq<Game>, n: nat, k: nat)
    requires n <= |games|
    ensures k in Open(manual, games, n) <==>
      k < n && forall a | a in manual :: Fold(if a.name.Some? then a.name.value else "") != Fold(games[k].name)
  {
    if n > 0 {
      OpenIff(manual, games, n - 1, k);
    }
  }

  /** After any Sync no name of ours is one of theirs, in any case. */
  lemma NoNameIsShared(doc: Doc, games: seq<Game>, uuids: nat -> string, ours: App, theirs: App)
    requires var after := Sync(doc, games, uuids).doc; ours in Managed(after) && theirs in Manual(after)
    ensures ours.name.Some? && Fold(ours.name.value) != Fold(if theirs.name.Some? then theirs.name.value else "")
  {
    SyncedLists(doc, games, uuids);
    SyncedEntries(doc, games, uuids);
    var entries := Synced(doc, games, uuids);
    var j :| 0 <= j < |entries| && entries[j] == ours;
    assert Stamped(entries[j], games[Matching(doc, games).out[j].game]);
  }

  // ── When the first round is already complete ────────────────────────────────

  /** Two open games claim the same old entry. */
  ghost predicate Contended(claims: seq<Claim>, k: nat)
    requires k <= |claims|
  {
    exists i, j | 0 <= i < j < k :: claims[i].Reuse? && claims[i] == claims[j]
  }

  lemma {:induction false} RoundIsCompleteIffUncontended(claims: seq<Claim>, k: nat)
    requires k <= |claims|
    ensures var r := Rounds(claims, k);
      && |r.out| <= |OpenClaims(claims, k)|
      && (|r.out| == |OpenClaims(claims, k)| <==> !Contended(claims, k))
  {
    if k > 0 {
      RoundIsCompleteIffUncontended(claims, k - 1);
      UsedWereClaimed(claims, k - 1);
      assert claims[..k] == claims[..k - 1] + [claims[k - 1]];
      if Contended(claims, k - 1) {
        var i, j :| 0 <= i < j < k - 1 && claims[i].Reuse? && claims[i] == claims[j];
        assert Contended(claims, k);
      } else if claims[k - 1].Reuse? && claims[k - 1] in claims[..k - 1] {
        var i :| 0 <= i < k - 1 && claims[i] == claims[k - 1];
        assert Contended(claims, k);
      }
    }
  }

  /**
   * The first Sync already leaves one entry per open game if and only if no two open games claim
   * the same old entry.
   */
  lemma FirstSyncCompleteIff(doc: Doc, games: seq<Game>, uuids: nat -> string)
    ensures |Managed(Sync(doc, games, uuids).doc)| == |Open(Manual(doc), games, |games|)|
      <==> !Contended(Claims(Manual(doc), Managed(doc), games), |games|)
  {
    SyncedLists(doc, games, uuids);
    RoundIsCompleteIffUncontended(Claims(Manual(doc), Managed(doc), games), |games|);
    OpenAsClaims(Manual(doc), Managed(doc), games, |games|);
  }

  /**
   * A rename swap. The one entry carries the app id of `renamed` and still the name now borne by
   * `newcomer`; both games claim it, the first takes it, and the newcomer is left out of the round.
   */
  lemma RenameSwapDropsAGame(entry: App, renamed: Game, newcomer: Game, uuids: nat -> string)
    requires IsManaged(entry) && HasName(entry, newcomer.name) && newcomer.steamAppId.None?
    requires renamed.steamAppId.Some? && HasAppId(entry, renamed.steamAppId.value)
    ensures var o := Sync([Some(entry)], [renamed, newcomer], uuids);
      o.added == 0 && o.removed == 0 && o.doc == [Some(Updated(entry, renamed, uuids(0)))]
    ensures Contended(Claims([], [entry], [renamed, newcomer]), 2)
  {
    var doc, games := [Some(entry)], [renamed, newcomer];
    FilterNone(doc, ManualNode);
    FilterAll(doc, ManagedNode);
    assert Manual(doc) == [] && Managed(doc) == [entry];
    var claims := Claims([], [entry], games);
    assert Match([entry], renamed) == Some(0) && Match([entry], newcomer) == Some(0);
    assert claims == [Reuse(0), Reuse(0)];
    SwapRounds(claims);
    assert Below(1) - {0} == {};
    assert Entries([entry], games, uuids, [Slot(0, Some(0))]) == [Updated(entry, renamed, uuids(0))];
  }

  lemma SwapRounds(claims: seq<Claim>)
    requires claims == [Reuse(0), Reuse(0)]
    ensures Rounds(claims, 2) == Round([Slot(0, Some(0))], {0}, 0)
  {
    assert Rounds(claims, 0) == Round([], {}, 0);
    assert Rounds(claims, 1) == Round([Slot(0, Some(0))], {0}, 0);
  }
}
