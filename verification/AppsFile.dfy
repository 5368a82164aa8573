/**
 * The apps file as an object: the loops that read and rewrite its list in place, each proved to
 * leave what the specification of the edit says.
 */
module AppsFile {
  import opened Common
  import opened Text
  import opened Spec = SunshineSync

  /** A JSON node of the new managed list: an old node, updated where it stands, or a new one. */
  datatype Node = Old(index: nat) | New(app: App)

  lemma WrapOneMore(apps: seq<App>, a: App)
    ensures Wrap(apps + [a]) == Wrap(apps) + [Some(a)]
  {
  }

  method Partition(doc: Doc) returns (manual: seq<App>, managed: seq<App>)
    ensures manual == Manual(doc) && managed == Managed(doc)
  {
    manual, managed := [], [];
    for i := 0 to |doc|
      invariant Wrap(manual) == Filter(doc[..i], ManualNode)
      invariant Wrap(managed) == Filter(doc[..i], ManagedNode)
    {
      FilterSnoc(doc, ManualNode, i);
      FilterSnoc(doc, ManagedNode, i);
      if doc[i].Some? {
        if IsManaged(doc[i].value) {
          WrapOneMore(managed, doc[i].value);
          managed := managed + [doc[i].value];
        } else {
          WrapOneMore(manual, doc[i].value);
          manual := manual + [doc[i].value];
        }
      }
    }
    assert doc[..|doc|] == doc;
  }

  /** The dictionary `index` answers, for every spelling of a key, what the first-wins search answers. */
  ghost predicate IsIndex(index: map<string, nat>, managed: seq<App>, keyOf: App -> string, n: nat)
    requires n <= |managed|
  {
    && (forall f | f in index ::
          index[f] < n && keyOf(managed[index[f]]) != "" && Fold(keyOf(managed[index[f]])) == f
          && forall j | 0 <= j < index[f] :: keyOf(managed[j]) == "" || Fold(keyOf(managed[j])) != f)
    && (forall j | 0 <= j < n && keyOf(managed[j]) != "" :: Fold(keyOf(managed[j])) in index)
  }

  function AppIdOf(a: App): string {
    if a.appId.Some? then a.appId.value else ""
  }

  method BuildIndex(managed: seq<App>, keyOf: App -> string) returns (index: map<string, nat>)
    ensures IsIndex(index, managed, keyOf, |managed|)
  {
    index := map[];
    for i := 0 to |managed|
      invariant IsIndex(index, managed, keyOf, i)
    {
      var key := keyOf(managed[i]);
      if key != "" && Fold(key) !in index {
        index := index[Fold(key) := i];
      }
    }
  }

  method LookUp(byAppId: map<string, nat>, byName: map<string, nat>, managed: seq<App>, g: Game)
    returns (existing: Option<nat>)
    requires IsIndex(byAppId, managed, AppIdOf, |managed|) && IsIndex(byName, managed, NameOf, |managed|)
    ensures existing == Match(managed, g)
  {
    existing := None;
    if g.steamAppId.Some? {
      if Fold(g.steamAppId.value) in byAppId {
        existing := Some(byAppId[Fold(g.steamAppId.value)]);
        assert HasAppId(managed[existing.value], g.steamAppId.value);
      }
      assert existing == FirstByAppId(managed, g.steamAppId.value);
    }
    if existing.None? {
      if Fold(g.name) in byName {
        existing := Some(byName[Fold(g.name)]);
        assert HasName(managed[existing.value], g.name);
      }
      assert existing == FirstByName(managed, g.name);
    }
  }

  /** The node list stands for the slots of the round, with every reused node already updated. */
  ghost predicate Represents(newManaged: seq<Node>, nodes: array<App>, managed: seq<App>, games: seq<Game>,
                             uuids: nat -> string, r: Round)
    requires nodes.Length == |managed|
    reads nodes
  {
    && ValidSlots(managed, games, r.out) && |newManaged| == |r.out|
    && (forall j | 0 <= j < |r.out| ::
          match newManaged[j]
          case Old(i) => i < nodes.Length && r.out[j].from == Some(i) && i in r.used
                         && nodes[i] == Entry(managed, games, uuids, r.out[j])
          case New(app) => r.out[j].from == None && app == Entry(managed, games, uuids, r.out[j]))
    && (forall i: nat | i < nodes.Length && i !in r.used :: nodes[i] == managed[i])
  }

  /** The case-insensitive set of the hand-made names. */
  predicate FoldedNames(names: set<string>, manual: seq<App>) {
    names == set a | a in manual :: Fold(NameOf(a))
  }

  /** What the loop looks up for a game before it touches anything. */
  method ClaimFor(manual: seq<App>, managed: seq<App>, manualNames: set<string>,
                  byAppId: map<string, nat>, byName: map<string, nat>, g: Game) returns (claim: Claim)
    requires IsIndex(byAppId, managed, AppIdOf, |managed|) && IsIndex(byName, managed, NameOf, |managed|)
    requires FoldedNames(manualNames, manual)
    ensures claim == ClaimOf(manual, managed, g)
  {
    if Fold(g.name) in manualNames {
      return Hidden;
    }
    var existing := LookUp(byAppId, byName, managed, g);
    claim := if existing.Some? then Reuse(existing.value) else Fresh;
  }

  /** One pass of the loop over the games. */
  method MergeGame(nodes: array<App>, newManaged: seq<Node>, used: set<nat>, added: nat, claim: Claim,
                   managed: seq<App>, games: seq<Game>, uuids: nat -> string, ghost claims: seq<Claim>, k: nat)
    returns (newManaged': seq<Node>, used': set<nat>, added': nat)
    requires nodes.Length == |managed| && k < |games| == |claims|
    requires claim == claims[k] && (claim.Reuse? ==> claim.entry < |managed|)
    requires Represents(newManaged, nodes, managed, games, uuids, Rounds(claims, k))
    requires used == Rounds(claims, k).used && added == Rounds(claims, k).added
    modifies nodes
    ensures Represents(newManaged', nodes, managed, games, uuids, Rounds(claims, k + 1))
    ensures used' == Rounds(claims, k + 1).used && added' == Rounds(claims, k + 1).added
  {
    newManaged', used', added' := newManaged, used, added;
    if claim.Reuse? && claim.entry !in used {
      nodes[claim.entry] := Updated(nodes[claim.entry], games[k], uuids(k));
      newManaged' := newManaged + [Old(claim.entry)];
      used' := used + {claim.entry};
    } else if claim.Fresh? {
      newManaged' := newManaged + [New(NewEntry(games[k], uuids(k)))];
      added' := added + 1;
    }
  }

  method CountUnused(n: nat, used: set<nat>) returns (count: nat)
    ensures count == |Below(n) - used|
  {
    count := 0;
    ghost var unused: set<nat> := {};
    for i := 0 to n
      invariant count == |unused|
      invariant forall x: nat :: x in unused <==> x < i && x !in used
    {
      if i !in used {
        unused := unused + {i};
        count := count + 1;
      }
    }
    assert unused == Below(n) - used;
  }

  method Clone(newManaged: seq<Node>, nodes: array<App>) returns (apps: seq<App>)
    requires forall j | 0 <= j < |newManaged| && newManaged[j].Old? :: newManaged[j].index < nodes.Length
    ensures |apps| == |newManaged|
    ensures forall j | 0 <= j < |apps| ::
      apps[j] == match newManaged[j] case Old(i) => nodes[i] case New(app) => app
  {
    apps := [];
    for j := 0 to |newManaged|
      invariant |apps| == j
      invariant forall i | 0 <= i < j ::
        apps[i] == match newManaged[i] case Old(at) => nodes[at] case New(app) => app
    {
      apps := apps + [match newManaged[j] case Old(at) => nodes[at] case New(app) => app];
    }
  }

  lemma NothingMergedYet(nodes: array<App>, managed: seq<App>, games: seq<Game>, uuids: nat -> string,
                         claims: seq<Claim>)
    requires nodes[..] == managed
    ensures Represents([], nodes, managed, games, uuids, Rounds(claims, 0))
  {
    assert forall i | 0 <= i < |managed| :: nodes[i] == nodes[..][i];
  }

  /** The claim of game `k`. */
  method ClaimAt(manual: seq<App>, managed: seq<App>, games: seq<Game>, k: nat,
                 manualNames: set<string>, byAppId: map<string, nat>, byName: map<string, nat>,
                 ghost claims: seq<Claim>) returns (claim: Claim)
    requires FoldedNames(manualNames, manual)
    requires IsIndex(byAppId, managed, AppIdOf, |managed|) && IsIndex(byName, managed, NameOf, |managed|)
    requires k < |games| && claims == Claims(manual, managed, games)
    ensures claim == claims[k] && (claim.Reuse? ==> claim.entry < |managed|)
  {
    claim := ClaimFor(manual, managed, manualNames, byAppId, byName, games[k]);
  }

  /** The loop over the games. */
  method MergeAll(manual: seq<App>, managed: seq<App>, games: seq<Game>, uuids: nat -> string,
                  manualNames: set<string>, byAppId: map<string, nat>, byName: map<string, nat>,
                  nodes: array<App>, ghost claims: seq<Claim>)
    returns (newManaged: seq<Node>, used: set<nat>, added: nat)
    requires IsIndex(byAppId, managed, AppIdOf, |managed|) && IsIndex(byName, managed, NameOf, |managed|)
    requires nodes[..] == managed && claims == Claims(manual, managed, games) && FoldedNames(manualNames, manual)
    modifies nodes
    ensures var r := Rounds(claims, |games|);
      Represents(newManaged, nodes, managed, games, uuids, r) && used == r.used && added == r.added
  {
    newManaged, used, added := [], {}, 0;
    NothingMergedYet(nodes, managed, games, uuids, claims);
    for k := 0 to |games|
      invariant Represents(newManaged, nodes, managed, games, uuids, Rounds(claims, k))
      invariant used == Rounds(claims, k).used && added == Rounds(claims, k).added
    {
      var claim := ClaimAt(manual, managed, games, k, manualNames, byAppId, byName, claims);
      newManaged, used, added := MergeGame(nodes, newManaged, used, added, claim, managed, games, uuids, claims, k);
    }
  }

  /** The copies written to the file are the entries of the round. */
  method CloneRound(newManaged: seq<Node>, nodes: array<App>, ghost managed: seq<App>, ghost games: seq<Game>,
                    ghost uuids: nat -> string, ghost r: Round) returns (entries: seq<App>)
    requires nodes.Length == |managed| && Represents(newManaged, nodes, managed, games, uuids, r)
    ensures ValidSlots(managed, games, r.out) && entries == Entries(managed, games, uuids, r.out)
  {
    entries := Clone(newManaged, nodes);
  }

  method MergeGames(manual: seq<App>, managed: seq<App>, games: seq<Game>, uuids: nat -> string)
    returns (entries: seq<App>, added: nat, removed: nat)
    ensures var r := Rounds(Claims(manual, managed, games), |games|);
      && ValidSlots(managed, games, r.out) && entries == Entries(managed, games, uuids, r.out)
      && added == r.added && removed == |Below(|managed|) - r.used|
  {
    var byAppId := BuildIndex(managed, AppIdOf);
    var byName := BuildIndex(managed, NameOf);
    var manualNames := set a | a in manual :: Fold(NameOf(a));
    ghost var claims := Claims(manual, managed, games);
    var nodes := new App[|managed|](i requires 0 <= i < |managed| => managed[i]);
    assert nodes[..] == managed;
    var newManaged, used;
    newManaged, used, added := MergeAll(manual, managed, games, uuids, manualNames, byAppId, byName, nodes, claims);
    removed := CountUnused(|managed|, used);
    entries := CloneRound(newManaged, nodes, managed, games, uuids, Rounds(claims, |games|));
  }

  class AppsJson {
    var apps: Doc

    method Sync(games: seq<Game>, uuids: nat -> string, writable: bool) returns (added: nat, removed: nat)
      modifies this
      ensures writable ==> Outcome(apps, added, removed) == Spec.Sync(old(apps), games, uuids)
      ensures !writable ==> apps == old(apps) && added == 0 && removed == 0
    {
      var manual, managed := Partition(apps);
      var entries;
      entries, added, removed := MergeGames(manual, managed, games, uuids);
      if !writable {
        return 0, 0;
      }
      apps := Wrap(manual + entries);
    }

    method AddApp(g: Game, uuid: string)
      modifies this
      ensures apps == Spec.AddApp(old(apps), g, uuid)
    {
      for i := 0 to |apps|
        invariant apps == old(apps)
        invariant forall j | 0 <= j < i :: !NamedNode(apps[j], g.name)
      {
        if NamedNode(apps[i], g.name) {
          return;
        }
      }
      apps := apps + [Some(NewEntry(g, uuid).(appId := None))];
    }

    method RemoveApp(name: string)
      modifies this
      ensures apps == Spec.RemoveApp(old(apps), name)
    {
      ghost var keep := (n: Option<App>) => n.Some? && !RemovedBy(n, name);
      var kept: Doc := [];
      for i := 0 to |apps|
        invariant apps == old(apps) && kept == Filter(apps[..i], keep)
      {
        assert apps[..i + 1] == apps[..i] + [apps[i]];
        FilterConcat(apps[..i], [apps[i]], keep);
        if apps[i].Some? && !RemovedBy(apps[i], name) {
          kept := kept + [apps[i]];
        }
      }
      assert apps[..|apps|] == apps;
      apps := kept;
    }

    method ClearAll()
      modifies this
      ensures apps == Spec.ClearAll(old(apps))
    {
      var manual, _ := Partition(apps);
      ghost var nodes := Filter(apps, ManualNode);
      assert forall i | 0 <= i < |nodes| :: nodes[i] in nodes;
      assert Wrap(manual) == nodes;
      apps := Wrap(manual);
    }

    method RenameApp(steamAppId: Option<string>, oldName: string, newName: string)
      modifies this
      ensures apps == Spec.RenameApp(old(apps), steamAppId, oldName, newName)
    {
      for i := 0 to |apps|
        invariant apps == old(apps)
        invariant forall j | 0 <= j < i :: !RenamedBy(apps[j], steamAppId, oldName)
      {
        if RenamedBy(apps[i], steamAppId, oldName) {
          FirstIndexUnique(apps, (n: Option<App>) => RenamedBy(n, steamAppId, oldName), i);
          apps := apps[i := Some(apps[i].value.(name := Some(newName)))];
          return;
        }
      }
    }
  }
}
