/** What the single edits of the apps list achieve for the user. */
module AppsEdits {
  import opened Common
  import opened Text
  import opened SunshineSync
  import LaunchCommands
  import SyncLaws

  /** The node is an entry that goes by this name, in any case. */
  predicate Named(n: Option<App>, name: string) {
    n.Some? && n.value.name.Some? && Fold(n.value.name.value) == Fold(name)
  }

  predicate IsTheirs(n: Option<App>) {
    n.Some? && !n.value.managed && !n.value.legacy
  }

  predicate IsOurs(n: Option<App>) {
    n.Some? && (n.value.managed || n.value.legacy)
  }

  /** An added game is on the list once it was not, at its end, and starts what it should. */
  lemma AddedGameIsThere(doc: Doc, g: Game, uuid: string)
    ensures var after := AddApp(doc, g, uuid);
      && (exists n | n in after :: Named(n, g.name))
      && ((exists n | n in doc :: Named(n, g.name)) ==> after == doc)
      && ((forall n | n in doc :: !Named(n, g.name)) ==>
            && |after| == |doc| + 1 && after[..|doc|] == doc && after[|doc|].Some?
            && var entry := after[|doc|].value;
               && IsOurs(after[|doc|]) && entry.name == Some(g.name)
               && LaunchCommands.Starts(entry) == Some(LaunchCommands.TargetOf(g))
               && entry.id == Some(g.stableId) && entry.uuid == Some(uuid) && entry.appId.None?
               && entry.imagePath == g.cover && entry.workingDir == g.exeDir)
  {
    LaunchCommands.CommandReadsBack(g);
    if forall n | n in doc :: !NamedNode(n, g.name) {
      var after := AddApp(doc, g, uuid);
      assert Named(after[|doc|], g.name) && after[|doc|] in after;
    } else {
      var n :| n in doc && NamedNode(n, g.name);
      assert Named(n, g.name);
    }
  }

  /** A removed name is carried by no entry of ours any more; every other entry is still there, and nothing new. */
  lemma RemovedNameIsGone(doc: Doc, name: string)
    ensures var after := RemoveApp(doc, name);
      && (forall n | n in after :: IsOurs(n) ==> !Named(n, name))
      && (forall n | n in doc && n.Some? && !(IsOurs(n) && Named(n, name)) :: n in after)
      && (forall n | n in after :: n in doc && n.Some?)
  {
    FilterHasAll(doc, (n: Option<App>) => n.Some? && !RemovedBy(n, name));
  }

  /** Entry `i` is the one a rename is meant for: the first of ours with that app id or that old name. */
  predicate RenameMeans(doc: Doc, i: nat, steamAppId: Option<string>, oldName: string) {
    && i < |doc| && Matches(doc[i], steamAppId, oldName)
    && forall j | 0 <= j < i :: !Matches(doc[j], steamAppId, oldName)
  }

  predicate Matches(n: Option<App>, steamAppId: Option<string>, oldName: string) {
    && IsOurs(n)
    && (Named(n, oldName)
        || (steamAppId.Some? && n.value.appId.Some? && Fold(n.value.appId.value) == Fold(steamAppId.value)))
  }

  /** A rename gives that entry the new name and changes nothing else - not even its identifiers. */
  lemma RenamedEntryHasTheName(doc: Doc, steamAppId: Option<string>, oldName: string, newName: string)
    ensures var after := RenameApp(doc, steamAppId, oldName, newName);
      && |after| == |doc|
      && (forall i: nat | RenameMeans(doc, i, steamAppId, oldName) ::
            && after[i] == Some(doc[i].value.(name := Some(newName)))
            && forall j | 0 <= j < |doc| && j != i :: after[j] == doc[j])
      && ((forall n | n in doc :: !Matches(n, steamAppId, oldName)) ==> after == doc)
  {
    forall i: nat | RenameMeans(doc, i, steamAppId, oldName)
      ensures FirstIndex(doc, (n: Option<App>) => RenamedBy(n, steamAppId, oldName)) == Some(i)
    {
      FirstIndexUnique(doc, (n: Option<App>) => RenamedBy(n, steamAppId, oldName), i);
    }
  }

  /** After a clear nothing of ours is left, and all of theirs is. */
  lemma ClearLeavesTheirs(doc: Doc)
    ensures var after := ClearAll(doc);
      && (forall n | n in after :: IsTheirs(n))
      && (forall n | n in doc && IsTheirs(n) :: n in after)
      && Manual(after) == Manual(doc)
  {
    FilterHasAll(doc, ManualNode);
    SyncLaws.EditKeepsManual(doc, SyncLaws.EditClear);
  }
}
