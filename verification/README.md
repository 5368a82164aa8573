# ArtLight Control, modelled and proved

This project models the stateful core of ArtLight Control's host side and proves what it promises
over whole runs: the link-speed state machine, the synchroniser of the streaming server's apps
list, the launch watcher, the path from a log line to a recorded session, the telemetry
accumulator, and the replay cache of the bridge. `dafny verify dfyconfig.toml` checks everything.

## How it is built

Each component whose source updates fields step by step appears twice, once as each reader needs it:

* a **specification** over plain values - one function per operation - about which the theorems are
  proved (`LinkSpeedModel`, `SunshineSync`, `LaunchWatching`, `StreamingLogMonitor`, `SessionLog`,
  `AppSession`, `Telemetry`, `ReplayCache`);
* an **object** with the source's fields and loops (`LinkSpeedManager`, `AppsJson`, `LaunchWatcher`,
  `LogMonitor`, `SessionLogger`, `App`, `TelemetryAccumulator`, `BridgeAuthService`), every method
  of which is proved to leave exactly the state the specification says.

| Files | Component |
|---|---|
| `LinkSpeedModel`, `LinkSpeedManager` | the link-speed state machine, write by write, and the manager object |
| `LinkSpeedSafety`, `LinkSpeedOutcomes`, `LinkSpeedGuard`, `LinkSpeedDeferral`, `LinkSpeedOverlap` | crash consistency and round trip; what each operation comes to; the exact condition they need; deferred restores; when the manager's own restores meet a job |
| `SunshineSync`, `AppsFile`, `SyncLaws`, `LaunchCommands`, `AppsEdits` | the apps list, its in-place edits, conservation and convergence; what an entry starts; what a single edit achieves |
| `LogParser`, `StreamingLogMonitor`, `LaunchIdentity` | line classification, the uuid pairing, the launch read back to a game |
| `LaunchWatching`, `LaunchWatcher` | the launch phases against the whole history of ticks |
| `SessionLog`, `SessionLogger`, `SessionTime` | session rows and live-stream spans; the time they measure |
| `AppSession`, `AppDispatcher`, `SessionRestores` | the serial dispatcher that couples link, log and watcher; the jobs the end of a session starts |
| `Sums`, `Downsampling`, `QualityGrade`, `Telemetry`, `HostMetrics`, `TelemetryAccumulator`, `TelemetryLaws` | aggregation, series reduction, grading |
| `ReplayCache`, `BridgeAuthService` | the pruned replay cache |
| `Common`, `Text` | sequences and strings |

The environment is arbitrary input: the adapter's settings and reported speeds, the live-stream
probe, the clock (which never goes back), what a tick sees on screen, whether a signature verifies,
whether the apps file can be written, the identifiers drawn for new entries. Case-insensitive
comparison goes through `Text.Fold`; floats are exact reals; .NET's `DateTime.MinValue` is `None`.

## What the code turned out not to promise

* **A restore entered over a running job.** `RestoreNow` does not look at `State == Changing`
  (LinkSpeedManager.cs:420-447). If it is entered while a job is in flight, some continuation ends
  with the adapter off its own setting and nothing on record. `RestoreIsSafeIffNoJobInFlight` shows
  "no job in flight" is exactly the condition, so the safety theorems carry it as `Guarded`.
* **An unreadable setting.** `RequestSpeed` records an empty OriginalSpeed when the adapter cannot
  name its setting, and `RecoverAtStartup` ignores an empty one: after a kill the link is recovered
  if and only if the setting could be read (`RecoveryNeedsAReadableSetting`).
* **The first Sync may drop a game** whose match was already used; it is complete if and only if no
  two games claim the same old entry (`FirstSyncCompleteIff`, with a rename swap as the example).
* **The stop time outlives its session.** `_lastStopDetectedUtc` is never reset, so a session a
  watchdog winds up without a stop keeps its finished launch on show if an earlier session had one
  (`StaleStopKeepsAFinishedLaunch`); `WindUpForgetsLaunchIff` says exactly when a launch is dropped.
* **The manager breaks that condition itself.** A timer that has fired before a client is granted a
  switch runs its restore over that switch; `OlderRestoreAfterAGrantIff` says exactly when an older
  restore can still start after a grant, and `DeferredRestoreOverlapsTheNextSwitch` is a run. And a
  client's stop over a pending restore starts two (`ClientStopStartsJobs`).
* **The restore at the end of a session** starts in `OnSessionEnded`, before `EndSession` closes the
  last span. "No job under an open span" is therefore false inside that one event: exactly when is
  `WindUpStartsAJobIff`, a run is `RestoreStartsUnderAnOpenSpan`, and no other event does it
  (`NoJobUnderAnOpenSpan`, `JobsStartOnlyAsTheSessionEnds`).
* **The sticky flag can miss a yes.** A scan that finds the process on a tick that also sees a window
  of the target is forgotten (`ScanIsRememberedIff`), although LaunchWatcher.cs:213-216 calls the
  answer final; `ForgottenScanRaisesTheAlarm` is a launch in which that decides between an alarm and
  none. A process that runs throughout is safe from it: at any pace under five seconds a later scan
  finds it in time, and only then (`NoFalseAlarmIff`).
* **The replay cache is keyed by the signature as written**, so what it keeps single is the written
  signature. For the signed message that is enough if and only if the decoder tells spellings apart;
  keyed by the decoded signature it always would be (`MessagesAreSingleIff`).
* **A latency spike never decides between High and Medium**: it counts only once a hundredth of the
  samples is late, and then the late share has already cost the grade (`HighIff`).
* The comment at App.Session.cs:407-408 speaks of a grace period that puts the link back by itself;
  the code only runs a restore that was asked for and deferred (`SessionEndLeavesTheLinkIff`). The
  model follows the code.

## Model

| member | source | states |
|---|---|---|
| `LinkSpeedSafety.CrashConsistency` | control/ArtLightControl.Core/LinkSpeedManager.cs:317-335 | after any guarded run with kills in it, at any point between two writes of the next operation: an adapter off its own setting has StreamingMode set and OriginalSpeed naming that setting, and a restart over that disk is switched exactly when the disk says so, with the same OriginalMbps |
| `LinkSpeedSafety.CrashInOneStep` | control/ArtLightControl.Core/LinkSpeedManager.cs:554-563 | the same for a kill inside one operation from any invariant state, including between the three writes that clear the switched state |
| `LinkSpeedSafety.SwitchRestoreRoundTrip` | control/ArtLightControl.Core/LinkSpeedManager.cs:567-613 | from an unswitched link, after any requests, failed applies, deferrals and kills: once unswitched again the adapter is on exactly its first setting; while switched that setting is still on record; Changing or Error implies switched |
| `LinkSpeedSafety.CaptureIsNeverOverwritten` | control/ArtLightControl.Core/LinkSpeedManager.cs:311-319 | while the link stays switched no request, failure, restore attempt or kill changes OriginalSpeed or OriginalMbps, on disk or in memory |
| `LinkSpeedSafety.RunKeepsInv` | control/ArtLightControl.Core/LinkSpeedManager.cs:246-629 | every legal run of operations and kills keeps one job at most, Changing exactly while it runs, the switched flag equal to the persisted one, and restore jobs aimed at the original setting |
| `LinkSpeedSafety.StepKeepsInv` | control/ArtLightControl.Core/LinkSpeedManager.cs:246-613 | each single operation keeps that invariant |
| `LinkSpeedSafety.RequestKeepsInv` | control/ArtLightControl.Core/LinkSpeedManager.cs:311-334 | a request keeps it: the capture taken at a first switch names the setting the adapter is on |
| `LinkSpeedSafety.JobKeepsInv` | control/ArtLightControl.Core/LinkSpeedManager.cs:567-612 | so do the apply and the end of a background job, refused or not |
| `LinkSpeedSafety.RestoreNowKeepsInv` | control/ArtLightControl.Core/LinkSpeedManager.cs:420-447 | entering a restore with no job in flight keeps the invariant and never clears the record |
| `LinkSpeedSafety.WritesKeepDiskOk` | control/ArtLightControl.Core/LinkSpeedManager.cs:314-335 | every intermediate disk of every guarded operation is in order |
| `LinkSpeedSafety.WritesEndAtNext` | control/ArtLightControl.Core/LinkSpeedManager.cs:554-563 | the listed writes of an operation end in the disk the operation leaves |
| `LinkSpeedOutcomes.WritesAreSingle` | control/ArtLightControl.Core/LinkSpeedManager.cs:314-335 | any operation passes through at most three disks, each one value away from the last, so a kill can come between any two writes |
| `LinkSpeedSafety.RestartKeepsInv` | control/ArtLightControl.Core/LinkSpeedManager.cs:493-510 | constructor and RecoverAtStartup over any disk in order re-establish the whole invariant and write nothing |
| `LinkSpeedSafety.FirstStartIsSafe` | control/ArtLightControl.Core/LinkSpeedManager.cs:493-497 | a first start with nothing switched establishes it |
| `LinkSpeedSafety.RecoveryNeedsAReadableSetting` | control/ArtLightControl.Core/LinkSpeedManager.cs:315-316 | after a first switch, an apply and a kill, the restart is switched if and only if the setting could be read at the capture |
| `LinkSpeedSafety.CaptureNames` | control/ArtLightControl.Core/LinkSpeedManager.cs:512-522 | with distinct display keys, resolving a captured key finds the very setting that was current |
| `LinkSpeedOutcomes.RecoveryRestores` | control/ArtLightControl.Core/LinkSpeedManager.cs:493-510 | over any disk in order: left switched with no stream live, a start leaves exactly one pending restore to the original setting, in state Changing, and that restore once applied and settled leaves the adapter on it with the record cleared; with a stream live the restore is due in 60 s on the one armed timer; unswitched, nothing happens |
| `LinkSpeedOutcomes.KilledRunIsPutBack` | control/ArtLightControl.Core/LinkSpeedManager.cs:493-510 | after any guarded run and a kill between any two writes, a restart with no stream live is either already on the original setting or restoring to it, and that restore puts the adapter back |
| `LinkSpeedOutcomes.RequestAnswers` | control/ArtLightControl.Core/LinkSpeedManager.cs:246-309 | which of the six answers a request gets, each as an if-and-only-if over the adapter, the permission, the route, the live stream, the running job, the listed speeds and the measured speed |
| `LinkSpeedOutcomes.RefusalChangesNothing` | control/ArtLightControl.Core/LinkSpeedManager.cs:246-309 | a client without permission, off the adapter, under a stream or a job, or asking for an unlisted speed, changes and writes nothing |
| `LinkSpeedOutcomes.SwitchReachesTheSpeed` | control/ArtLightControl.Core/LinkSpeedManager.cs:311-335 | a granted switch starts one job for a setting of the asked speed, a first one records the speed measured before it and the key of the setting it found, a later one leaves the record alone, and once applied and settled the adapter is on that setting |
| `LinkSpeedOutcomes.AlreadyThereOnlyCancels` | control/ArtLightControl.Core/LinkSpeedManager.cs:284-300 | asking for the speed the adapter is at starts nothing and writes nothing: it only takes a scheduled restore back |
| `LinkSpeedOutcomes.OriginalIsResolved` | control/ArtLightControl.Core/LinkSpeedManager.cs:512-522 | a setting to go back to is found if and only if a key is on record and the driver lists that key, in any case, or the recorded speed; it is the first with the key, else the best of that speed |
| `LinkSpeedOutcomes.RestoreComesTo` | control/ArtLightControl.Core/LinkSpeedManager.cs:420-447 | the four cases of a restore by their conditions - nothing, deferral by 60 s, giving up, one job to the original setting - and what each leaves of jobs, disk, timers and state |
| `LinkSpeedOutcomes.RestorePutsBack` | control/ArtLightControl.Core/LinkSpeedManager.cs:567-613 | a restore applied and settled leaves the adapter on its target, unswitched, with the record cleared |
| `LinkSpeedOutcomes.RefusedApplyKeepsTheRecord` | control/ArtLightControl.Core/LinkSpeedManager.cs:567-590 | a refused apply leaves adapter and record alone, in state Error |
| `LinkSpeedOutcomes.SessionEventsMarkTheStream` | control/ArtLightControl.Core/LinkSpeedManager.cs:342-415 | a start sets the live flag and cancels, a disconnect clears it and nothing else, the end of a session goes on to restore exactly when one was pending |
| `LinkSpeedOutcomes.TimerGoesOnIff` | control/ArtLightControl.Core/LinkSpeedManager.cs:525-551 | a timer callback goes on to restore if and only if the manager is switched and not disposed; a disposed manager has no timer armed of its own |
| `LinkSpeedGuard.RestoreIsSafeIffNoJobInFlight` | control/ArtLightControl.Core/LinkSpeedManager.cs:420-447 | entering RestoreNow from a switched state with no live stream keeps every continuation recoverable if and only if the state is not Changing |
| `LinkSpeedGuard.EnteringARestoreOverAJobCanLose` | control/ArtLightControl.Core/LinkSpeedManager.cs:420-447 | entered over a job, some legal continuation loses the record of the original setting |
| `LinkSpeedGuard.OverlappedRestoreLosesTheRecord` | control/ArtLightControl.Core/LinkSpeedManager.cs:597-603 | how: a speed request slips in and the restore ends first, clearing the record while the adapter is elsewhere |
| `LinkSpeedDeferral.DeferredRestoreIsNeverLost` | control/ArtLightControl.Core/LinkSpeedManager.cs:427-435 | once a restore defers, over every interleaving with no settling event it stays scheduled on a live or fired timer, or a timer callback is about to run it |
| `LinkSpeedDeferral.SessionEndBringsTheRestore` | control/ArtLightControl.Core/LinkSpeedManager.cs:392-415 | right after OnSessionEnded some thread is on its way into RestoreNow even if the timer fired first, and entering with no live stream settles the restore |
| `LinkSpeedDeferral.StepKeepsTheDebt` | control/ArtLightControl.Core/LinkSpeedManager.cs:525-551 | each step keeps an owed restore scheduled or between a timer callback's lock and RestoreNow |
| `LinkSpeedDeferral.GrantsAndStartsCancelTheRestore` | control/ArtLightControl.Core/LinkSpeedManager.cs:544-551 | after any run, a granted request or a session start leaves no armed timer and no due time on show; a timer that has fired already is left to the rows below |
| `LinkSpeedOverlap.OlderRestoreAfterAGrantIff` | control/ArtLightControl.Core/LinkSpeedManager.cs:525-551 | after any run, an older restore can still start a job after a session start never, and after a grant if and only if a timer had fired or a thread was past its lock at the grant, the link is one a restore would act on, and no stream is live |
| `LinkSpeedOverlap.OwnRestoreStartsIff` | control/ArtLightControl.Core/LinkSpeedManager.cs:392-447 | from any state, exactly when the manager's own timers, callbacks and session ends can start a restore with nobody asking again |
| `LinkSpeedOverlap.FiredTimerOverlapsTheSwitch` | control/ArtLightControl.Core/LinkSpeedManager.cs:530-540 | a timer that fired before a granted switch starts its restore over that switch: two jobs in flight |
| `LinkSpeedOverlap.DeferredRestoreOverlapsTheNextSwitch` | control/ArtLightControl.Core/LinkSpeedManager.cs:427-447 | the whole run there from a switched link: deferral, timer, grant, callback, restore |
| `LinkSpeedOverlap.FiredTimerCanLoseTheRecord` | control/ArtLightControl.Core/LinkSpeedManager.cs:420-447 | and from there some continuation loses the record of the original setting |
| `LinkSpeedDeferral.RunKeepsTimersTracked` | control/ArtLightControl.Core/LinkSpeedManager.cs:525-551 | over every run the only timer that can fire is the one on record |
| `LinkSpeedModel.FindOptionForMbps` | control/ArtLightControl.Core/NetworkManager.cs:177-180 | an option of the asked speed, half duplex only if no full-duplex one exists, none only if the speed is not listed |
| `LinkSpeedManagement.LinkSpeedManager.constructor` | control/ArtLightControl.Core/LinkSpeedManager.cs:96-101 | a new process has nothing in memory and leaves the disk alone |
| `LinkSpeedManagement.LinkSpeedManager.RequestSpeed` | control/ArtLightControl.Core/LinkSpeedManager.cs:246-338 | each of the refusals in order, the already-there answer that cancels a pending restore, or the capture and switch, with the exact sequence of store writes |
| `LinkSpeedManagement.LinkSpeedManager.OnSessionStarted` | control/ArtLightControl.Core/LinkSpeedManager.cs:342-350 | a session start marks the stream live and cancels a scheduled restore |
| `LinkSpeedManagement.LinkSpeedManager.OnStreamDisconnected` | control/ArtLightControl.Core/LinkSpeedManager.cs:375-384 | a disconnect clears only the live flag |
| `LinkSpeedManagement.LinkSpeedManager.OnSessionEnded` | control/ArtLightControl.Core/LinkSpeedManager.cs:392-415 | the end of a session runs a restore that was pending, and nothing else |
| `LinkSpeedManagement.LinkSpeedManager.RestoreNow` | control/ArtLightControl.Core/LinkSpeedManager.cs:420-447 | nothing to do, deferral by 60 s under a live stream, giving up on an unknown setting, or one restore job |
| `LinkSpeedManagement.LinkSpeedManager.RecoverAtStartup` | control/ArtLightControl.Core/LinkSpeedManager.cs:493-510 | the startup code leaves the state and makes the writes that the row on `RecoveryRestores` speaks of |
| `LinkSpeedManagement.LinkSpeedManager.ScheduleRestore` | control/ArtLightControl.Core/LinkSpeedManager.cs:525-541 | replaces the previous timer and shows the due time |
| `LinkSpeedManagement.LinkSpeedManager.CancelScheduledRestore` | control/ArtLightControl.Core/LinkSpeedManager.cs:544-551 | stops the timer, if there is a handle |
| `LinkSpeedManagement.LinkSpeedManager.ClearSwitchedState` | control/ArtLightControl.Core/LinkSpeedManager.cs:554-563 | forgets the switch in memory and, in three writes, on disk |
| `LinkSpeedManagement.LinkSpeedManager.OnTimer` | control/ArtLightControl.Core/LinkSpeedManager.cs:530-540 | a fired timer gives up its due time and restores, unless disposed or not switched |
| `LinkSpeedManagement.LinkSpeedManager.WaitForLink` | control/ArtLightControl.Core/LinkSpeedManager.cs:618-629 | polls every 500 ms, stops at the first expected reading, and ends after at most 30 polls |
| `LinkSpeedManagement.LinkSpeedManager.ApplyAndSettle` | control/ArtLightControl.Core/LinkSpeedManager.cs:567-613 | the state is given one new value, at the end: whatever is reported, a successful apply leaves it Changing for more than 15 s and at most 30 s, under the client's 40 s ceiling; a refused one sets Error at once |
| `LinkSpeedManagement.LinkSpeedManager.Dispose` | control/ArtLightControl.Core/LinkSpeedManager.cs:637-645 | a disposed manager drops its timer |
| `SyncLaws.SyncConverges` | control/ArtLightControl.Core/SunshineSync.cs:284-382 | from any list, for distinct games: the second Sync removes nothing and leaves one entry per game no manual name shadows, in order; the third changes nothing and reports (0, 0) |
| `SyncLaws.SyncConserves` | control/ArtLightControl.Core/SunshineSync.cs:309-375 | entries after plus removed equal added plus entries before, no old entry is reused twice, and no managed name equals a manual one |
| `SyncLaws.FirstSyncCompleteIff` | control/ArtLightControl.Core/SunshineSync.cs:326-372 | one Sync leaves an entry for every open game if and only if no two of them claim the same old entry |
| `SyncLaws.RenameSwapDropsAGame` | control/ArtLightControl.Core/SunshineSync.cs:319-372 | an entry with one game's app id and another's name is taken by the first; the other gets no entry this round |
| `SyncLaws.ManualEntriesAreUntouched` | control/ArtLightControl.Core/SunshineSync.cs:269-382 | across any sequence of syncs, additions, removals, renames, clears and failed writes the hand-made entries keep content and order |
| `SyncLaws.KeptEntriesKeepTheirIdentity` | control/ArtLightControl.Core/SunshineSync.cs:339-343 | a reused entry keeps whichever of id and uuid it has and gets the game's id otherwise; its picture is replaced only by a cover there is, and every other member stays |
| `SyncLaws.SecondSyncIsComplete` | control/ArtLightControl.Core/SunshineSync.cs:309-375 | over any list a Sync wrote, a Sync removes nothing and leaves every open game an entry |
| `SyncLaws.CompleteListIsFixed` | control/ArtLightControl.Core/SunshineSync.cs:326-372 | over a complete list a Sync changes no field and counts nothing |
| `SyncLaws.SettledMatch` | control/ArtLightControl.Core/SunshineSync.cs:319-324 | on a list a Sync wrote, a game matches its own entry or none, by app id first and then by name |
| `SyncLaws.SyncedEntries` | control/ArtLightControl.Core/SunshineSync.cs:326-370 | every managed entry of the result carries the name, command, app id, directory and marks of its game |
| `LaunchCommands.CommandReadsBack` | control/ArtLightControl.Core/SunshineSync.cs:684-747 | an independent reader of the written command, by its prefix and suffix, gives back the store and the id: the app id for Steam, the launch id for Epic, the package id for Xbox, else the executable |
| `LaunchCommands.SyncedEntriesStartTheirGames` | control/ArtLightControl.Core/SunshineSync.cs:315-370 | every managed entry a Sync leaves starts, by that reader, the very game it is named for |
| `LaunchCommands.DifferentGamesStartDifferently` | control/ArtLightControl.Core/SunshineSync.cs:315-370 | no two entries of a synced list share a command unless their games have the same target |
| `LaunchCommands.SteamGamesStartByTheirId` | control/ArtLightControl.Core/SunshineSync.cs:700-704 | two Steam games have the same command if and only if they have the same app id |
| `SyncLaws.NewEntriesGetTheirs` | control/ArtLightControl.Core/SunshineSync.cs:350-366 | a new entry carries the game's stable id, the identifier drawn for it and its cover |
| `SyncLaws.MatchMeans` | control/ArtLightControl.Core/SunshineSync.cs:319-324 | a game takes the first old entry with its app id whatever its name, and only without one the first with its name |
| `SyncLaws.OpenIff` | control/ArtLightControl.Core/SunshineSync.cs:300-311 | a game is passed over exactly when a hand-made entry has its name in any case |
| `SyncLaws.NoNameIsShared` | control/ArtLightControl.Core/SunshineSync.cs:300-311 | after any Sync no managed entry has the name of a hand-made one, in any case |
| `Text.FoldsAgreeIff` | control/ArtLightControl.Core/SunshineSync.cs:300-302 | a comparison that ignores case holds exactly between strings of one length whose letters differ in case alone |
| `SyncLaws.RoundsBalance` | control/ArtLightControl.Core/SunshineSync.cs:304-375 | at every point of the loop the new list is the additions plus one use of each used entry, in game order |
| `AppsFile.AppsJson.Sync` | control/ArtLightControl.Core/SunshineSync.cs:243-401 | partition, indexes, the loop with its used-set and in-place updates, and the rebuilt list, together equal the specification; a list that cannot be written is left alone with (0, 0) |
| `AppsFile.AppsJson.AddApp` | control/ArtLightControl.Core/SunshineSync.cs:569-599 | appends an entry unless any entry already has the name |
| `AppsFile.AppsJson.RemoveApp` | control/ArtLightControl.Core/SunshineSync.cs:640-654 | drops the managed entries of the name, and nulls |
| `AppsFile.AppsJson.RenameApp` | control/ArtLightControl.Core/SunshineSync.cs:449-471 | renames the first managed entry that matches by app id or old name |
| `AppsFile.AppsJson.ClearAll` | control/ArtLightControl.Core/SunshineSync.cs:514-523 | leaves exactly the hand-made entries |
| `AppsEdits.AddedGameIsThere` | control/ArtLightControl.Core/SunshineSync.cs:569-599 | after an addition the name is on the list; if it was not before, one entry of ours has been put at the end that starts the game, and all else stands |
| `AppsEdits.RemovedNameIsGone` | control/ArtLightControl.Core/SunshineSync.cs:640-654 | after a removal no entry of ours has the name, every other entry is still there, and nothing is new |
| `AppsEdits.RenamedEntryHasTheName` | control/ArtLightControl.Core/SunshineSync.cs:449-471 | the first entry of ours with that app id or old name has the new name and its other fields, and no other entry changes |
| `AppsEdits.ClearLeavesTheirs` | control/ArtLightControl.Core/SunshineSync.cs:514-523 | nothing managed survives a clear, and every hand-made entry does |
| `AppsFile.MergeGames` | control/ArtLightControl.Core/SunshineSync.cs:284-380 | the imperative round over mutable nodes yields the entries and counts of the specified round |
| `AppsFile.MergeGame` | control/ArtLightControl.Core/SunshineSync.cs:326-372 | one game: update a node not yet used, add a new one, or skip |
| `AppsFile.BuildIndex` | control/ArtLightControl.Core/SunshineSync.cs:287-297 | the dictionary maps each key, ignoring case, to the first entry that has it |
| `AppsFile.LookUp` | control/ArtLightControl.Core/SunshineSync.cs:319-324 | the two dictionaries answer as the two first-wins searches, app id before name |
| `AppsFile.Partition` | control/ArtLightControl.Core/SunshineSync.cs:269-282 | the two lists are the hand-made and the managed entries in order |
| `LogParser.MarkersAreAnchored` | control/ArtLightControl.Core/LogParser.cs:85-184 | on every timestamped line an event needs its marker right after the level, spaces and at most two tags; anywhere else it raises nothing |
| `LogParser.RenderedMessageIsExtracted` | control/ArtLightControl.Core/LogParser.cs:85-123 | printing a message with any timestamp, level and up to two tags and extracting it gives the message back |
| `LogParser.RunExtractMessage` | control/ArtLightControl.Core/LogParser.cs:85-123 | the rewriting loops compute the specified message |
| `LogParser.HeaderOf` | control/ArtLightControl.Core/LogParser.cs:115-120 | what the tag loop takes off the front is nothing but spaces and tags |
| `LogParser.ClassifiedIff` | control/ArtLightControl.Core/LogParser.cs:138-184 | a message is a stop exactly when it begins with one of six wordings, and a start exactly when it begins with one of four and is no stop |
| `LogParser.EveryMarkerCounts` | control/ArtLightControl.Core/LogParser.cs:138-184 | each of the ten wordings, followed by anything, is the event it should be |
| `LogParser.EveryLevelIsStripped` | control/ArtLightControl.Core/LogParser.cs:41-78 | each of the six level words is taken off |
| `StreamingLogMonitor.StopsAlternateWithStarts` | control/ArtLightControl.Core/StreamingLogMonitor.cs:270-320 | over every sequence of lines, between two raised stops lies a raised start |
| `StreamingLogMonitor.LineRaisesIff` | control/ArtLightControl.Core/StreamingLogMonitor.cs:270-320 | in terms of the log alone, what each line raises: a start for every start line, and a stop for exactly those stop lines that find a live stream and do not end another session |
| `StreamingLogMonitor.FieldsReflectLines` | control/ArtLightControl.Core/StreamingLogMonitor.cs:270-320 | the two fields of the loop are functions of the lines read so far |
| `StreamingLogMonitor.ForeignEndIsIgnored` | control/ArtLightControl.Core/StreamingLogMonitor.cs:289-307 | while one uuid is declared open, an end_session of another raises nothing and changes nothing |
| `StreamingLogMonitor.CompleteBlockStopsOnce` | control/ArtLightControl.Core/StreamingLogMonitor.cs:270-320 | begin, connect, anything unmarked, ended, end_session, as the server prints them, raises exactly one stop, on the ended line, from whatever state |
| `StreamingLogMonitor.HistoryUuidIs` | control/ArtLightControl.Core/StreamingLogMonitor.cs:130-139 | the uuid printed on a history line is the uuid read |
| `StreamingLogMonitor.PrintedUuidIsRead` | control/ArtLightControl.Core/StreamingLogMonitor.cs:130-139 | hexadecimal digits of either case and dashes between uuid= and a space are the uuid read |
| `StreamingLogMonitor.BeginLineReads` | control/ArtLightControl.Core/StreamingLogMonitor.cs:277-283 | a printed begin_session line reads as a start that declares its uuid |
| `StreamingLogMonitor.EndLineReads` | control/ArtLightControl.Core/StreamingLogMonitor.cs:298-307 | a printed end_session line reads as a stop that names its uuid |
| `StreamingLogMonitor.LogMonitor.OnLine` | control/ArtLightControl.Core/StreamingLogMonitor.cs:270-320 | one line of the loop: what it raises and what it leaves open |
| `StreamingLogMonitor.LogMonitor.MonitorLogFile` | control/ArtLightControl.Core/StreamingLogMonitor.cs:270-320 | the loop over a log raises, line by line, what the specification says |
| `LaunchIdentity.LaunchIsIdentified` | control/ArtLightControl.Core/SunshineSync.cs:171-232 | a game with a synced entry whose command no other name carries is printed as a launch, read back and resolved to its own name, whenever the marks of the line are not spelled out inside its parts |
| `LaunchIdentity.PrintedLaunchIsIdentified` | server/src/process.cpp:2671 | the same for the line with the server's own timestamp and level and the directory in quotes: brackets in an executable's path do no harm |
| `LaunchIdentity.ResolvedIffOnlyName` | control/ArtLightControl.Core/SunshineSync.cs:185-220 | a command resolves if and only if exactly one name, ignoring case, carries it, and to a name some entry has |
| `LaunchIdentity.CarriesIff` | control/ArtLightControl.Core/SunshineSync.cs:185-232 | an entry carries a command if and only if it has a name and its own command or a detached one equals it, in any case, once stripped of spaces and one pair of quotes |
| `LaunchIdentity.LaunchLineParses` | control/ArtLightControl.Core/StreamingLogMonitor.cs:64-95 | the Executing or Spawning line gives back the printed command up to spaces; the Executing form needs only a command without a quote, whatever the directory |
| `LaunchIdentity.PrintedLineReadsIff` | control/ArtLightControl.Core/StreamingLogMonitor.cs:64-95 | on the line as the server prints it, a path that does not start with a quote is read back if and only if it has no quote in it, and a detached command that does not spell the Executing mark if and only if it does not spell its closing mark |
| `LaunchIdentity.ExecutedReadsIff` | control/ArtLightControl.Core/StreamingLogMonitor.cs:64-73 | behind a head without the mark, the Executing reader gives a command back if and only if it has no quote in it |
| `LaunchIdentity.SpawnedReadsIff` | control/ArtLightControl.Core/StreamingLogMonitor.cs:85-95 | behind a head without the mark, the Spawning reader gives a command back, trimmed, if and only if it does not spell the closing mark |
| `LaunchIdentity.StampedEntryCarries` | control/ArtLightControl.Core/SunshineSync.cs:684-747 | the entry written for a game carries the normalised command its launch prints |
| `LaunchIdentity.QuotesAreStripped` | control/ArtLightControl.Core/SunshineSync.cs:227-232 | a quoted path normalises to the path |
| `LaunchIdentity.RunResolveAppNameForCommand` | control/ArtLightControl.Core/SunshineSync.cs:171-221 | the resolving loops compute the specified answer, ambiguous and blank cases included |
| `LaunchWatching.AttentionIff` | control/ArtLightControl.Core/LaunchWatcher.cs:513-546 | the phase becomes NeedsAttention if and only if the unbroken run of waiting ticks ending here lasted 10 or 20 s, as its first tick dictates, before the ninetieth second |
| `LaunchWatching.PhaseAfterATick` | control/ArtLightControl.Core/LaunchWatcher.cs:480-568 | over every run, after its last tick: Ready if and only if the target fills the screen, GameWindow when another window of it is up, Timeout if and only if nothing of it is and 90 s have passed, else NeedsAttention after a long wait and otherwise the phase before |
| `LaunchWatching.LaunchingIff` | control/ArtLightControl.Core/LaunchWatcher.cs:480-568 | the phase is Launching if and only if no tick so far saw a window of the target, came at 90 s or later, or ended a long wait |
| `LaunchWatching.OnlyTargetsAreWatched` | control/ArtLightControl.Core/LaunchWatcher.cs:237-320 | a launch with a known target starts Launching, sampled, with an empty history; any other is NotApplicable and not sampled |
| `LaunchWatching.FieldsReflectHistory` | control/ArtLightControl.Core/LaunchWatcher.cs:485-546 | the since, its flag, the seen flag and the scan counter are functions of the whole history of ticks |
| `LaunchWatching.NoAttentionOnceSeen` | control/ArtLightControl.Core/LaunchWatcher.cs:506-519 | after the target's process has been seen the phase is never newly NeedsAttention |
| `LaunchWatching.RunningProcessIsNoticed` | control/ArtLightControl.Core/LaunchWatcher.cs:836-855 | a process running for four windowless ticks sets the watcher's flag, which stays set whatever is observed afterwards |
| `LaunchWatching.ScanIsRememberedIff` | control/ArtLightControl.Core/LaunchWatcher.cs:480-511 | the process table is read on every fourth tick until it has answered yes, and a scan that finds the process is remembered if and only if nothing of the target is on screen at that tick |
| `LaunchWatching.ForgottenScanRaisesTheAlarm` | control/ArtLightControl.Core/LaunchWatcher.cs:485-546 | two launches at 250 ms that agree in all but the fourth tick, whose scan finds the process: with nothing on screen the yes is kept and no alarm follows; with a window of the target up it is lost, and the alarm follows once the process is gone and a new foreign window has held the screen for ten seconds |
| `LaunchWatching.NoFalseAlarmIff` | control/ArtLightControl.Core/LaunchWatcher.cs:519-546 | over every launch whose process runs throughout the phase is never NeedsAttention, if and only if ticks stay less than five seconds apart; the timer's period is 250 ms |
| `LaunchWatching.NothingWaitsPastTheDeadline` | control/ArtLightControl.Core/LaunchWatcher.cs:562-567 | no tick at or after 90 s leaves Launching or NeedsAttention, and exactly Ready and Timeout stop the sampling |
| `LaunchWatching.SessionEndForgetsIff` | control/ArtLightControl.Core/LaunchWatcher.cs:332-352 | the end of a session keeps a launch if and only if it was armed after that session's stop was seen |
| `LaunchWatcherObject.LaunchWatcher.OnAppLaunched` | control/ArtLightControl.Core/LaunchWatcher.cs:237-320 | a resolved target arms a fresh launch with an empty history; a desktop, Battle.net or unresolved one is not watched |
| `LaunchWatcherObject.LaunchWatcher.Tick` | control/ArtLightControl.Core/LaunchWatcher.cs:480-568 | each tick extends the history and the fields stay the outcome of it, the phase included (`PhaseAfterATick`) |
| `LaunchWatcherObject.LaunchWatcher.ObserveTargetProcess` | control/ArtLightControl.Core/LaunchWatcher.cs:836-855 | the process table is read every fourth tick and not once it has answered yes |
| `LaunchWatcherObject.LaunchWatcher.CheckForeground` | control/ArtLightControl.Core/LaunchWatcher.cs:519-546 | the foreground rule on one timestamp |
| `LaunchWatcherObject.LaunchWatcher.OnSessionEnded` | control/ArtLightControl.Core/LaunchWatcher.cs:332-352 | keeps a younger launch, forgets any other |
| `SessionLog.EveryRunIsWellFormed` | control/ArtLightControl.Core/SessionLogger.cs:339-394 | over every run the spans are ordered, apart, not in the future, only the last open, and the active row is open from the session's start |
| `SessionLog.KeptRowHoldsItsSpans` | control/ArtLightControl.Core/SessionLogger.cs:676-703 | a row kept by EndSession has all spans closed inside the session and no longer together than it; a short or gameless one is removed |
| `SessionLog.StreamedFits` | control/ArtLightControl.Core/SessionLogger.cs:339-368 | closed well-formed spans add up to no more than the stretch they cover |
| `SessionTime.SpansMeasureTheStream` | control/ArtLightControl.Core/SessionLogger.cs:339-368 | over every session, whatever starts, stops and clears come: the last span is open exactly while the stream is live, and the spans together are as long as the stream was live by the times of the events alone |
| `SessionTime.KeptRowMeasuresTheStream` | control/ArtLightControl.Core/SessionLogger.cs:676-703 | the row kept at the end of a session carries exactly the streamed time, and a stream still live ends with the session |
| `SessionTime.StopEndsTheSpan` | control/ArtLightControl.Core/SessionLogger.cs:349-356 | a stop ends the open span at the time of the event and changes nothing else |
| `SessionTime.StartOpensASpan` | control/ArtLightControl.Core/SessionLogger.cs:339-346 | a start opens a span at the time of the event unless one is open |
| `SessionTime.SessionOpens` | control/ArtLightControl.Core/SessionLogger.cs:370-403 | a session begins with one open row in front of the others and one open span, both from now |
| `SessionTime.SessionCloses` | control/ArtLightControl.Core/SessionLogger.cs:676-703 | the active row is ended now and kept with its spans if and only if it lasted a minute and is wanted; otherwise it alone is removed |
| `SessionTime.OrphanCloses` | control/ArtLightControl.Core/SessionLogger.cs:628-662 | with no session active the newest open row alone is ended now, or removed under a minute |
| `SessionTime.ClearForgetsTheRecent` | control/ArtLightControl.Core/SessionLogger.cs:442-456 | clearing drops the rows from the cutoff on, never the active session's, and no span |
| `SessionLoggerObject.SessionLogger.RecordStreamStart` | control/ArtLightControl.Core/SessionLogger.cs:339-346 | opens a span unless one is open |
| `SessionLoggerObject.SessionLogger.RecordStreamStop` | control/ArtLightControl.Core/SessionLogger.cs:349-356 | the fields change as `StopEndsTheSpan` says: an open span ends at the time given |
| `SessionLoggerObject.SessionLogger.StartSession` | control/ArtLightControl.Core/SessionLogger.cs:370-403 | a new row in front, and one open span from its start |
| `SessionLoggerObject.SessionLogger.EndSession` | control/ArtLightControl.Core/SessionLogger.cs:616-703 | closes, keeps or removes the active row, with the cases of no row, a closed row and no owner |
| `SessionLoggerObject.SessionLogger.CloseOrphan` | control/ArtLightControl.Core/SessionLogger.cs:628-662 | with no active session the newest open row is closed, or removed if short |
| `AppSession.CouplingHolds` | control/ArtLightControl/App.Session.cs:164-245 | over every serial run the link manager's live flag equals "a session is active and its last span is open" |
| `AppSession.EventKeepsCoupling` | control/ArtLightControl/App.Session.cs:365-453 | each event keeps it, session starts, reconnects, wind-ups and client stops included |
| `AppSession.StartOpensTheSession` | control/ArtLightControl/App.Session.cs:170-210 | a start without a session opens a row and a span from now and tells the link a stream is live |
| `AppSession.StartResumesTheSession` | control/ArtLightControl/App.Session.cs:170-210 | a start within a session adds a span from now unless one is open, and no row |
| `AppSession.StopFreesTheLink` | control/ArtLightControl/App.Session.cs:211-240 | a stop within a session ends the span at its time, notes that time, frees the link and leaves the session open |
| `AppSession.UnlockLeavesNoTrace` | control/ArtLightControl/App.Session.cs:170-225 | the start and stop of a declared unlock change nothing in link, log and watcher |
| `AppSession.StrayStopIsIgnored` | control/ArtLightControl/App.Session.cs:211-225 | a stop with no session and no unlock changes nothing |
| `AppSession.WindUpEndsTheSession` | control/ArtLightControl/App.Session.cs:396-453 | a wind-up leaves no session, no active row and no live flag; without a session it does nothing |
| `AppSession.NoJobUnderAnOpenSpan` | control/ArtLightControl.Core/LinkSpeedManager.cs:267-279 | while a session's span is open, nothing that reaches the link from outside the dispatcher starts a job: no request is accepted, and a restore is scheduled instead |
| `AppSession.JobsStartOnlyAsTheSessionEnds` | control/ArtLightControl/App.Session.cs:396-436 | a dispatcher event that starts a job under an open span is one that ends the session |
| `SessionRestores.WindUpStartsAJobIff` | control/ArtLightControl/App.Session.cs:396-436 | a wind-up starts a job if and only if a restore was pending, the probe finds no stream and the setting resolves; halfway through, the job is in flight with the session active and its span open |
| `SessionRestores.RestoreStartsUnderAnOpenSpan` | control/ArtLightControl/App.Session.cs:409-431 | a run in which it happens: granted switch, stream, restore deferred under it, wind-up with no logged stop |
| `SessionRestores.ClientStopStartsJobs` | control/ArtLightControl/App.xaml.cs:495-504 | a client's stop starts no restore, one, or - exactly when one was already pending, no stream is found and the setting resolves - two |
| `SessionRestores.ClientStopCanLoseTheRecord` | control/ArtLightControl/App.xaml.cs:495-504 | a client's stop over a pending restore leaves the link where some continuation loses the record of the original setting |
| `SessionRestores.SessionEndLeavesTheLinkIff` | control/ArtLightControl.Core/LinkSpeedManager.cs:392-415 | the end of a session changes nothing of the link but the live flag if and only if no restore was pending: it arms no grace period |
| `AppSession.WindUpForgetsLaunchIff` | control/ArtLightControl/App.Session.cs:411-415 | a wind-up forgets the launch if and only if it is not younger than the last detected stop |
| `AppSession.StaleStopKeepsAFinishedLaunch` | control/ArtLightControl/App.Session.cs:226-229 | a run in which an old stop time keeps the launch of a session that has ended |
| `AppDispatcher.App.constructor` | control/ArtLightControl/App.Session.cs:263-283 | with no live stream the coupling holds from the start |
| `AppDispatcher.App.OnBridgeUnlockSessionMarked` | control/ArtLightControl/App.Session.cs:288-307 | an unlock is declared at a later moment if and only if it was not taken back and the moment is within three minutes |
| `AppDispatcher.App.ConsumeUnlockSessionMark` | control/ArtLightControl/App.Session.cs:314-320 | a declared unlock is consumed once, before its deadline |
| `AppDispatcher.App.OnStreamStarted` | control/ArtLightControl/App.Session.cs:170-210 | a start is suppressed, opens a session, or resumes one |
| `AppDispatcher.App.OnStreamStopped` | control/ArtLightControl/App.Session.cs:211-240 | a stop is suppressed, or closes the span and clears the live flag |
| `AppDispatcher.App.HandleAutoStreamStart` | control/ArtLightControl/App.Session.cs:365-394 | marks the link live and starts the session |
| `AppDispatcher.App.HandleAutoStreamStop` | control/ArtLightControl/App.Session.cs:396-453 | ends the link's session, the launch and the row, in that order |
| `AppDispatcher.App.OnBridgeRestoreRequested` | control/ArtLightControl/App.xaml.cs:495-504 | a client's stop winds up the session and restores at once |
| `Downsampling.DownsamplePreservesTheSeries` | control/ArtLightControl.Core/SessionTelemetry.cs:323-337 | the buckets cut the series into contiguous non-empty runs, each output is the mean of its run and so within its extremes, and the outputs weighted by run length add up to the input |
| `Downsampling.BoundariesCut` | control/ArtLightControl.Core/SessionTelemetry.cs:326-331 | the boundaries rise strictly from 0 to the length |
| `Downsampling.BucketsAreBalanced` | control/ArtLightControl.Core/SessionTelemetry.cs:330-331 | bucket lengths differ by at most one |
| `Downsampling.RunDownsample` | control/ArtLightControl.Core/SessionTelemetry.cs:323-337 | the loops compute the bucket averages, or copy a short series |
| `QualityGrade.GradeIsMonotone` | control/ArtLightControl.Core/SessionTelemetry.cs:403-475 | raising any graded statistic, or a positive target rate, never improves the grade, through the sentinels and both spikes |
| `QualityGrade.HighIff` | control/ArtLightControl.Core/SessionTelemetry.cs:412-474 | the exact numbers that earn High |
| `QualityGrade.LowIff` | control/ArtLightControl.Core/SessionTelemetry.cs:412-474 | the exact numbers that earn Low |
| `QualityGrade.GradeIsTheWorstCriterion` | control/ArtLightControl.Core/SessionTelemetry.cs:405-475 | the grade is the worst of the four criteria, and NoData exactly below two samples |
| `QualityGrade.PeriodShrinks` | control/ArtLightControl.Core/SessionTelemetry.cs:400-401 | a faster target has a shorter frame budget |
| `QualityGrade.PeriodTimesRate` | control/ArtLightControl.Core/SessionTelemetry.cs:400-401 | the frame budget times the target rate is 1000 ms, at 60 Hz when no rate is reported |
| `TelemetryLaws.IncrementalIsWholeHistory` | control/ArtLightControl.Core/SessionTelemetry.cs:145-210 | after any batches every list and counter is the map or filter of the whole history of samples, each judged against its own batch's rate |
| `TelemetryLaws.BatchingDoesNotMatter` | control/ArtLightControl.Core/SessionTelemetry.cs:145-259 | at one target rate two batchings of the same samples, empty batches included, give the same statistics and series |
| `TelemetryLaws.StatisticsMeanWhatTheySay` | control/ArtLightControl.Core/SessionTelemetry.cs:212-249 | after any batches every statistic is the mean, extreme, total or share its name says, over the samples it is about, or its sentinel when there are none |
| `TelemetryLaws.SeriesAreTheSamples` | control/ArtLightControl.Core/SessionTelemetry.cs:251-257 | the five series are the samples' own figures in order, those of silent samples left out, each reduced to 600 points |
| `TelemetryLaws.FramesAreRoundedDown` | control/ArtLightControl.Core/SessionTelemetry.cs:178-182 | a sample stands for its frames and drops rounded down, within one frame, and for one when they come to less |
| `TelemetryLaws.LateIff` | control/ArtLightControl.Core/SessionTelemetry.cs:187-198 | a sample is late exactly when its worst frame took more than two frame periods at its own batch's rate |
| `TelemetryLaws.RatesArePercentages` | control/ArtLightControl.Core/SessionTelemetry.cs:226-245 | the drop rate of non-negative samples is in [0, 100]; the late share is -1 exactly when no host latency was reported and otherwise in [0, 100] |
| `TelemetryLaws.UnreportedLatencyIsNotGraded` | control/ArtLightControl.Core/SessionTelemetry.cs:426-443 | a session without host latency is graded on drops and round trips alone |
| `TelemetryLaws.GatherSamples` | control/ArtLightControl.Core/SessionTelemetry.cs:153-199 | adding samples one by one gathers them all |
| `Telemetry.Frames` | control/ArtLightControl.Core/SessionTelemetry.cs:178-182 | a sample stands for at least one frame and at least its drops |
| `TelemetryAccumulation.TelemetryAccumulator.constructor` | control/ArtLightControl.Core/SessionTelemetry.cs:110-143 | starts empty |
| `TelemetryAccumulation.TelemetryAccumulator.AddBatch` | control/ArtLightControl.Core/SessionTelemetry.cs:145-209 | the loop over a batch adds exactly its samples, and each available host figure once; an empty batch changes nothing, the target rate included |
| `TelemetryAccumulation.TelemetryAccumulator.AddSample` | control/ArtLightControl.Core/SessionTelemetry.cs:155-198 | one sample: frames always, round trip and host latency only when reported |
| `TelemetryAccumulation.TelemetryAccumulator.Finalize` | control/ArtLightControl.Core/SessionTelemetry.cs:212-259 | the client and host statistics with their sentinels and the five reduced series |
| `TelemetryAccumulation.HostLists.Add` | control/ArtLightControl.Core/SessionTelemetry.cs:203-208 | a snapshot records each figure that is not negative |
| `TelemetryAccumulation.HostLists.GetHostSeries` | control/ArtLightControl.Core/SessionTelemetry.cs:266-283 | the three host series, reduced like the others |
| `HostMetrics.MetricsAreWholeHistory` | control/ArtLightControl.Core/SessionTelemetry.cs:203-208 | after any batches each host list is the available figures of its metric over the batches that brought samples |
| `HostMetrics.HostFiguresAreConsistent` | control/ArtLightControl.Core/SessionTelemetry.cs:240-248 | each host average is -1 exactly when its peak is, and never above it |
| `HostMetrics.HostStatisticsMeanWhatTheySay` | control/ArtLightControl.Core/SessionTelemetry.cs:240-248 | after any batches each host statistic is the rounded-down mean, or the peak, of its own metric's available figures, and -1 without any |
| `HostMetrics.HostSeriesAreTheFigures` | control/ArtLightControl.Core/SessionTelemetry.cs:266-283 | the three series are the available figures of their own metric in order, each reduced to 600 points |
| `HostMetrics.FiguresIff` | control/ArtLightControl.Core/SessionTelemetry.cs:203-208 | a figure is kept if and only if a batch with samples brought it and it is not negative |
| `TelemetryAccumulation.TelemetryAccumulator.Reset` | control/ArtLightControl.Core/SessionTelemetry.cs:285-316 | forgets everything, the host lists included |
| `ReplayCache.PruningChangesNoVerdict` | control/ArtLightControl.Core/BridgeAuthService.cs:184-235 | over every clock-ordered run the pruned cache decides each call exactly as one that never forgets |
| `ReplayCache.NoSignatureTwice` | control/ArtLightControl.Core/BridgeAuthService.cs:218-223 | no signature, as written, is accepted twice in any such run |
| `ReplayCache.MessagesAreSingleIff` | control/ArtLightControl.Core/BridgeAuthService.cs:201-223 | when a message has one signature once decoded, a cache keyed by the decoded signature never accepts a message twice; the code's, keyed by the text, never does if and only if the decoder tells all spellings of a genuine signature apart |
| `ReplayCache.KeyedMessagesAreSingleIff` | control/ArtLightControl.Core/BridgeAuthService.cs:218-223 | whatever a cache keys its signatures by, it keeps messages single if and only if all signatures that verify for a message share one key |
| `ReplayCache.SafeIffTwoSkews` | control/ArtLightControl.Core/BridgeAuthService.cs:228-235 | for any window and horizon, that holds if and only if the horizon is at least twice the window |
| `ReplayCache.TheCodesHorizonIsSafe` | control/ArtLightControl.Core/BridgeAuthService.cs:50 | the code's 60 s and 120 s satisfy it |
| `ReplayCache.CacheRemembers` | control/ArtLightControl.Core/BridgeAuthService.cs:218-235 | the cache holds nothing but accepted signatures, and every one accepted within the horizon |
| `BridgeAuth.BridgeAuthService.constructor` | control/ArtLightControl.Core/BridgeAuthService.cs:57-65 | the cache starts empty over the stored clients |
| `BridgeAuth.GenuineIff` | control/ArtLightControl.Core/BridgeAuthService.cs:186-216 | a signature is genuine if and only if neither it nor the id is blank and the first approved client of that id, in any case, has the key that verifies it |
| `BridgeAuth.BridgeAuthService.TryVerify` | control/ArtLightControl.Core/BridgeAuthService.cs:184-226 | accepted if and only if the timestamp is within 60 s, the first approved client of the id signed the message and the signature was not accepted within 120 s; then the signature is remembered and that client alone stamped; with no approved client of that id the call is refused and nothing remembered |
| `BridgeAuth.BridgeAuthService.PruneSeen` | control/ArtLightControl.Core/BridgeAuthService.cs:228-235 | exactly the signatures older than the horizon are dropped |

## Left out

- Operating-system calls (adapter, registry, WMI, windows, processes, power): their results are inputs.
- Network and disk: the bridge's socket, the service pipe, HTTP fetchers, JSON text. The apps list and the session rows are sequences of records, the settings file a record whose writes are steps.
- User interface, tray, toasts, debug sessions and the live feed: they only display.
- Cryptography and base64: whether a signature verifies is a predicate of the service.
- Enrolment, approval and revocation of clients: between calls the client list may be anything.
- The input service in C++ and the clipboard share: operating-system calls.
- `SetAdapter`, adapter discovery, the NETINFO text, notifications and the client's name: no effect on what is proved.
- `RestoreBeforeSuspendAsync`: it polls what `RestoreNow` leaves.
- Text form of OriginalMbps: stored as a number, so an unparsable figure is not modelled.
- Target resolution and the window sweep of the launch watcher, its overlapping timer callbacks and a tick for an earlier launch: a tick is atomic over any observation.
- `ResolveAppNameForExecutable`, seeding of detected games and the suppression of Desktop lines: other readers of the same lines.
- Log rotation, rediscovery and the scan at startup: the monitor reads one sequence of lines.
- Checkpoints, recovery of interrupted sessions and concurrent callers of `EndSession`: one dispatcher runs every event to its end.
- Exceptions inside the dispatcher's handlers: they run to completion.
- The timers that wind a session up (inactivity, heartbeat, socket): a wind-up may come at any time.
- The hash behind an entry's id: a game carries its id.
- Letters beyond ASCII in case folding and in uuids.
- Rounding of floats, and the 32-bit and 64-bit widths of counters.
- LinkSpeedSafety.RunKeepsInv: assumes a restore is not entered over a running job, which the code does not check; LinkSpeedGuard proves the assumption exact.
- LinkSpeedSafety.SwitchRestoreRoundTrip: the user changes the setting by hand only while the link is not switched.
- LinkSpeedManagement.LinkSpeedManager.constructor: the adapter is given, so its discovery and the write of its name are not modelled.
- AppDispatcher.App.HandleAutoStreamStop: the early return in debug mode is left out with the debug session.
- LaunchIdentity.LaunchIsIdentified: for parts that do not spell the line's own marks out; a command with a quote in it is cut short by the reader.
- ReplayCache.NoSignatureTwice: takes it that a signature is genuine for one timestamp only and that the clock does not go back.
