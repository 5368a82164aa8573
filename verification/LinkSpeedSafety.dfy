/**
 * Crash consistency and the switch/restore round trip of the link-speed state machine, over every
 * run in which no restore job is started while another job is in flight. RestoreNow itself does
 * not check that; LinkSpeedGuard proves the condition exact.
 */
module LinkSpeedSafety {
  import opened Common
  import opened Text
  import opened LinkSpeedModel

  // ── What is promised of the disk ────────────────────────────────────────────

  /** The driver's display strings identify its settings, even ignoring case. */
  ghost predicate DistinctKeys(nic: Nic) {
    forall i, j | 0 <= i < j < |nic.options| :: Fold(nic.options[i].displayKey) != Fold(nic.options[j].displayKey)
  }

  /** The adapter reports a setting, with a name, for this registry value. */
  predicate Readable(nic: Nic, registry: string) {
    CapturedKey(nic, registry) != ""
  }

  /** The persisted OriginalSpeed names the setting `home`. */
  predicate Names(nic: Nic, d: Durable, home: string) {
    d.originalSpeed != "" &&
    var o := First(nic.options, (o: LinkOption) => Fold(o.displayKey) == Fold(d.originalSpeed));
    o.Some? && o.value.registryValue == home
  }

  /** An adapter away from its own setting is on record as such, under the name of that setting. */
  predicate Recoverable(nic: Nic, d: Durable, home: string) {
    d.registry != home ==> d.streamingMode && Names(nic, d, home)
  }

  /** The disk half of the invariant: stronger than `Recoverable`. */
  predicate DiskOk(nic: Nic, d: Durable, home: string) {
    if d.streamingMode then Names(nic, d, home) else d.registry == home
  }

  ghost predicate Inv(nic: Nic, h: Host, home: string) {
    && DiskOk(nic, h.disk, home)
    && |h.jobs| <= 1
    && (h.mem.state == Changing <==> h.jobs != [])
    && (h.mem.state != Idle ==> h.mem.isSwitched)
    && h.mem.isSwitched == h.disk.streamingMode
    && (h.mem.isSwitched ==> h.mem.originalMbps == h.disk.originalMbps)
    && (forall j | j in h.jobs && j.isRestore ::
          j.target.registryValue == home && (j.phase == Settling ==> h.disk.registry == home))
  }

  lemma CaptureNames(nic: Nic, d: Durable)
    requires DistinctKeys(nic) && Readable(nic, d.registry)
    ensures Names(nic, d.(originalSpeed := CapturedKey(nic, d.registry)), d.registry)
  {
    var captured := CurrentSetting(nic, d.registry).value;
    var found := First(nic.options, (o: LinkOption) => Fold(o.displayKey) == Fold(captured.displayKey));
    assert captured in nic.options;
    assert found.Some?;
  }

  // ── Steps and runs ──────────────────────────────────────────────────────────

  /** The live-stream answer of an operation that is about to run RestoreNow. */
  function RestoreProbe(op: Op): Option<bool> {
    match op
    case OpRestore(probe, _) => Some(probe)
    case OpCallbackRestore(probe, _) => Some(probe)
    case OpEndingRestore(probe, _) => Some(probe)
    case _ => None
  }

  /**
   * What the guarantees below need of a step: a restore that would not be deferred is not entered
   * while a job is in flight, and a first switch captures a setting the adapter can report. Nobody
   * sees to the first. A caller of RestoreNow could; the manager's own callbacks and session ends
   * do not, and LinkSpeedOverlap and SessionRestores show when they break it.
   */
  predicate Guarded(nic: Nic, h: Host, op: Op) {
    && Enabled(h, op)
    && (RestoreProbe(op).Some? && !IsStreamLive(h, RestoreProbe(op).value) ==> h.jobs == [])
    && (op.OpRequest? && StartsSwitch(nic, h, op.r) && !h.mem.isSwitched ==> Readable(nic, h.disk.registry))
  }

  /** An operation runs, or the process is killed after its first `writes` writes and starts again. */
  datatype Event = Do(op: Op) | Killed(op: Op, writes: nat, probe: bool, now: int)

  function DiskAfter(nic: Nic, h: Host, op: Op, writes: nat): Durable
    requires Enabled(h, op) && writes <= |Writes(nic, h, op)|
  {
    if writes == 0 then h.disk else Writes(nic, h, op)[writes - 1]
  }

  predicate Legal(nic: Nic, h: Host, ev: Event) {
    Guarded(nic, h, ev.op) && (ev.Killed? ==> ev.writes <= |Writes(nic, h, ev.op)|)
  }

  function Restart(nic: Nic, d: Durable, probe: bool, now: int): Host {
    RecoverAtStartup(nic, Fresh(d), probe, now)
  }

  function After(nic: Nic, h: Host, ev: Event): Host
    requires Legal(nic, h, ev)
  {
    match ev
    case Do(op) => Next(nic, h, op)
    case Killed(op, writes, probe, now) => Restart(nic, DiskAfter(nic, h, op, writes), probe, now)
  }

  /** The adapter's own setting: changed only by the user, and only while the link is not switched. */
  function HomeAfter(home: string, ev: Event): string {
    if ev.op.OpUserSetting? && (ev.Killed? ==> ev.writes > 0) then ev.op.registry else home
  }

  predicate LegalRun(nic: Nic, h: Host, evs: seq<Event>)
    decreases |evs|
  {
    evs == [] || (Legal(nic, h, evs[0]) && LegalRun(nic, After(nic, h, evs[0]), evs[1..]))
  }

  function Run(nic: Nic, h: Host, evs: seq<Event>): Host
    requires LegalRun(nic, h, evs)
    decreases |evs|
  {
    if evs == [] then h else Run(nic, After(nic, h, evs[0]), evs[1..])
  }

  function HomeOf(home: string, evs: seq<Event>): string
    decreases |evs|
  {
    if evs == [] then home else HomeOf(HomeAfter(home, evs[0]), evs[1..])
  }

  // ── One step ────────────────────────────────────────────────────────────────

  /** The listed writes of an operation end in the state the operation leaves. */
  lemma WritesEndAtNext(nic: Nic, h: Host, op: Op)
    requires Enabled(h, op)
    ensures DiskAfter(nic, h, op, |Writes(nic, h, op)|) == Next(nic, h, op).disk
  {
  }

  lemma NamedSettingIsResolved(nic: Nic, d: Durable, home: string, mbps: int)
    requires Names(nic, d, home)
    ensures ResolveOriginalOption(nic, d.originalSpeed, mbps).Some?
    ensures ResolveOriginalOption(nic, d.originalSpeed, mbps).value.registryValue == home
  {
  }

  lemma RestoreNowKeepsInv(nic: Nic, h: Host, home: string, probe: bool, now: int)
    requires Inv(nic, h, home) && (!IsStreamLive(h, probe) ==> h.jobs == [])
    ensures Inv(nic, RestoreNow(nic, h, probe, now), home)
    ensures RestoreWrites(nic, h, probe) == []
  {
    if h.mem.isSwitched {
      NamedSettingIsResolved(nic, h.disk, home, h.mem.originalMbps);
    }
  }

  lemma RequestKeepsInv(nic: Nic, h: Host, home: string, r: Request)
    requires DistinctKeys(nic) && Inv(nic, h, home) && Guarded(nic, h, OpRequest(r))
    ensures Inv(nic, RequestSpeed(nic, h, r), home)
  {
    if StartsSwitch(nic, h, r) && !h.mem.isSwitched {
      CaptureNames(nic, h.disk);
    }
  }

  lemma JobKeepsInv(nic: Nic, h: Host, home: string, i: nat, ok: bool)
    requires Inv(nic, h, home) && i < |h.jobs|
    ensures h.jobs[i].phase == Pending ==> Inv(nic, JobApply(h, i, ok), home)
    ensures h.jobs[i].phase != Pending ==> Inv(nic, JobEnd(h, i), home)
  {
    assert h.jobs == [h.jobs[0]] && h.jobs[0] in h.jobs;
  }

  /** Session events, timers, disposal and the user's own change. */
  lemma QuietOpKeepsInv(nic: Nic, h: Host, home: string, op: Op)
    requires Inv(nic, h, home) && Enabled(h, op) && RestoreProbe(op).None?
    requires !op.OpRequest? && !op.OpJobApply? && !op.OpJobEnd?
    ensures Inv(nic, Next(nic, h, op), HomeAfter(home, Do(op)))
  {
  }

  lemma StepKeepsInv(nic: Nic, h: Host, home: string, op: Op)
    requires DistinctKeys(nic) && Inv(nic, h, home) && Guarded(nic, h, op)
    ensures Inv(nic, Next(nic, h, op), HomeAfter(home, Do(op)))
  {
    match op
    case OpRequest(r) => RequestKeepsInv(nic, h, home, r);
    case OpRestore(probe, now) => RestoreNowKeepsInv(nic, h, home, probe, now);
    case OpCallbackRestore(probe, now) =>
      RestoreNowKeepsInv(nic, h.(callbacks := h.callbacks - 1), home, probe, now);
    case OpEndingRestore(probe, now) =>
      RestoreNowKeepsInv(nic, h.(endings := h.endings - 1), home, probe, now);
    case OpJobApply(i, ok) => JobKeepsInv(nic, h, home, i, ok);
    case OpJobEnd(i) => JobKeepsInv(nic, h, home, i, true);
    case _ => QuietOpKeepsInv(nic, h, home, op);
  }

  lemma WritesKeepDiskOk(nic: Nic, h: Host, home: string, op: Op, writes: nat)
    requires DistinctKeys(nic) && Inv(nic, h, home) && Guarded(nic, h, op)
    requires writes <= |Writes(nic, h, op)|
    ensures DiskOk(nic, DiskAfter(nic, h, op, writes), HomeAfter(home, Killed(op, writes, false, 0)))
  {
    match op
    case OpRequest(r) =>
      if StartsSwitch(nic, h, r) && !h.mem.isSwitched {
        CaptureNames(nic, h.disk);
      }
    case OpRestore(probe, now) => RestoreNowKeepsInv(nic, h, home, probe, now);
    case OpCallbackRestore(probe, now) => RestoreNowKeepsInv(nic, h, home, probe, now);
    case OpEndingRestore(probe, now) => RestoreNowKeepsInv(nic, h, home, probe, now);
    case _ =>
  }

  /** Starting again over a disk in order restores the manager's whole invariant. */
  lemma RestartKeepsInv(nic: Nic, d: Durable, home: string, probe: bool, now: int)
    requires DiskOk(nic, d, home)
    ensures var h := Restart(nic, d, probe, now);
      Inv(nic, h, home) && h.disk == d && RecoverWrites(nic, Fresh(d), probe) == []
  {
    if d.streamingMode {
      var switched := Fresh(d).(mem := Fresh(d).mem.(originalMbps := d.originalMbps, isSwitched := true));
      RestoreNowKeepsInv(nic, switched, home, probe, now);
      NamedSettingIsResolved(nic, d, home, d.originalMbps);
    }
  }

  lemma EventKeepsInv(nic: Nic, h: Host, home: string, ev: Event)
    requires DistinctKeys(nic) && Inv(nic, h, home) && Legal(nic, h, ev)
    ensures Inv(nic, After(nic, h, ev), HomeAfter(home, ev))
  {
    match ev
    case Do(op) => StepKeepsInv(nic, h, home, op);
    case Killed(op, writes, probe, now) =>
      WritesKeepDiskOk(nic, h, home, op, writes);
      RestartKeepsInv(nic, DiskAfter(nic, h, op, writes), HomeAfter(home, ev), probe, now);
  }

  // ── Whole runs ──────────────────────────────────────────────────────────────

  lemma {:induction false} RunKeepsInv(nic: Nic, h: Host, home: string, evs: seq<Event>)
    requires DistinctKeys(nic) && Inv(nic, h, home) && LegalRun(nic, h, evs)
    ensures Inv(nic, Run(nic, h, evs), HomeOf(home, evs))
    decreases |evs|
  {
    if evs != [] {
      EventKeepsInv(nic, h, home, evs[0]);
      RunKeepsInv(nic, After(nic, h, evs[0]), HomeAfter(home, evs[0]), evs[1..]);
    }
  }

  /** A first start, with nothing switched, establishes the invariant. */
  lemma FirstStartIsSafe(nic: Nic, d: Durable, probe: bool, now: int)
    requires !d.streamingMode
    ensures Inv(nic, Restart(nic, d, probe, now), d.registry)
  {
  }

  /** What a process started over the disk `d` finds, when `before` was the host that left it. */
  ghost predicate Recovers(nic: Nic, before: Host, d: Durable, again: Host, home: string) {
    && Recoverable(nic, d, home)
    && again.disk == d
    && again.mem.isSwitched == d.streamingMode
    && (d.streamingMode ==> again.mem.originalMbps == d.originalMbps && Names(nic, again.disk, home))
    && (d.streamingMode && before.mem.isSwitched ==> again.mem.originalMbps == before.mem.originalMbps)
  }

  lemma CrashInOneStep(nic: Nic, h: Host, home: string, op: Op, writes: nat, probe: bool, now: int)
    requires DistinctKeys(nic) && Inv(nic, h, home) && Legal(nic, h, Killed(op, writes, probe, now))
    ensures var d := DiskAfter(nic, h, op, writes);
      Recovers(nic, h, d, Restart(nic, d, probe, now), HomeAfter(home, Killed(op, writes, probe, now)))
  {
    var d := DiskAfter(nic, h, op, writes);
    WritesKeepDiskOk(nic, h, home, op, writes);
    RestartKeepsInv(nic, d, HomeAfter(home, Killed(op, writes, probe, now)), probe, now);
    if d.streamingMode && h.mem.isSwitched {
      CaptureKeptOnDisk(nic, h, home, op, writes);
    }
  }

  /**
   * Crash consistency. After any run (including earlier kills), and at any point inside the next
   * operation, an adapter away from its own setting is recorded with the name of that setting; and
   * a process started over that disk is switched again exactly when the disk says so, with the
   * recorded OriginalMbps - the one it had in memory if it was switched before the operation.
   */
  lemma CrashConsistency(nic: Nic, h: Host, home: string, evs: seq<Event>,
                         op: Op, writes: nat, probe: bool, now: int)
    requires DistinctKeys(nic) && Inv(nic, h, home) && LegalRun(nic, h, evs)
    requires Legal(nic, Run(nic, h, evs), Killed(op, writes, probe, now))
    ensures
      var before := Run(nic, h, evs);
      var d := DiskAfter(nic, before, op, writes);
      Recovers(nic, before, d, Restart(nic, d, probe, now),
               HomeAfter(HomeOf(home, evs), Killed(op, writes, probe, now)))
  {
    RunKeepsInv(nic, h, home, evs);
    CrashInOneStep(nic, Run(nic, h, evs), HomeOf(home, evs), op, writes, probe, now);
  }

  ghost predicate NoUserSetting(evs: seq<Event>) {
    forall ev | ev in evs :: !ev.op.OpUserSetting?
  }

  lemma {:induction false} HomeUnchanged(home: string, evs: seq<Event>)
    requires NoUserSetting(evs)
    ensures HomeOf(home, evs) == home
    decreases |evs|
  {
    if evs != [] {
      HomeUnchanged(home, evs[1..]);
    }
  }

  /**
   * The round trip. From a link that is not switched, through any number of speed requests,
   * refused applies, deferred restores and kills: whenever the link is not switched again, the
   * adapter is on exactly the setting it started from and nothing is left pending on the disk.
   */
  lemma SwitchRestoreRoundTrip(nic: Nic, h: Host, evs: seq<Event>)
    requires DistinctKeys(nic) && Inv(nic, h, h.disk.registry) && !h.mem.isSwitched
    requires LegalRun(nic, h, evs) && NoUserSetting(evs)
    ensures
      var end := Run(nic, h, evs);
      && (!end.mem.isSwitched ==> end.disk.registry == h.disk.registry && !end.disk.streamingMode && end.jobs == [])
      && (end.mem.isSwitched ==> Names(nic, end.disk, h.disk.registry))
      && (end.mem.state != Idle ==> end.mem.isSwitched)
  {
    RunKeepsInv(nic, h, h.disk.registry, evs);
    HomeUnchanged(h.disk.registry, evs);
  }

  lemma CaptureKeptInMemory(nic: Nic, h: Host, home: string, op: Op)
    requires Inv(nic, h, home) && Guarded(nic, h, op)
    requires h.mem.isSwitched && Next(nic, h, op).mem.isSwitched
    ensures Next(nic, h, op).disk.originalSpeed == h.disk.originalSpeed
    ensures Next(nic, h, op).disk.originalMbps == h.disk.originalMbps
  {
  }

  lemma CaptureKeptOnDisk(nic: Nic, h: Host, home: string, op: Op, writes: nat)
    requires Inv(nic, h, home) && Guarded(nic, h, op) && writes <= |Writes(nic, h, op)|
    requires h.mem.isSwitched && DiskAfter(nic, h, op, writes).streamingMode
    ensures DiskAfter(nic, h, op, writes).originalSpeed == h.disk.originalSpeed
    ensures DiskAfter(nic, h, op, writes).originalMbps == h.disk.originalMbps
  {
    if RestoreProbe(op).Some? {
      RestoreNowKeepsInv(nic, h, home, RestoreProbe(op).value, 0);
    }
  }

  /** While the link stays switched, no request, failure, restore attempt or kill touches the capture. */
  lemma CaptureIsNeverOverwritten(nic: Nic, h: Host, home: string, ev: Event)
    requires DistinctKeys(nic) && Inv(nic, h, home) && Legal(nic, h, ev)
    requires h.mem.isSwitched && After(nic, h, ev).mem.isSwitched
    ensures After(nic, h, ev).disk.originalSpeed == h.disk.originalSpeed
    ensures After(nic, h, ev).disk.originalMbps == h.disk.originalMbps
    ensures After(nic, h, ev).mem.originalMbps == h.mem.originalMbps
  {
    EventKeepsInv(nic, h, home, ev);
    match ev
    case Do(op) =>
      CaptureKeptInMemory(nic, h, home, op);
    case Killed(op, writes, probe, now) =>
      WritesKeepDiskOk(nic, h, home, op, writes);
      var d := DiskAfter(nic, h, op, writes);
      RestartKeepsInv(nic, d, HomeAfter(home, ev), probe, now);
      assert Restart(nic, d, probe, now).mem.isSwitched;
      CaptureKeptOnDisk(nic, h, home, op, writes);
  }

  /**
   * Why the captured setting must be readable: with the first switch applied and the process
   * killed, startup recovery finds the link switched if and only if the setting could be read.
   */
  lemma RecoveryNeedsAReadableSetting(nic: Nic, h: Host, home: string, r: Request, probe: bool, now: int)
    requires DistinctKeys(nic) && Inv(nic, h, home) && !h.mem.isSwitched && StartsSwitch(nic, h, r)
    ensures
      var requested := RequestSpeed(nic, h, r);
      var applied := JobApply(requested, |h.jobs|, true);
      Restart(nic, applied.disk, probe, now).mem.isSwitched <==> Readable(nic, h.disk.registry)
  {
    var applied := JobApply(RequestSpeed(nic, h, r), |h.jobs|, true);
    if Readable(nic, h.disk.registry) {
      CaptureNames(nic, h.disk);
      RestartKeepsInv(nic, applied.disk, h.disk.registry, probe, now);
    }
  }
}
