/**
 * What the operations of the link-speed manager come to, in the caller's terms: which setting the
 * adapter ends on, what is on record, which jobs and timers are left.
 */
module LinkSpeedOutcomes {
  import opened Common
  import opened Text
  import opened LinkSpeedModel
  import opened LinkSpeedSafety

  // ── Startup ─────────────────────────────────────────────────────────────────

  /** A restore, and nothing else, is on its way to the setting `home`. */
  predicate Restoring(h: Host, home: string) {
    && |h.jobs| == 1 && h.jobs[0].isRestore && h.jobs[0].phase == Pending && h.jobs[0].target.registryValue == home
    && h.mem.state == Changing && h.mem.isSwitched && h.mem.restoreAt.None? && h.armed == {}
  }

  /** No job; a restore is due in a minute, on a timer that is set. */
  predicate Waiting(h: Host, now: int) {
    && h.jobs == [] && h.mem.state == Idle && h.mem.isSwitched
    && h.mem.restoreAt == Some(now + 60_000) && h.mem.handle.Some? && h.armed == {h.mem.handle.value}
  }

  /** The adapter is on its own setting and nothing of a switch is left. */
  predicate PutBack(h: Host, home: string) {
    && h.disk == Durable(home, false, "", 0) && h.jobs == []
    && h.mem.state == Idle && !h.mem.isSwitched && h.mem.originalMbps == 0
  }

  /**
   * Startup recovery restores. Over a disk left switched, with no stream live, one restore to the
   * original setting is started, and once applied and settled it leaves the adapter on that setting
   * with the record cleared; with a stream live the restore is due in a minute. Over any other disk
   * a start leaves everything alone.
   */
  lemma RecoveryRestores(nic: Nic, d: Durable, home: string, probe: bool, now: int)
    requires DiskOk(nic, d, home)
    ensures var h := Restart(nic, d, probe, now);
      && (d.streamingMode && !probe ==> Restoring(h, home) && PutBack(JobEnd(JobApply(h, 0, true), 0), home))
      && (d.streamingMode && probe ==> Waiting(h, now))
      && (!d.streamingMode ==> h == Fresh(d))
  {
    if d.streamingMode {
      NamedSettingIsResolved(nic, d, home, d.originalMbps);
    }
  }

  /** Fresh is an empty memory: nothing switched, no job, no timer, no stream believed live. */
  lemma FreshIsEmpty(d: Durable)
    ensures var h := Fresh(d);
      && h.disk == d && h.jobs == [] && h.armed == {} && h.fired == {} && h.callbacks == 0 && h.endings == 0
      && !h.mem.isSwitched && h.mem.state == Idle && h.mem.restoreAt.None? && h.mem.handle.None?
      && !h.mem.sessionActive && !h.mem.disposed && h.mem.originalMbps == 0
  {
  }

  /**
   * A kill is made good. After any legal run and a kill anywhere inside the next operation, a start
   * with no stream live is either on the original setting already or restoring to it, and that
   * restore puts the adapter back.
   */
  lemma KilledRunIsPutBack(nic: Nic, h: Host, home: string, evs: seq<Event>, op: Op, writes: nat, now: int)
    requires DistinctKeys(nic) && Inv(nic, h, home) && LegalRun(nic, h, evs)
    requires Legal(nic, Run(nic, h, evs), Killed(op, writes, false, now))
    ensures
      var homeNow := HomeAfter(HomeOf(home, evs), Killed(op, writes, false, now));
      var again := After(nic, Run(nic, h, evs), Killed(op, writes, false, now));
      if again.mem.isSwitched
      then Restoring(again, homeNow) && PutBack(JobEnd(JobApply(again, 0, true), 0), homeNow)
      else again.disk.registry == homeNow && again.jobs == []
  {
    RunKeepsInv(nic, h, home, evs);
    var before := Run(nic, h, evs);
    WritesKeepDiskOk(nic, before, HomeOf(home, evs), op, writes);
    RecoveryRestores(nic, DiskAfter(nic, before, op, writes),
                     HomeAfter(HomeOf(home, evs), Killed(op, writes, false, now)), false, now);
  }

  // ── Speed requests ──────────────────────────────────────────────────────────

  predicate Offers(nic: Nic, mbps: int) {
    exists o | o in nic.options :: o.mbps == mbps
  }

  /** Which answer a request gets. The earlier reasons win. */
  lemma RequestAnswers(nic: Nic, h: Host, r: Request)
    ensures var answer := RequestResult(nic, h, r);
      var asked := nic.present && r.allowed && r.onAdapter;
      var free := asked && !h.mem.sessionActive && h.mem.state != Changing;
      && (answer == NoAdapter <==> !nic.present)
      && (answer == NotAllowed <==> nic.present && !r.allowed)
      && (answer == NotLan <==> nic.present && r.allowed && !r.onAdapter)
      && (answer == Unsupported <==> free && !Offers(nic, r.mbps))
      && (answer == Accepted <==> free && Offers(nic, r.mbps) && (r.current == r.mbps || !r.probe))
      && (answer == Busy <==>
            asked && (h.mem.sessionActive || h.mem.state == Changing
                      || (Offers(nic, r.mbps) && r.current != r.mbps && r.probe)))
  {
  }

  /** A refused request - by permission, by adapter, by a live stream or a running job - changes nothing. */
  lemma RefusalChangesNothing(nic: Nic, h: Host, r: Request)
    requires !nic.present || !r.allowed || !r.onAdapter || h.mem.sessionActive || h.mem.state == Changing
      || !Offers(nic, r.mbps) || (r.current != r.mbps && r.probe)
    ensures RequestSpeed(nic, h, r) == h && RequestWrites(nic, h, r) == []
  {
    RequestAnswers(nic, h, r);
  }

  /** The display key of the setting the driver reports for a registry value; empty if it reports none. */
  ghost predicate KeyOf(nic: Nic, registry: string, key: string) {
    || (exists o | o in nic.options :: o.registryValue == registry && o.displayKey == key)
    || (key == "" && forall o | o in nic.options :: o.registryValue != registry)
  }

  /** The request is one that goes through to the adapter. */
  predicate Switches(nic: Nic, h: Host, r: Request) {
    && nic.present && r.allowed && r.onAdapter && !h.mem.sessionActive && h.mem.state != Changing
    && Offers(nic, r.mbps) && r.current != r.mbps && !r.probe
  }

  /**
   * A granted switch. It starts one job for a setting of the asked speed and leaves nothing else
   * pending; a first switch records the setting the adapter was on and the speed measured there, a
   * later one leaves the record alone; and once applied and settled the adapter is on that setting.
   */
  lemma SwitchReachesTheSpeed(nic: Nic, h: Host, r: Request)
    requires Switches(nic, h, r)
    ensures var after := RequestSpeed(nic, h, r);
      var n := |h.jobs|;
      && |after.jobs| == n + 1 && after.jobs[..n] == h.jobs
      && after.jobs[n].target in nic.options && after.jobs[n].target.mbps == r.mbps
      && !after.jobs[n].isRestore && after.jobs[n].phase == Pending
      && after.mem.state == Changing && after.mem.isSwitched && after.mem.handle.None?
      && after.disk.streamingMode && after.disk.registry == h.disk.registry
      && (!h.mem.isSwitched ==>
            && after.mem.originalMbps == after.disk.originalMbps == r.current
            && KeyOf(nic, h.disk.registry, after.disk.originalSpeed))
      && (h.mem.isSwitched ==>
            after.mem.originalMbps == h.mem.originalMbps && after.disk == h.disk.(streamingMode := true))
    ensures var after := RequestSpeed(nic, h, r);
      var n := |h.jobs|;
      var done := JobEnd(JobApply(after, n, true), n);
      && done.disk.registry == after.jobs[n].target.registryValue && done.jobs == h.jobs
      && done.mem.state == Idle && done.mem.isSwitched && done.disk == after.disk.(registry := done.disk.registry)
  {
    RequestAnswers(nic, h, r);
    var after, n := RequestSpeed(nic, h, r), |h.jobs|;
    var applied := JobApply(after, n, true);
    assert applied.jobs[..n] == h.jobs && applied.jobs[n + 1..] == [];
  }

  /** A refused apply leaves the adapter and the record as they were, in state Error. */
  lemma RefusedApplyKeepsTheRecord(nic: Nic, h: Host, i: nat)
    requires i < |h.jobs|
    ensures var done := JobEnd(JobApply(h, i, false), i);
      && done.disk == h.disk && done.mem == h.mem.(state := Error)
      && done.jobs == h.jobs[..i] + h.jobs[i + 1..]
  {
    assert JobApply(h, i, false).jobs[..i] == h.jobs[..i];
    assert JobApply(h, i, false).jobs[i + 1..] == h.jobs[i + 1..];
  }

  /** Asking for the speed the adapter is already at starts and writes nothing; it only cancels a restore. */
  lemma AlreadyThereOnlyCancels(nic: Nic, h: Host, r: Request)
    requires nic.present && r.allowed && r.onAdapter && !h.mem.sessionActive && h.mem.state != Changing
    requires Offers(nic, r.mbps) && r.current == r.mbps
    ensures var after := RequestSpeed(nic, h, r);
      && after.disk == h.disk && after.jobs == h.jobs && RequestWrites(nic, h, r) == []
      && after.mem.state == h.mem.state && after.mem.isSwitched == h.mem.isSwitched
      && after.mem.originalMbps == h.mem.originalMbps && after.mem.handle.None?
      && (h.mem.handle.Some? ==> after.mem.restoreAt.None? && after.armed == h.armed - {h.mem.handle.value})
  {
    RequestAnswers(nic, h, r);
  }

  // ── Restores ────────────────────────────────────────────────────────────────

  /** `o` is the first setting named by the key, or without one the best of the recorded speed. */
  ghost predicate IsOriginal(nic: Nic, key: string, mbps: int, o: LinkOption) {
    var named := (p: LinkOption) => Fold(p.displayKey) == Fold(key);
    if exists p | p in nic.options :: named(p)
    then exists i | 0 <= i < |nic.options| ::
      nic.options[i] == o && named(o) && forall j | 0 <= j < i :: !named(nic.options[j])
    else
      && o in nic.options && o.mbps == mbps
      && (!o.fullDuplex ==> forall p | p in nic.options && p.mbps == mbps :: !p.fullDuplex)
  }

  /** Whether there is a setting to go back to. */
  predicate HasOriginal(nic: Nic, key: string, mbps: int) {
    key != "" && exists o | o in nic.options :: Fold(o.displayKey) == Fold(key) || o.mbps == mbps
  }

  lemma OriginalIsResolved(nic: Nic, key: string, mbps: int)
    ensures var found := ResolveOriginalOption(nic, key, mbps);
      && (found.Some? <==> HasOriginal(nic, key, mbps))
      && (found.Some? ==> IsOriginal(nic, key, mbps, found.value))
  {
    var named := (p: LinkOption) => Fold(p.displayKey) == Fold(key);
    var first := First(nic.options, (o: LinkOption) => Fold(o.displayKey) == Fold(key));
    if key != "" && first.Some? {
      var i := FirstIsEarliest(nic.options, (o: LinkOption) => Fold(o.displayKey) == Fold(key));
      assert nic.options[i] == first.value && named(first.value);
    }
  }

  /** The four things a restore can come to, and what each leaves. */
  lemma RestoreComesTo(nic: Nic, h: Host, probe: bool, now: int)
    ensures var after := RestoreNow(nic, h, probe, now);
      var wanted := h.mem.isSwitched || h.mem.state == Error;
      var live := h.mem.sessionActive || probe;
      && (!wanted ==> after == h)
      && (wanted && live ==>
            && after.jobs == h.jobs && after.disk == h.disk && after.mem.isSwitched == h.mem.isSwitched
            && after.mem.state == h.mem.state && after.mem.sessionActive == h.mem.sessionActive
            && after.mem.restoreAt == Some(now + 60_000) && after.mem.handle == Some(h.nextTimer)
            && h.nextTimer in after.armed && (h.mem.handle.Some? && h.mem.handle.value != h.nextTimer ==>
                                                h.mem.handle.value !in after.armed))
      && (wanted && !live && !HasOriginal(nic, h.disk.originalSpeed, h.mem.originalMbps) ==>
            && after.jobs == h.jobs && after.disk == Durable(h.disk.registry, false, "", 0)
            && !after.mem.isSwitched && after.mem.state == Idle)
      && (wanted && !live && HasOriginal(nic, h.disk.originalSpeed, h.mem.originalMbps) ==>
            && |after.jobs| == |h.jobs| + 1 && after.jobs[..|h.jobs|] == h.jobs && after.disk == h.disk
            && after.jobs[|h.jobs|].isRestore && after.jobs[|h.jobs|].phase == Pending
            && IsOriginal(nic, h.disk.originalSpeed, h.mem.originalMbps, after.jobs[|h.jobs|].target)
            && after.mem.state == Changing && after.mem.isSwitched == h.mem.isSwitched && after.mem.handle.None?)
  {
    OriginalIsResolved(nic, h.disk.originalSpeed, h.mem.originalMbps);
  }

  /** A restore that is applied and settled puts the adapter on its target and clears the switch. */
  lemma RestorePutsBack(h: Host, i: nat)
    requires i < |h.jobs| && h.jobs[i].isRestore
    ensures var done := JobEnd(JobApply(h, i, true), i);
      && done.disk == Durable(h.jobs[i].target.registryValue, false, "", 0)
      && !done.mem.isSwitched && done.mem.originalMbps == 0 && done.mem.state == Idle
      && done.jobs == h.jobs[..i] + h.jobs[i + 1..]
  {
    assert JobApply(h, i, true).jobs[..i] == h.jobs[..i];
    assert JobApply(h, i, true).jobs[i + 1..] == h.jobs[i + 1..];
  }

  // ── The disk ────────────────────────────────────────────────────────────────

  /** One store write or adapter change: the disks differ in one of the four values at most. */
  predicate OneWrite(before: Durable, after: Durable) {
    || after == before.(registry := after.registry)
    || after == before.(streamingMode := after.streamingMode)
    || after == before.(originalSpeed := after.originalSpeed)
    || after == before.(originalMbps := after.originalMbps)
  }

  /** A kill can come between any two writes: no operation writes two values at once. */
  lemma WritesAreSingle(nic: Nic, h: Host, op: Op)
    requires Enabled(h, op)
    ensures var disks := [h.disk] + Writes(nic, h, op);
      && (forall k | 0 <= k < |disks| - 1 :: OneWrite(disks[k], disks[k + 1]))
      && |disks| <= 4
  {
  }

  // ── Session events and timers ───────────────────────────────────────────────

  /** A start marks the stream live, a disconnect only unmarks it, and both leave job and disk alone. */
  lemma SessionEventsMarkTheStream(h: Host)
    ensures var started := SessionStarted(h);
      && started.mem.sessionActive && started.mem.handle.None? && started.jobs == h.jobs && started.disk == h.disk
      && started.mem.state == h.mem.state && started.mem.isSwitched == h.mem.isSwitched
      && (h.mem.handle.Some? ==> started.mem.restoreAt.None? && started.armed == h.armed - {h.mem.handle.value})
    ensures StreamDisconnected(h) == h.(mem := h.mem.(sessionActive := false))
    ensures var ended := SessionEndedLocked(h);
      && ended.mem == h.mem.(sessionActive := false) && ended.disk == h.disk && ended.jobs == h.jobs
      && ended.armed == h.armed && ended.fired == h.fired && ended.callbacks == h.callbacks
      && ended.endings == h.endings + if h.mem.isSwitched && h.mem.restoreAt.Some? then 1 else 0
  {
  }

  /** A timer that gets the lock turns back on a disposed or unswitched manager, else goes on to restore. */
  lemma TimerGoesOnIff(h: Host, id: nat)
    ensures var after := TimerCallbackLocked(h, id);
      && after.fired == h.fired - {id} && after.disk == h.disk && after.jobs == h.jobs && after.armed == h.armed
      && (if !h.mem.disposed && h.mem.isSwitched
          then after.callbacks == h.callbacks + 1 && after.mem == h.mem.(restoreAt := None)
          else after.callbacks == h.callbacks && after.mem == h.mem)
    ensures var gone := Dispose(h);
      && gone.mem.disposed && gone.mem.handle.None? && gone.disk == h.disk && gone.jobs == h.jobs
      && (h.mem.handle.Some? ==> h.mem.handle.value !in gone.armed)
  {
  }
}
