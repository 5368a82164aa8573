/**
 * RestoreNow does not look at `State == Changing`. This module shows what that costs, and that
 * "no job in flight" is the exact condition under which entering a restore is safe.
 */
module LinkSpeedGuard {
  import opened LinkSpeedModel
  import opened LinkSpeedSafety

  /** Every legal continuation from `h` leaves the disk recoverable. */
  ghost predicate AlwaysRecoverable(nic: Nic, h: Host, home: string) {
    forall evs | LegalRun(nic, h, evs) :: Recoverable(nic, Run(nic, h, evs).disk, HomeOf(home, evs))
  }

  lemma LostNow(nic: Nic, h: Host, home: string)
    requires !Recoverable(nic, h.disk, home)
    ensures !AlwaysRecoverable(nic, h, home)
  {
    assert LegalRun(nic, h, []) && Run(nic, h, []) == h && HomeOf(home, []) == home;
  }

  /** A continuation that can be lost after one more step can be lost. */
  lemma LostLater(nic: Nic, h: Host, home: string, op: Op)
    requires Guarded(nic, h, op) && !op.OpUserSetting?
    requires !AlwaysRecoverable(nic, Next(nic, h, op), home)
    ensures !AlwaysRecoverable(nic, h, home)
  {
    var h' := Next(nic, h, op);
    var evs :| LegalRun(nic, h', evs) && !Recoverable(nic, Run(nic, h', evs).disk, HomeOf(home, evs));
    var all := [Do(op)] + evs;
    assert all[1..] == evs && After(nic, h, all[0]) == h';
    assert LegalRun(nic, h, all) && Run(nic, h, all) == Run(nic, h', evs);
    assert HomeOf(home, all) == HomeOf(home, evs);
  }

  /** The adapter has a speed other than its own setting that a client may ask for. */
  predicate Elsewhere(nic: Nic, home: string, mbps: int) {
    nic.present && FindOptionForMbps(nic.options, mbps).Some?
    && FindOptionForMbps(nic.options, mbps).value.registryValue != home
  }

  /**
   * With one restore waiting to apply while the state no longer says so, a speed request slips in,
   * the restore finishes first, and the record of the original setting is gone.
   */
  lemma OverlappedRestoreLosesTheRecord(nic: Nic, h: Host, home: string, mbps: int, restore: Job)
    requires h.jobs == [restore] && restore.isRestore && restore.phase == Pending
    requires restore.target.registryValue == home
    requires h.mem.state != Changing && !h.mem.sessionActive
    requires !h.mem.isSwitched ==> Readable(nic, h.disk.registry)
    requires Elsewhere(nic, home, mbps)
    ensures !AlwaysRecoverable(nic, h, home)
  {
    var ask := OpRequest(Request(mbps, true, true, mbps - 1, false));
    var h1 := Next(nic, h, ask);
    assert h1.jobs == [restore, Job(FindOptionForMbps(nic.options, mbps).value, false, Pending)];
    var h2 := Next(nic, h1, OpJobApply(0, true));
    var h3 := Next(nic, h2, OpJobApply(1, true));
    var h4 := Next(nic, h3, OpJobEnd(0));
    assert h4.disk.registry == FindOptionForMbps(nic.options, mbps).value.registryValue;
    LostNow(nic, h4, home);
    LostLater(nic, h3, home, OpJobEnd(0));
    LostLater(nic, h2, home, OpJobApply(1, true));
    LostLater(nic, h1, home, OpJobApply(0, true));
    LostLater(nic, h, home, ask);
  }

  lemma EnteringARestoreOverAJobCanLose(nic: Nic, h: Host, home: string, probe: bool, now: int, mbps: int)
    requires Inv(nic, h, home) && h.mem.isSwitched && !IsStreamLive(h, probe)
    requires h.jobs != [] && Elsewhere(nic, home, mbps) && Readable(nic, home)
    ensures !AlwaysRecoverable(nic, RestoreNow(nic, h, probe, now), home)
  {
    NamedSettingIsResolved(nic, h.disk, home, h.mem.originalMbps);
    var h0 := RestoreNow(nic, h, probe, now);
    var job := h.jobs[0];
    var restore := Job(ResolveOriginalOption(nic, h.disk.originalSpeed, h.mem.originalMbps).value, true, Pending);
    assert h0.jobs == [job, restore];
    if job.phase == Pending {
      var h1 := Next(nic, h0, OpJobApply(0, true));
      assert h1.jobs == [job.(phase := Settling), restore];
      var h2 := Next(nic, h1, OpJobEnd(0));
      assert h2.jobs == [restore];
      OverlappedRestoreLosesTheRecord(nic, h2, home, mbps, restore);
      LostLater(nic, h1, home, OpJobEnd(0));
      LostLater(nic, h0, home, OpJobApply(0, true));
    } else {
      var h1 := Next(nic, h0, OpJobEnd(0));
      assert h1.jobs == [restore];
      OverlappedRestoreLosesTheRecord(nic, h1, home, mbps, restore);
      LostLater(nic, h0, home, OpJobEnd(0));
    }
  }

  /**
   * The guard is exact: from any reachable switched state with no live stream, entering RestoreNow
   * keeps every continuation recoverable if and only if no job is in flight.
   */
  lemma RestoreIsSafeIffNoJobInFlight(nic: Nic, h: Host, home: string, probe: bool, now: int, mbps: int)
    requires DistinctKeys(nic) && Inv(nic, h, home) && h.mem.isSwitched && !IsStreamLive(h, probe)
    requires Elsewhere(nic, home, mbps) && Readable(nic, home)
    ensures AlwaysRecoverable(nic, RestoreNow(nic, h, probe, now), home) <==> h.mem.state != Changing
  {
    if h.jobs == [] {
      RestoreNowKeepsInv(nic, h, home, probe, now);
      var h0 := RestoreNow(nic, h, probe, now);
      forall evs | LegalRun(nic, h0, evs)
        ensures Recoverable(nic, Run(nic, h0, evs).disk, HomeOf(home, evs))
      {
        RunKeepsInv(nic, h0, home, evs);
      }
    } else {
      EnteringARestoreOverAJobCanLose(nic, h, home, probe, now, mbps);
    }
  }
}
