/** The watcher as an object, whose fields always stand for the ticks since the last launch. */
module LaunchWatcherObject {
  import opened Common
  import opened Spec = LaunchWatching

  class LaunchWatcher {
    var phase: Phase
    var launchedAt: Option<int>
    var foreignSince: Option<int>
    var foregroundIsNew: bool
    var targetProcessSeen: bool
    var scanTick: nat
    var sampling: bool
    ghost var history: seq<Sample>

    ghost function Model(): Watcher
      reads this
    {
      Watcher(phase, launchedAt, foreignSince, foregroundIsNew, targetProcessSeen, scanTick, sampling)
    }

    /** A watched launch is exactly the outcome of its ticks. */
    ghost predicate Valid()
      reads this
    {
      && (phase == Idle || phase == NotApplicable ==> !sampling)
      && (phase != Idle && phase != NotApplicable ==>
            launchedAt.Some? && ValidRun(launchedAt.value, history) && Model() == Watch(launchedAt.value, history))
    }

    constructor ()
      ensures Valid() && phase == Idle && !sampling && launchedAt == None
    {
      phase, launchedAt, foreignSince := Idle, None, None;
      foregroundIsNew, targetProcessSeen, scanTick, sampling := false, false, 0, false;
      history := [];
    }

    method OnAppLaunched(kind: LaunchKind, now: int)
      modifies this
      ensures Valid() && Model() == Spec.OnAppLaunched(kind, now) && history == []
    {
      launchedAt, foreignSince, foregroundIsNew := Some(now), None, false;
      targetProcessSeen, scanTick := false, 0;
      history := [];
      if kind != Target {
        phase, sampling := NotApplicable, false;
        return;
      }
      phase, sampling := Launching, true;
    }

    method OnSessionEnded(stopDetected: Option<int>)
      requires Valid()
      modifies this
      ensures Valid() && Model() == Spec.OnSessionEnded(old(Model()), stopDetected)
    {
      if stopDetected.Some? && launchedAt.Some? && launchedAt.value > stopDetected.value {
        return;
      }
      sampling, phase, targetProcessSeen, launchedAt := false, Idle, false, None;
    }

    method ObserveTargetProcess(running: bool) returns (seen: bool)
      modifies `scanTick
      ensures seen == Spec.ObserveTargetProcess(old(Model()), running) && scanTick == ScanTickAfter(old(Model()))
    {
      if targetProcessSeen {
        return true;
      }
      if phase == Idle || phase == NotApplicable {
        return false;
      }
      scanTick := scanTick + 1;
      if scanTick < PROCESS_SCAN_EVERY_TICKS {
        return false;
      }
      scanTick := 0;
      return running;
    }

    /** One atomic tick of a live timer. */
    method Tick(s: Sample)
      requires Valid() && sampling && s.now >= LastSeenAt()
      modifies this
      ensures Valid() && history == old(history) + [s] && Model() == Spec.Tick(old(Model()), s)
    {
      Observe(s);
      history := history + [s];
      assert history[..|history| - 1] == old(history);
    }

    method Observe(s: Sample)
      requires launchedAt.Some? && phase != Idle && phase != NotApplicable
      modifies `phase, `foreignSince, `foregroundIsNew, `targetProcessSeen, `scanTick, `sampling
      ensures Model() == Spec.Tick(old(Model()), s)
    {
      var processSeenNow := ObserveTargetProcess(s.running);
      if s.sighting == FullScreen {
        phase, sampling := Ready, false;
        return;
      }
      if s.sighting == SomeWindow {
        foreignSince, phase := None, GameWindow;
        return;
      }
      if processSeenNow && !targetProcessSeen {
        targetProcessSeen, foreignSince := true, None;
      }
      CheckForeground(s);
      if s.now - launchedAt.value >= READY_TIMEOUT_MS {
        phase, sampling := Timeout, false;
      }
    }

    method CheckForeground(s: Sample)
      modifies `phase, `foreignSince, `foregroundIsNew
      ensures Model() == Spec.WatchForeground(old(Model()), s)
    {
      if s.foreign && !targetProcessSeen {
        if foreignSince.None? {
          foreignSince, foregroundIsNew := Some(s.now), s.isNew;
        } else if s.now - foreignSince.value >= ForegroundLimit(foregroundIsNew) && phase != NeedsAttention {
          phase := NeedsAttention;
        }
      } else {
        foreignSince := None;
      }
    }

    ghost function LastSeenAt(): int
      requires Valid() && sampling
      reads this
    {
      if history == [] then launchedAt.value else history[|history| - 1].now
    }
  }
}
