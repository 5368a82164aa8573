/**
 * The manager itself: an object whose methods change its fields and the environment in place.
 * Every method is proved to do exactly what the state machine says, write by write.
 */
module LinkSpeedManagement {
  import opened Common
  import opened Spec = LinkSpeedModel

  const POLL_MS := 500
  const LINK_UP_TIMEOUT_MS := 15_000
  const LINK_SETTLE_MS := 15_000
  const CLIENT_CEILING_MS := 40_000

  /** The state takes a value at a moment. */
  datatype Change = Change(at: int, state: LinkState)

  /** The settings file, the adapter, the clock, the timers and the thread pool. */
  class LinkSpeedEnvironment {
    var registry: string
    var streamingMode: bool
    var originalSpeed: string
    var originalMbps: int
    var now: int
    var armed: set<nat>
    var fired: set<nat>
    var nextTimer: nat
    var jobs: seq<Job>
    ghost var callbacks: nat
    ghost var endings: nat
    ghost var writes: seq<Durable>

    ghost function Disk(): Durable
      reads this
    {
      Durable(registry, streamingMode, originalSpeed, originalMbps)
    }

    method SetStreamingMode(value: bool)
      modifies `streamingMode, `writes
      ensures streamingMode == value && writes == old(writes) + [Disk()]
    {
      streamingMode := value;
      writes := writes + [Disk()];
    }

    method SetOriginalSpeed(value: string)
      modifies `originalSpeed, `writes
      ensures originalSpeed == value && writes == old(writes) + [Disk()]
    {
      originalSpeed := value;
      writes := writes + [Disk()];
    }

    method SetOriginalMbps(value: int)
      modifies `originalMbps, `writes
      ensures originalMbps == value && writes == old(writes) + [Disk()]
    {
      originalMbps := value;
      writes := writes + [Disk()];
    }

    /** The three writes that forget a switch. */
    method ForgetSwitch()
      modifies `streamingMode, `originalSpeed, `originalMbps, `writes
      ensures Disk() == old(Disk()).(streamingMode := false, originalSpeed := "", originalMbps := 0)
      ensures writes == old(writes) + ClearWrites(old(Disk()))
    {
      SetStreamingMode(false);
      SetOriginalSpeed("");
      SetOriginalMbps(0);
    }

    method Delay(milliseconds: nat)
      modifies `now
      ensures now == old(now) + milliseconds
    {
      now := now + milliseconds;
    }
  }

  class LinkSpeedManager {
    const nic: Nic
    const env: LinkSpeedEnvironment
    var state: LinkState
    /** Every value the state was given, with the time it was given. */
    ghost var changes: seq<Change>
    var isSwitched: bool
    var originalMbps: int
    var restoreAt: Option<int>
    var handle: Option<nat>
    var sessionActive: bool
    var disposed: bool

    /** The state the state machine speaks about. */
    ghost function Model(): Host
      reads this, env
    {
      Host(env.Disk(), Memory(state, isSwitched, originalMbps, restoreAt, handle, sessionActive, disposed),
           env.jobs, env.armed, env.fired, env.callbacks, env.endings, env.nextTimer)
    }

    /** A new process: nothing in memory, no timer, no job. */
    constructor (nic: Nic, env: LinkSpeedEnvironment)
      requires env.jobs == [] && env.armed == env.fired == {} && env.nextTimer == env.callbacks == env.endings == 0
      ensures this.nic == nic && this.env == env && Model() == Fresh(env.Disk())
    {
      this.nic, this.env := nic, env;
      state, isSwitched, originalMbps := Idle, false, 0;
      restoreAt, handle, sessionActive, disposed := None, None, false, false;
      changes := [];
    }

    method SetState(value: LinkState)
      modifies `state, `changes
      ensures state == value && changes == old(changes) + [Change(env.now, value)]
    {
      state := value;
      changes := changes + [Change(env.now, value)];
    }

    method ScheduleRestore()
      modifies `restoreAt, `handle, env`armed, env`nextTimer
      ensures Model() == Spec.ScheduleRestore(old(Model()), env.now)
    {
      if handle.Some? {
        env.armed := env.armed - {handle.value};
      }
      restoreAt := Some(env.now + RESTORE_GRACE_MS);
      handle := Some(env.nextTimer);
      env.armed := env.armed + {env.nextTimer};
      env.nextTimer := env.nextTimer + 1;
    }

    method CancelScheduledRestore()
      modifies `restoreAt, `handle, env`armed
      ensures Model() == Spec.CancelScheduledRestore(old(Model()))
    {
      if handle.None? {
        return;
      }
      env.armed := env.armed - {handle.value};
      handle := None;
      restoreAt := None;
    }

    method ClearSwitchedState()
      modifies `isSwitched, `originalMbps, `state, `changes
      modifies env`streamingMode, env`originalSpeed, env`originalMbps, env`writes
      ensures Model() == Spec.ClearSwitchedState(old(Model()))
      ensures changes == old(changes) + [Change(env.now, Idle)]
      ensures env.writes == old(env.writes) + ClearWrites(old(env.Disk()))
    {
      isSwitched := false;
      originalMbps := 0;
      SetState(Idle);
      env.ForgetSwitch();
    }

    method RequestSpeed(r: Request) returns (result: SpeedResult)
      modifies this, env
      ensures result == RequestResult(nic, old(Model()), r)
      ensures Model() == Spec.RequestSpeed(nic, old(Model()), r)
      ensures env.writes == old(env.writes) + RequestWrites(nic, old(Model()), r)
      ensures env.now == old(env.now)
    {
      if !nic.present { return NoAdapter; }
      if !r.allowed { return NotAllowed; }
      if !r.onAdapter { return NotLan; }
      if sessionActive { return Busy; }
      if state == Changing { return Busy; }
      var target := FindOptionForMbps(nic.options, r.mbps);
      if target.None? { return Unsupported; }
      result := Grant(r, target.value);
    }

    /** A request that may be granted: already there, turned away by the probe, or a switch. */
    method Grant(r: Request, target: LinkOption) returns (result: SpeedResult)
      requires nic.present && r.allowed && r.onAdapter && !sessionActive && state != Changing
      requires FindOptionForMbps(nic.options, r.mbps) == Some(target)
      modifies this, env
      ensures result == RequestResult(nic, old(Model()), r)
      ensures Model() == Spec.RequestSpeed(nic, old(Model()), r)
      ensures env.writes == old(env.writes) + RequestWrites(nic, old(Model()), r)
      ensures env.now == old(env.now)
    {
      if r.current == r.mbps {
        CancelScheduledRestore();
        return Accepted;
      }
      if r.probe { return Busy; }
      Switch(r, target);
      return Accepted;
    }

    method Switch(r: Request, target: LinkOption)
      requires StartsSwitch(nic, Model(), r) && FindOptionForMbps(nic.options, r.mbps) == Some(target)
      modifies this, env
      ensures Model() == Spec.RequestSpeed(nic, old(Model()), r)
      ensures env.writes == old(env.writes) + RequestWrites(nic, old(Model()), r)
      ensures env.now == old(env.now)
    {
      if !isSwitched {
        CaptureOriginal(r.current);
      }
      BeginSwitch(target);
    }

    method CaptureOriginal(current: int)
      modifies `originalMbps, env`originalSpeed, env`originalMbps, env`writes
      ensures originalMbps == env.originalMbps == current
      ensures env.originalSpeed == CapturedKey(nic, env.registry)
      ensures env.writes == old(env.writes) + [
        old(env.Disk()).(originalSpeed := env.originalSpeed),
        old(env.Disk()).(originalSpeed := env.originalSpeed, originalMbps := current)]
    {
      var setting := CurrentSetting(nic, env.registry);
      env.SetOriginalSpeed(if setting.Some? then setting.value.displayKey else "");
      env.SetOriginalMbps(current);
      originalMbps := current;
    }

    method BeginSwitch(target: LinkOption)
      modifies `restoreAt, `handle, `state, `changes, `isSwitched, env`armed, env`streamingMode, env`writes, env`jobs
      ensures var cancelled := Spec.CancelScheduledRestore(old(Model()));
        Model() == cancelled.(disk := cancelled.disk.(streamingMode := true),
                              mem := cancelled.mem.(state := Changing, isSwitched := true),
                              jobs := cancelled.jobs + [Job(target, false, Pending)])
      ensures env.writes == old(env.writes) + [env.Disk()]
    {
      CancelScheduledRestore();
      SetState(Changing);
      env.SetStreamingMode(true);
      isSwitched := true;
      env.jobs := env.jobs + [Job(target, false, Pending)];
    }

    method OnSessionStarted()
      modifies `sessionActive, `restoreAt, `handle, env`armed
      ensures Model() == SessionStarted(old(Model()))
    {
      sessionActive := true;
      CancelScheduledRestore();
    }

    method OnStreamDisconnected()
      modifies `sessionActive
      ensures Model() == StreamDisconnected(old(Model()))
    {
      if !sessionActive {
        return;
      }
      sessionActive := false;
    }

    /** The whole of OnSessionEnded, with nothing in between its lock and its RestoreNow. */
    method OnSessionEnded(probe: bool)
      modifies this, env
      ensures var ended := SessionEndedLocked(old(Model()));
        Model() == if ended.endings > old(env.endings)
                   then Next(nic, ended, OpEndingRestore(probe, old(env.now)))
                   else ended
      ensures env.writes == old(env.writes) + (
        if old(isSwitched && restoreAt.Some?) then RestoreWrites(nic, SessionEndedLocked(old(Model())), probe) else [])
      ensures env.now == old(env.now)
    {
      sessionActive := false;
      if !isSwitched {
        return;
      }
      if restoreAt.Some? {
        RestoreNow(probe);
      }
    }

    method RestoreNow(probe: bool)
      modifies this, env
      ensures Model() == Spec.RestoreNow(nic, old(Model()), probe, old(env.now))
      ensures env.writes == old(env.writes) + RestoreWrites(nic, old(Model()), probe)
      ensures env.now == old(env.now)
    {
      if !isSwitched && state != Error {
        return;
      }
      if sessionActive || probe {
        ScheduleRestore();
        return;
      }
      StartRestore();
    }

    /** With no stream live: give up on an unknown setting, or start the job. */
    method StartRestore()
      requires (isSwitched || state == Error) && !sessionActive
      modifies this, env
      ensures Model() == Spec.RestoreNow(nic, old(Model()), false, old(env.now))
      ensures env.writes == old(env.writes) + RestoreWrites(nic, old(Model()), false)
      ensures env.now == old(env.now)
    {
      CancelScheduledRestore();
      var target := ResolveOriginalOption(nic, env.originalSpeed, originalMbps);
      if target.None? {
        ClearSwitchedState();
        return;
      }
      SetState(Changing);
      env.jobs := env.jobs + [Job(target.value, true, Pending)];
    }

    method RecoverAtStartup(probe: bool)
      modifies this, env
      ensures Model() == Spec.RecoverAtStartup(nic, old(Model()), probe, old(env.now))
      ensures env.writes == old(env.writes) + RecoverWrites(nic, old(Model()), probe)
    {
      if !env.streamingMode || env.originalSpeed == "" {
        return;
      }
      originalMbps := env.originalMbps;
      isSwitched := true;
      RestoreNow(probe);
    }

    /**
     * Polls until the adapter reports the expected speed or the timeout passes. `reported(k)` is
     * the speed read at the k-th poll.
     */
    method WaitForLink(expectedMbps: int, reported: nat -> int) returns (last: int, ghost polls: nat)
      modifies env`now
      ensures 1 <= polls <= 30 && env.now == old(env.now) + polls * 500
      ensures last == reported(polls - 1)
      ensures forall k: nat | k < polls - 1 :: reported(k) != expectedMbps
      ensures last == expectedMbps || polls == 30
    {
      var deadline := env.now + LINK_UP_TIMEOUT_MS;
      var poll: nat := 0;
      last, polls := 0, 0;
      while env.now < deadline
        invariant polls == poll <= 30 && env.now == old(env.now) + polls * POLL_MS
        invariant polls > 0 ==> last == reported(polls - 1)
        invariant forall k: nat | k < polls :: reported(k) != expectedMbps
        decreases deadline - env.now
      {
        env.Delay(POLL_MS);
        last := reported(poll);
        poll := poll + 1;
        polls := poll;
        if last == expectedMbps {
          return;
        }
      }
    }

    /**
     * A background job run on its own. Whatever the adapter reports, the state changes once, at the
     * end: a successful apply keeps it Changing for more than the 15 s settle and at most 30 s,
     * inside the client's ceiling.
     */
    method ApplyAndSettle(job: nat, applied: bool, expectedMbps: int, reported: nat -> int)
      requires job < |env.jobs| && env.jobs[job].phase == Pending && state == Changing
      modifies this, env
      ensures Model() == JobEnd(JobApply(old(Model()), job, applied), job)
      ensures applied ==>
        15_000 < env.now - old(env.now) <= 30_000 < CLIENT_CEILING_MS
      ensures changes == old(changes) + [Change(env.now, if applied then Idle else Error)]
      ensures !applied ==> env.now == old(env.now) && env.writes == old(env.writes)
      ensures applied ==>
        var after := JobApply(old(Model()), job, true);
        env.writes == old(env.writes) + [after.disk] + Writes(nic, after, OpJobEnd(job))
    {
      Apply(job, applied);
      if !applied {
        env.jobs := env.jobs[..job] + env.jobs[job + 1..];
        SetState(Error);
        return;
      }
      var settled, _ := WaitForLink(expectedMbps, reported);
      env.Delay(LINK_SETTLE_MS);
      Settle(job);
    }

    /** The adapter takes the setting, or refuses it. */
    method Apply(job: nat, applied: bool)
      requires job < |env.jobs|
      modifies env`registry, env`writes, env`jobs
      ensures Model() == JobApply(old(Model()), job, applied)
      ensures env.writes == old(env.writes) + if applied then [env.Disk()] else []
    {
      var j := env.jobs[job];
      if !applied {
        env.jobs := env.jobs[job := j.(phase := Failed)];
        return;
      }
      env.registry := j.target.registryValue;
      env.writes := env.writes + [env.Disk()];
      env.jobs := env.jobs[job := j.(phase := Settling)];
    }

    /** The end of a job whose setting was taken. */
    method Settle(job: nat)
      requires job < |env.jobs| && env.jobs[job].phase == Settling
      modifies `isSwitched, `originalMbps, `state, `changes
      modifies env`streamingMode, env`originalSpeed, env`originalMbps, env`writes, env`jobs
      ensures Model() == JobEnd(old(Model()), job)
      ensures changes == old(changes) + [Change(env.now, Idle)]
      ensures env.writes == old(env.writes) + Writes(nic, old(Model()), OpJobEnd(job))
    {
      var j := env.jobs[job];
      env.jobs := env.jobs[..job] + env.jobs[job + 1..];
      if j.isRestore {
        ClearSwitchedState();
      } else {
        SetState(Idle);
      }
    }

    method Dispose()
      modifies `disposed, `handle, env`armed
      ensures Model() == Spec.Dispose(old(Model()))
    {
      disposed := true;
      if handle.Some? {
        env.armed := env.armed - {handle.value};
      }
      handle := None;
    }

    /** A timer that fired: its locked part, then RestoreNow. */
    method OnTimer(id: nat, probe: bool)
      requires id in env.fired
      modifies this, env
      ensures var taken := TimerCallbackLocked(old(Model()), id);
        Model() == if taken.callbacks > old(env.callbacks)
                   then Next(nic, taken, OpCallbackRestore(probe, old(env.now)))
                   else taken
    {
      env.fired := env.fired - {id};
      if disposed || !isSwitched {
        return;
      }
      restoreAt := None;
      RestoreNow(probe);
    }
  }
}
