/**
 * The link-speed state machine: what each critical section of the manager does to its memory,
 * to the settings file, to the adapter and to the jobs and timers it leaves behind.
 *
 * A `Host` is everything the manager touches. `disk` is what a kill of the process leaves
 * standing; everything else dies with the process. One operation is one lock-to-lock section (or
 * one un-locked adapter call of a background job), and `Writes` lists the durable state after
 * each individual store write or adapter change the operation makes, in order.
 */
module LinkSpeedModel {
  import opened Common
  import opened Text

  datatype LinkOption = LinkOption(mbps: int, fullDuplex: bool, displayKey: string, registryValue: string)

  /** The managed adapter: whether there is one, and the settings its driver lists. */
  datatype Nic = Nic(present: bool, options: seq<LinkOption>)

  datatype LinkState = Idle | Changing | Error

  datatype SpeedResult = Accepted | NotAllowed | Unsupported | Busy | NoAdapter | NotLan

  /** The adapter's own setting and the three persisted keys. */
  datatype Durable = Durable(registry: string, streamingMode: bool, originalSpeed: string, originalMbps: int)

  datatype Memory = Memory(
    state: LinkState,
    isSwitched: bool,
    originalMbps: int,
    restoreAt: Option<int>,
    handle: Option<nat>,
    sessionActive: bool,
    disposed: bool)

  /** A background ApplyAndSettle: not yet applied, applied and settling, or refused by the adapter. */
  datatype JobPhase = Pending | Settling | Failed
  datatype Job = Job(target: LinkOption, isRestore: bool, phase: JobPhase)

  /**
   * `armed` timers may still fire; `fired` ones have fired and wait for the lock (disposing such
   * a timer no longer stops it). `callbacks` and `endings` count the threads that have left a
   * timer callback's, respectively OnSessionEnded's, lock and are about to enter RestoreNow.
   */
  datatype Host = Host(
    disk: Durable,
    mem: Memory,
    jobs: seq<Job>,
    armed: set<nat>,
    fired: set<nat>,
    callbacks: nat,
    endings: nat,
    nextTimer: nat)

  const RESTORE_GRACE_MS := 60_000

  // ── Choosing a setting ──────────────────────────────────────────────────────

  function FindOptionForMbps(options: seq<LinkOption>, mbps: int): (r: Option<LinkOption>)
    ensures r.Some? ==> r.value in options && r.value.mbps == mbps
    ensures r.Some? && !r.value.fullDuplex ==> forall o | o in options && o.mbps == mbps :: !o.fullDuplex
    ensures r.None? ==> forall o | o in options :: o.mbps != mbps
  {
    match First(options, (o: LinkOption) => o.mbps == mbps && o.fullDuplex)
    case Some(o) => Some(o)
    case None => First(options, (o: LinkOption) => o.mbps == mbps)
  }

  /** The setting as read back from the driver. */
  function CurrentSetting(nic: Nic, registry: string): Option<LinkOption> {
    First(nic.options, (o: LinkOption) => o.registryValue == registry)
  }

  function ResolveOriginalOption(nic: Nic, setting: string, originalMbps: int): Option<LinkOption> {
    if setting == "" then None
    else
      match First(nic.options, (o: LinkOption) => Fold(o.displayKey) == Fold(setting))
      case Some(o) => Some(o)
      case None => FindOptionForMbps(nic.options, originalMbps)
  }

  // ── Timers and the two shared helpers ───────────────────────────────────────

  function DisposeTimer(armed: set<nat>, handle: Option<nat>): set<nat> {
    if handle.Some? then armed - {handle.value} else armed
  }

  function ScheduleRestore(h: Host, now: int): Host {
    h.(mem := h.mem.(restoreAt := Some(now + RESTORE_GRACE_MS), handle := Some(h.nextTimer)),
       armed := DisposeTimer(h.armed, h.mem.handle) + {h.nextTimer},
       nextTimer := h.nextTimer + 1)
  }

  function CancelScheduledRestore(h: Host): Host {
    if h.mem.handle.None? then h
    else h.(mem := h.mem.(restoreAt := None, handle := None), armed := DisposeTimer(h.armed, h.mem.handle))
  }

  function ClearWrites(d: Durable): seq<Durable> {
    var d1 := d.(streamingMode := false);
    var d2 := d1.(originalSpeed := "");
    [d1, d2, d2.(originalMbps := 0)]
  }

  function ClearSwitchedState(h: Host): Host {
    h.(mem := h.mem.(isSwitched := false, originalMbps := 0, state := Idle),
       disk := h.disk.(streamingMode := false, originalSpeed := "", originalMbps := 0))
  }

  // ── Operations ──────────────────────────────────────────────────────────────

  /**
   * A SETSPEED with everything it asks of the environment: whether client control is allowed,
   * whether it came in on the managed adapter (or locally), the measured speed and the answer of
   * the live-session probe.
   */
  datatype Request = Request(mbps: int, allowed: bool, onAdapter: bool, current: int, probe: bool)

  function RequestResult(nic: Nic, h: Host, r: Request): SpeedResult {
    if !nic.present then NoAdapter
    else if !r.allowed then NotAllowed
    else if !r.onAdapter then NotLan
    else if h.mem.sessionActive then Busy
    else if h.mem.state == Changing then Busy
    else if FindOptionForMbps(nic.options, r.mbps).None? then Unsupported
    else if r.current == r.mbps then Accepted
    else if r.probe then Busy
    else Accepted
  }

  /** The request is one that starts a switch. */
  predicate StartsSwitch(nic: Nic, h: Host, r: Request) {
    RequestResult(nic, h, r) == Accepted && r.current != r.mbps
  }

  function CapturedKey(nic: Nic, registry: string): string {
    var setting := CurrentSetting(nic, registry);
    if setting.Some? then setting.value.displayKey else ""
  }

  function RequestWrites(nic: Nic, h: Host, r: Request): seq<Durable> {
    if !StartsSwitch(nic, h, r) then []
    else if h.mem.isSwitched then [h.disk.(streamingMode := true)]
    else
      var d1 := h.disk.(originalSpeed := CapturedKey(nic, h.disk.registry));
      var d2 := d1.(originalMbps := r.current);
      [d1, d2, d2.(streamingMode := true)]
  }

  function RequestSpeed(nic: Nic, h: Host, r: Request): Host {
    if RequestResult(nic, h, r) != Accepted then h
    else if r.current == r.mbps then CancelScheduledRestore(h)
    else
      var target := FindOptionForMbps(nic.options, r.mbps).value;
      var captured :=
        if h.mem.isSwitched then h
        else h.(disk := h.disk.(originalSpeed := CapturedKey(nic, h.disk.registry), originalMbps := r.current),
                mem := h.mem.(originalMbps := r.current));
      var cancelled := CancelScheduledRestore(captured);
      cancelled.(disk := cancelled.disk.(streamingMode := true),
                 mem := cancelled.mem.(state := Changing, isSwitched := true),
                 jobs := cancelled.jobs + [Job(target, false, Pending)])
  }

  predicate IsStreamLive(h: Host, probe: bool) {
    h.mem.sessionActive || probe
  }

  /** What a call of RestoreNow comes to. */
  datatype RestoreOutcome = Nothing | Deferred | Abandoned | Started(target: LinkOption)

  function RestoreOutcomeOf(nic: Nic, h: Host, probe: bool): RestoreOutcome {
    if !h.mem.isSwitched && h.mem.state != Error then Nothing
    else if IsStreamLive(h, probe) then Deferred
    else
      match ResolveOriginalOption(nic, h.disk.originalSpeed, h.mem.originalMbps)
      case None => Abandoned
      case Some(target) => Started(target)
  }

  function RestoreNow(nic: Nic, h: Host, probe: bool, now: int): Host {
    match RestoreOutcomeOf(nic, h, probe)
    case Nothing => h
    case Deferred => ScheduleRestore(h, now)
    case Abandoned => ClearSwitchedState(CancelScheduledRestore(h))
    case Started(target) =>
      var c := CancelScheduledRestore(h);
      c.(mem := c.mem.(state := Changing), jobs := c.jobs + [Job(target, true, Pending)])
  }

  function RestoreWrites(nic: Nic, h: Host, probe: bool): seq<Durable> {
    if RestoreOutcomeOf(nic, h, probe).Abandoned? then ClearWrites(h.disk) else []
  }

  function SessionStarted(h: Host): Host {
    CancelScheduledRestore(h.(mem := h.mem.(sessionActive := true)))
  }

  function StreamDisconnected(h: Host): Host {
    h.(mem := h.mem.(sessionActive := false))
  }

  /** The locked part of OnSessionEnded; a pending restore leaves the thread on its way to RestoreNow. */
  function SessionEndedLocked(h: Host): Host {
    var quiet := h.(mem := h.mem.(sessionActive := false));
    if quiet.mem.isSwitched && quiet.mem.restoreAt.Some? then quiet.(endings := quiet.endings + 1) else quiet
  }

  /** The locked part of a timer callback. */
  function TimerCallbackLocked(h: Host, id: nat): Host {
    var taken := h.(fired := h.fired - {id});
    if h.mem.disposed || !h.mem.isSwitched then taken
    else taken.(mem := taken.mem.(restoreAt := None), callbacks := taken.callbacks + 1)
  }

  function Dispose(h: Host): Host {
    h.(mem := h.mem.(disposed := true, handle := None), armed := DisposeTimer(h.armed, h.mem.handle))
  }

  function JobApply(h: Host, i: nat, ok: bool): Host
    requires i < |h.jobs|
  {
    var job := h.jobs[i];
    if ok then h.(disk := h.disk.(registry := job.target.registryValue), jobs := h.jobs[i := job.(phase := Settling)])
    else h.(jobs := h.jobs[i := job.(phase := Failed)])
  }

  function JobEnd(h: Host, i: nat): Host
    requires i < |h.jobs|
  {
    var job := h.jobs[i];
    var rest := h.(jobs := h.jobs[..i] + h.jobs[i + 1..]);
    if job.phase == Failed then rest.(mem := rest.mem.(state := Error))
    else if job.isRestore then ClearSwitchedState(rest)
    else rest.(mem := rest.mem.(state := Idle))
  }

  /** A new process over what the disk holds: the constructor followed by RecoverAtStartup. */
  function Fresh(d: Durable): Host {
    Host(d, Memory(Idle, false, 0, None, None, false, false), [], {}, {}, 0, 0, 0)
  }

  function RecoverAtStartup(nic: Nic, h: Host, probe: bool, now: int): Host {
    if !h.disk.streamingMode || h.disk.originalSpeed == "" then h
    else RestoreNow(nic, h.(mem := h.mem.(originalMbps := h.disk.originalMbps, isSwitched := true)), probe, now)
  }

  function RecoverWrites(nic: Nic, h: Host, probe: bool): seq<Durable> {
    if !h.disk.streamingMode || h.disk.originalSpeed == "" then []
    else RestoreWrites(nic, h.(mem := h.mem.(originalMbps := h.disk.originalMbps, isSwitched := true)), probe)
  }

  /** One step of the host: an operation of the manager, a job, a timer, or the outside world. */
  datatype Op =
    | OpRequest(r: Request)
    | OpRestore(probe: bool, now: int)
    | OpCallbackRestore(probe: bool, now: int)
    | OpEndingRestore(probe: bool, now: int)
    | OpSessionStarted
    | OpStreamDisconnected
    | OpSessionEnded
    | OpTimerFires(id: nat)
    | OpTimerCallback(id: nat)
    | OpJobApply(i: nat, ok: bool)
    | OpJobEnd(i: nat)
    | OpDispose
    | OpUserSetting(registry: string)

  /** The operation can happen now. A user changes the setting by hand only while it is theirs. */
  predicate Enabled(h: Host, op: Op) {
    match op
    case OpCallbackRestore(_, _) => h.callbacks > 0
    case OpEndingRestore(_, _) => h.endings > 0
    case OpTimerFires(id) => id in h.armed
    case OpTimerCallback(id) => id in h.fired
    case OpJobApply(i, _) => i < |h.jobs| && h.jobs[i].phase == Pending
    case OpJobEnd(i) => i < |h.jobs| && h.jobs[i].phase != Pending
    case OpUserSetting(_) => !h.mem.isSwitched && h.jobs == []
    case _ => true
  }

  function Next(nic: Nic, h: Host, op: Op): Host
    requires Enabled(h, op)
  {
    match op
    case OpRequest(r) => RequestSpeed(nic, h, r)
    case OpRestore(probe, now) => RestoreNow(nic, h, probe, now)
    case OpCallbackRestore(probe, now) => RestoreNow(nic, h.(callbacks := h.callbacks - 1), probe, now)
    case OpEndingRestore(probe, now) => RestoreNow(nic, h.(endings := h.endings - 1), probe, now)
    case OpSessionStarted => SessionStarted(h)
    case OpStreamDisconnected => StreamDisconnected(h)
    case OpSessionEnded => SessionEndedLocked(h)
    case OpTimerFires(id) => h.(armed := h.armed - {id}, fired := h.fired + {id})
    case OpTimerCallback(id) => TimerCallbackLocked(h, id)
    case OpJobApply(i, ok) => JobApply(h, i, ok)
    case OpJobEnd(i) => JobEnd(h, i)
    case OpDispose => Dispose(h)
    case OpUserSetting(registry) => h.(disk := h.disk.(registry := registry))
  }

  /** The durable states an operation passes through, one per write or adapter change. */
  function Writes(nic: Nic, h: Host, op: Op): seq<Durable>
    requires Enabled(h, op)
  {
    match op
    case OpRequest(r) => RequestWrites(nic, h, r)
    case OpRestore(probe, _) => RestoreWrites(nic, h, probe)
    case OpCallbackRestore(probe, _) => RestoreWrites(nic, h, probe)
    case OpEndingRestore(probe, _) => RestoreWrites(nic, h, probe)
    case OpJobApply(i, ok) => if ok then [h.disk.(registry := h.jobs[i].target.registryValue)] else []
    case OpJobEnd(i) =>
      if h.jobs[i].phase == Settling && h.jobs[i].isRestore then ClearWrites(h.disk) else []
    case OpUserSetting(registry) => [h.disk.(registry := registry)]
    case _ => []
  }
}
