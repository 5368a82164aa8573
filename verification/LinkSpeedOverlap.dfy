/**
 * The restores the manager enters on its own threads - timer callbacks and the end of a session -
 * and when one of them starts a job behind a client's back. Nothing in the code keeps them off a
 * running job, so this module says exactly when they can meet one.
 */
module LinkSpeedOverlap {
  import opened LinkSpeedModel
  import Safety = LinkSpeedSafety
  import Guard = LinkSpeedGuard
  import Deferral = LinkSpeedDeferral

  /** Steps the manager takes by itself: its timers, their callbacks, and the end of a session. */
  predicate IsOwnThread(op: Op) {
    op.OpTimerFires? || op.OpTimerCallback? || op.OpCallbackRestore? || op.OpEndingRestore?
  }

  predicate OwnThreads(ops: seq<Op>) {
    forall i | 0 <= i < |ops| :: IsOwnThread(ops[i])
  }

  predicate StartsRestore(nic: Nic, h: Host, op: Op) {
    var probe := Safety.RestoreProbe(op);
    probe.Some? && RestoreOutcomeOf(nic, h, probe.value).Started?
  }

  /** After the manager's own steps `ops`, its own step `op` starts a restore job. */
  predicate EndsInARestore(nic: Nic, h: Host, ops: seq<Op>, op: Op) {
    && Deferral.EnabledRun(nic, h, ops) && OwnThreads(ops) && IsOwnThread(op)
    && Enabled(Deferral.Run(nic, h, ops), op) && StartsRestore(nic, Deferral.Run(nic, h, ops), op)
  }

  /** Left to its own threads, the manager can reach a step that starts a restore job. */
  ghost predicate OwnRestoreCanStart(nic: Nic, h: Host) {
    exists ops: seq<Op>, op: Op :: EndsInARestore(nic, h, ops, op)
  }

  /** A RestoreNow entered with no live stream would start a job. */
  predicate WouldRestore(nic: Nic, h: Host) {
    && (h.mem.isSwitched || h.mem.state == Error) && !h.mem.sessionActive
    && ResolveOriginalOption(nic, h.disk.originalSpeed, h.mem.originalMbps).Some?
  }

  /** Some thread is past its lock, or a timer that will not turn back at its lock is left. */
  predicate OnItsWay(h: Host) {
    || h.callbacks > 0 || h.endings > 0
    || (!h.mem.disposed && h.mem.isSwitched && (h.armed != {} || h.fired != {}))
  }

  predicate CanStart(nic: Nic, h: Host) {
    WouldRestore(nic, h) && OnItsWay(h)
  }

  lemma OwnStepKeepsQuiet(nic: Nic, h: Host, op: Op)
    requires !CanStart(nic, h) && IsOwnThread(op) && Enabled(h, op)
    ensures !StartsRestore(nic, h, op) && !CanStart(nic, Next(nic, h, op))
  {
  }

  lemma {:induction false} OwnRunKeepsQuiet(nic: Nic, h: Host, ops: seq<Op>)
    requires !CanStart(nic, h) && Deferral.EnabledRun(nic, h, ops) && OwnThreads(ops)
    ensures !CanStart(nic, Deferral.Run(nic, h, ops))
    decreases |ops|
  {
    if ops != [] {
      assert IsOwnThread(ops[0]);
      OwnStepKeepsQuiet(nic, h, ops[0]);
      OwnRunKeepsQuiet(nic, Next(nic, h, ops[0]), ops[1..]);
    }
  }

  lemma NextCanStart(nic: Nic, h: Host, first: Op)
    requires IsOwnThread(first) && Enabled(h, first) && OwnRestoreCanStart(nic, Next(nic, h, first))
    ensures OwnRestoreCanStart(nic, h)
  {
    var h' := Next(nic, h, first);
    var ops: seq<Op>, op: Op :| EndsInARestore(nic, h', ops, op);
    var all := [first] + ops;
    assert all[1..] == ops;
    assert Deferral.EnabledRun(nic, h, all) && OwnThreads(all);
    assert Deferral.Run(nic, h, all) == Deferral.Run(nic, h', ops);
    assert EndsInARestore(nic, h, all, op);
  }

  lemma StartsAtOnce(nic: Nic, h: Host)
    requires WouldRestore(nic, h) && (h.callbacks > 0 || h.endings > 0)
    ensures OwnRestoreCanStart(nic, h)
  {
    var op := if h.callbacks > 0 then OpCallbackRestore(false, 0) else OpEndingRestore(false, 0);
    assert Deferral.EnabledRun(nic, h, []) && OwnThreads([]) && Deferral.Run(nic, h, []) == h;
    assert EndsInARestore(nic, h, [], op);
  }

  lemma FiredTimerStarts(nic: Nic, h: Host)
    requires WouldRestore(nic, h) && !h.mem.disposed && h.mem.isSwitched && h.fired != {}
    ensures OwnRestoreCanStart(nic, h)
  {
    var id :| id in h.fired;
    StartsAtOnce(nic, Next(nic, h, OpTimerCallback(id)));
    NextCanStart(nic, h, OpTimerCallback(id));
  }

  /** From any state, exactly when the manager can start a restore with nobody asking again. */
  lemma OwnRestoreStartsIff(nic: Nic, h: Host)
    ensures OwnRestoreCanStart(nic, h) <==> CanStart(nic, h)
  {
    if !CanStart(nic, h) {
      forall ops: seq<Op>, op: Op
        | Deferral.EnabledRun(nic, h, ops) && OwnThreads(ops) && IsOwnThread(op)
          && Enabled(Deferral.Run(nic, h, ops), op)
        ensures !EndsInARestore(nic, h, ops, op)
      {
        OwnRunKeepsQuiet(nic, h, ops);
        OwnStepKeepsQuiet(nic, Deferral.Run(nic, h, ops), op);
      }
    } else if h.callbacks > 0 || h.endings > 0 {
      StartsAtOnce(nic, h);
    } else if h.fired != {} {
      FiredTimerStarts(nic, h);
    } else {
      var id :| id in h.armed;
      FiredTimerStarts(nic, Next(nic, h, OpTimerFires(id)));
      NextCanStart(nic, h, OpTimerFires(id));
    }
  }

  /** The request is granted, whether or not it changes the speed. */
  predicate Grants(nic: Nic, h: Host, op: Op) {
    op.OpRequest? && RequestResult(nic, h, op.r) == Accepted
  }

  /**
   * What a grant and a session start are worth against an older restore. After a session start
   * none can start until the stream is over. After a grant one can if and only if, at the grant,
   * a timer had already fired or a thread was past its lock - and no stream is live when it enters.
   */
  lemma OlderRestoreAfterAGrantIff(nic: Nic, h: Host, ops: seq<Op>, op: Op)
    requires Deferral.Tracked(h) && Deferral.EnabledRun(nic, h, ops) && !Deferral.Run(nic, h, ops).mem.disposed
    requires op.OpSessionStarted? || Grants(nic, Deferral.Run(nic, h, ops), op)
    ensures var now := Deferral.Run(nic, h, ops);
      var after := Next(nic, now, op);
      OwnRestoreCanStart(nic, after) <==>
        && op.OpRequest? && WouldRestore(nic, after)
        && (now.callbacks > 0 || now.endings > 0 || (now.fired != {} && after.mem.isSwitched))
  {
    Deferral.GrantsAndStartsCancelTheRestore(nic, h, ops, op);
    OwnRestoreStartsIff(nic, Next(nic, Deferral.Run(nic, h, ops), op));
  }

  // ── How the manager's own timer meets a job ─────────────────────────────────

  /** The original setting can be resolved: now if the link is switched, else once it is captured. */
  predicate Restorable(nic: Nic, h: Host) {
    if h.mem.isSwitched
    then ResolveOriginalOption(nic, h.disk.originalSpeed, h.mem.originalMbps).Some?
    else Safety.Readable(nic, h.disk.registry)
  }

  lemma SwitchIsRestorable(nic: Nic, h: Host, r: Request)
    requires StartsSwitch(nic, h, r) && Restorable(nic, h)
    ensures WouldRestore(nic, RequestSpeed(nic, h, r)) && RequestSpeed(nic, h, r).mem.isSwitched
  {
    if !h.mem.isSwitched {
      var captured := CurrentSetting(nic, h.disk.registry).value;
      assert captured in nic.options;
    }
  }

  /** A timer that fired before the grant starts its restore over the granted switch. */
  lemma FiredTimerOverlapsTheSwitch(nic: Nic, h: Host, r: Request, id: nat, now: int)
    requires id in h.fired && !h.mem.disposed && StartsSwitch(nic, h, r) && Restorable(nic, h)
    ensures var ops := [OpRequest(r), OpTimerCallback(id), OpCallbackRestore(false, now)];
      && Deferral.EnabledRun(nic, h, ops)
      && |Deferral.Run(nic, h, ops).jobs| == |h.jobs| + 2
      && !Deferral.Run(nic, h, ops).jobs[|h.jobs|].isRestore && Deferral.Run(nic, h, ops).jobs[|h.jobs| + 1].isRestore
  {
    SwitchIsRestorable(nic, h, r);
    var o0, o1, o2 := OpRequest(r), OpTimerCallback(id), OpCallbackRestore(false, now);
    var h1 := Next(nic, h, o0);
    var h2 := Next(nic, h1, o1);
    var h3 := Next(nic, h2, o2);
    RunCons(nic, h2, o2, []);
    RunCons(nic, h1, o1, [o2]);
    RunCons(nic, h, o0, [o1, o2]);
    assert [o0] + ([o1] + ([o2] + [])) == [o0, o1, o2];
  }

  lemma RunCons(nic: Nic, h: Host, op: Op, rest: seq<Op>)
    requires Enabled(h, op) && Deferral.EnabledRun(nic, Next(nic, h, op), rest)
    ensures Deferral.EnabledRun(nic, h, [op] + rest)
    ensures Deferral.Run(nic, h, [op] + rest) == Deferral.Run(nic, Next(nic, h, op), rest)
  {
    assert ([op] + rest)[1..] == rest;
  }

  /**
   * The whole way there from a switched link: a restore is asked for under a live stream and
   * deferred, its timer fires, a client is granted another speed before the callback gets the
   * lock - and two jobs, a switch and a restore, are in flight.
   */
  lemma DeferredRestoreOverlapsTheNextSwitch(nic: Nic, h: Host, r: Request, asked: int, now: int)
    requires h.mem.isSwitched && !h.mem.disposed && StartsSwitch(nic, h, r) && Restorable(nic, h)
    ensures var id := h.nextTimer;
      var ops := [OpRestore(true, asked), OpTimerFires(id), OpRequest(r), OpTimerCallback(id),
                  OpCallbackRestore(false, now)];
      && Deferral.EnabledRun(nic, h, ops)
      && |Deferral.Run(nic, h, ops).jobs| == |h.jobs| + 2
      && !Deferral.Run(nic, h, ops).jobs[|h.jobs|].isRestore && Deferral.Run(nic, h, ops).jobs[|h.jobs| + 1].isRestore
  {
    var id := h.nextTimer;
    var o0, o1 := OpRestore(true, asked), OpTimerFires(id);
    var rest := [OpRequest(r), OpTimerCallback(id), OpCallbackRestore(false, now)];
    var h1 := Next(nic, h, o0);
    var h2 := Next(nic, h1, o1);
    FiredTimerOverlapsTheSwitch(nic, h2, r, id, now);
    RunCons(nic, h1, o1, rest);
    RunCons(nic, h, o0, [o1] + rest);
    assert [o0] + ([o1] + rest)
      == [o0, o1, OpRequest(r), OpTimerCallback(id), OpCallbackRestore(false, now)];
  }

  lemma CallbackOverAJobCanLose(nic: Nic, h: Host, home: string, now: int, mbps: int)
    requires Safety.Inv(nic, h, home) && h.callbacks > 0 && h.jobs != []
    requires h.mem.isSwitched && !h.mem.sessionActive
    requires Guard.Elsewhere(nic, home, mbps) && Safety.Readable(nic, home)
    ensures !Guard.AlwaysRecoverable(nic, Next(nic, h, OpCallbackRestore(false, now)), home)
  {
    Guard.EnteringARestoreOverAJobCanLose(nic, h.(callbacks := h.callbacks - 1), home, false, now, mbps);
  }

  /** What the overlap costs: the record of the original setting can be lost. */
  lemma FiredTimerCanLoseTheRecord(nic: Nic, h: Host, home: string, r: Request, id: nat, now: int, mbps: int)
    requires Safety.DistinctKeys(nic) && Safety.Inv(nic, h, home) && Safety.Guarded(nic, h, OpRequest(r))
    requires id in h.fired && !h.mem.disposed && StartsSwitch(nic, h, r)
    requires Guard.Elsewhere(nic, home, mbps) && Safety.Readable(nic, home)
    ensures var called := TimerCallbackLocked(RequestSpeed(nic, h, r), id);
      !Guard.AlwaysRecoverable(nic, Next(nic, called, OpCallbackRestore(false, now)), home)
  {
    Safety.RequestKeepsInv(nic, h, home, r);
    var granted := RequestSpeed(nic, h, r);
    assert granted.mem.isSwitched && granted.jobs != [] && id in granted.fired;
    Safety.QuietOpKeepsInv(nic, granted, home, OpTimerCallback(id));
    CallbackOverAJobCanLose(nic, TimerCallbackLocked(granted, id), home, now, mbps);
  }
}
