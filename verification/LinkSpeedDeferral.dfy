/**
 * A deferred restore is never lost, over every interleaving of lock sections, timer firings and
 * background jobs - with no assumption on overlapping restores.
 */
module LinkSpeedDeferral {
  import opened LinkSpeedModel
  import LinkSpeedSafety

  /** Whether this step is a RestoreNow that defers because a stream is live. */
  predicate Defers(nic: Nic, h: Host, op: Op) {
    var probe := LinkSpeedSafety.RestoreProbe(op);
    h.mem.isSwitched && probe.Some? && RestoreOutcomeOf(nic, h, probe.value).Deferred?
  }

  /** The events that settle a deferred restore: everything a client or the user would call an answer. */
  predicate Settles(nic: Nic, h: Host, op: Op)
    requires Enabled(h, op)
  {
    var probe := LinkSpeedSafety.RestoreProbe(op);
    || op.OpSessionStarted?
    || op.OpDispose?
    || (op.OpRequest? && RequestResult(nic, h, op.r) == Accepted)
    || (probe.Some? && RestoreOutcomeOf(nic, h, probe.value).Started?)
    || !Next(nic, h, op).mem.isSwitched
  }

  /** The debt after a step: a deferral incurs it, and only a settling event discharges it. */
  predicate Owes(nic: Nic, owed: bool, h: Host, op: Op)
    requires Enabled(h, op)
  {
    Defers(nic, h, op) || (owed && !Settles(nic, h, op))
  }

  /** A timer that will call back is set, with its due time on show. */
  predicate Scheduled(h: Host) {
    h.mem.restoreAt.Some? && h.mem.handle.Some? && (h.mem.handle.value in h.armed || h.mem.handle.value in h.fired)
  }

  /** A thread is past the check that brought it here and will enter RestoreNow next. */
  predicate AboutToRestore(h: Host) {
    h.callbacks > 0 || h.endings > 0
  }

  predicate Kept(owed: bool, h: Host) {
    owed ==> h.mem.isSwitched && !h.mem.disposed && (Scheduled(h) || h.callbacks > 0)
  }

  lemma StepKeepsTheDebt(nic: Nic, owed: bool, h: Host, op: Op)
    requires Kept(owed, h) && Enabled(h, op) && !h.mem.disposed
    ensures Kept(Owes(nic, owed, h, op), Next(nic, h, op))
  {
  }

  predicate EnabledRun(nic: Nic, h: Host, ops: seq<Op>)
    decreases |ops|
  {
    ops == [] || (Enabled(h, ops[0]) && EnabledRun(nic, Next(nic, h, ops[0]), ops[1..]))
  }

  function Run(nic: Nic, h: Host, ops: seq<Op>): Host
    requires EnabledRun(nic, h, ops)
    decreases |ops|
  {
    if ops == [] then h else Run(nic, Next(nic, h, ops[0]), ops[1..])
  }

  /** No event of the run settles the debt. */
  predicate Unsettled(nic: Nic, h: Host, ops: seq<Op>)
    requires EnabledRun(nic, h, ops)
    decreases |ops|
  {
    ops == [] || (!Settles(nic, h, ops[0]) && Unsettled(nic, Next(nic, h, ops[0]), ops[1..]))
  }

  lemma {:induction false} UnsettledRunKeepsTheDebt(nic: Nic, h: Host, ops: seq<Op>)
    requires EnabledRun(nic, h, ops) && Unsettled(nic, h, ops)
    requires Kept(true, h) && !h.mem.disposed
    ensures Kept(true, Run(nic, h, ops)) && !Run(nic, h, ops).mem.disposed
    decreases |ops|
  {
    if ops != [] {
      StepKeepsTheDebt(nic, true, h, ops[0]);
      UnsettledRunKeepsTheDebt(nic, Next(nic, h, ops[0]), ops[1..]);
    }
  }

  /**
   * Once a RestoreNow defers, then however timers, jobs, sessions and further requests interleave,
   * until something settles it the restore is scheduled or a timer callback is about to run it.
   */
  lemma DeferredRestoreIsNeverLost(nic: Nic, h: Host, op: Op, ops: seq<Op>)
    requires !h.mem.disposed && Enabled(h, op) && Defers(nic, h, op)
    requires EnabledRun(nic, Next(nic, h, op), ops) && Unsettled(nic, Next(nic, h, op), ops)
    ensures var end := Run(nic, Next(nic, h, op), ops);
      end.mem.isSwitched && (Scheduled(end) || end.callbacks > 0)
  {
    StepKeepsTheDebt(nic, false, h, op);
    UnsettledRunKeepsTheDebt(nic, Next(nic, h, op), ops);
  }

  /**
   * The end of the session never leaves a deferred restore to its timer alone: right after
   * OnSessionEnded some thread is on its way into RestoreNow, even when the timer fired first and
   * took the due time away; and whichever of them enters with no stream live settles the matter.
   */
  lemma SessionEndBringsTheRestore(nic: Nic, h: Host, op: Op, ops: seq<Op>)
    requires !h.mem.disposed && Enabled(h, op) && Defers(nic, h, op)
    requires EnabledRun(nic, Next(nic, h, op), ops) && Unsettled(nic, Next(nic, h, op), ops)
    ensures var ended := SessionEndedLocked(Run(nic, Next(nic, h, op), ops));
      && AboutToRestore(ended)
      && forall entry: Op
           | (entry.OpCallbackRestore? || entry.OpEndingRestore?) && !entry.probe && Enabled(ended, entry) ::
           Settles(nic, ended, entry)
  {
    DeferredRestoreIsNeverLost(nic, h, op, ops);
  }

  // ── What a grant or a start cancels ─────────────────────────────────────────

  /** The only timer that can still fire is the one on record, and a due time on show has one. */
  predicate Tracked(h: Host) {
    && h.armed <= (if h.mem.handle.Some? then {h.mem.handle.value} else {})
    && (h.mem.restoreAt.Some? && !h.mem.disposed ==> h.mem.handle.Some?)
  }

  lemma StepKeepsTimersTracked(nic: Nic, h: Host, op: Op)
    requires Tracked(h) && Enabled(h, op)
    ensures Tracked(Next(nic, h, op))
  {
  }

  lemma {:induction false} RunKeepsTimersTracked(nic: Nic, h: Host, ops: seq<Op>)
    requires Tracked(h) && EnabledRun(nic, h, ops)
    ensures Tracked(Run(nic, h, ops))
    decreases |ops|
  {
    if ops != [] {
      StepKeepsTimersTracked(nic, h, ops[0]);
      RunKeepsTimersTracked(nic, Next(nic, h, ops[0]), ops[1..]);
    }
  }

  /**
   * A grant or a session start cancels what is only scheduled: after any run, no timer is left
   * that could still fire and no due time is on show. It does not reach a timer that has fired
   * already or a thread past its lock; what those can still do is the subject of LinkSpeedOverlap.
   */
  lemma GrantsAndStartsCancelTheRestore(nic: Nic, h: Host, ops: seq<Op>, op: Op)
    requires Tracked(h) && EnabledRun(nic, h, ops)
    requires var now := Run(nic, h, ops);
      && !now.mem.disposed
      && (op.OpSessionStarted? || (op.OpRequest? && RequestResult(nic, now, op.r) == Accepted))
    ensures var after := Next(nic, Run(nic, h, ops), op);
      after.armed == {} && after.mem.restoreAt.None? && after.mem.handle.None?
  {
    RunKeepsTimersTracked(nic, h, ops);
  }
}
