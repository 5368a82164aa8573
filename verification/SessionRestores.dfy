/**
 * The jobs that the end of a session starts. `OnSessionEnded` runs before `EndSession`, so a restore
 * it brings starts while the session's last span is still open; and a client's stop restores a
 * second time without looking at the first.
 */
module SessionRestores {
  import opened AppSession
  import Link = LinkSpeedModel
  import Safety = LinkSpeedSafety
  import Guard = LinkSpeedGuard
  import Session = SessionLog
  import Launch = LaunchWatching

  predicate RestorePending(h: Link.Host) {
    h.mem.isSwitched && h.mem.restoreAt.Some?
  }

  predicate Resolves(nic: Link.Nic, h: Link.Host) {
    Link.ResolveOriginalOption(nic, h.disk.originalSpeed, h.mem.originalMbps).Some?
  }

  /**
   * The end of a session schedules nothing and arms no grace period: it leaves the link exactly as
   * it was, but for the live flag, if and only if no restore was pending.
   */
  lemma SessionEndLeavesTheLinkIff(nic: Link.Nic, h: Link.Host, probe: bool, now: int)
    ensures LinkSessionEnded(nic, h, probe, now) == h.(mem := h.mem.(sessionActive := false)) <==> !RestorePending(h)
  {
    EndOfSessionJobs(nic, h, probe, now);
  }

  lemma EndOfSessionJobs(nic: Link.Nic, h: Link.Host, probe: bool, now: int)
    ensures var ended := LinkSessionEnded(nic, h, probe, now);
      |ended.jobs| == |h.jobs| + if RestorePending(h) && !probe && Resolves(nic, h) then 1 else 0
  {
  }

  // ── Inside the event ────────────────────────────────────────────────────────

  /** HandleAutoStreamStop right after OnSessionEnded: the link is done, the row still open. */
  function MidWindUp(nic: Link.Nic, a: App, now: int, probe: bool): App {
    a.(link := LinkSessionEnded(nic, a.link, probe, now))
  }

  /** The rest of HandleAutoStreamStop. */
  function FinishWindUp(a: App, now: int, onlyGames: bool, gamesPlayed: bool): App {
    a.(watcher := Launch.OnSessionEnded(a.watcher, a.lastStopDetected),
       log := Session.EndSession(a.log, now, onlyGames, gamesPlayed),
       isAutoSessionActive := false)
  }

  /**
   * Exactly when winding a session up starts a job under its open span: a restore was pending, the
   * probe finds no stream, and the original setting is known. The job is in flight halfway through,
   * with the session active and the span open, and still there when the event is over.
   */
  lemma WindUpStartsAJobIff(nic: Link.Nic, a: App, now: int, probe: bool, onlyGames: bool, gamesPlayed: bool)
    requires a.isAutoSessionActive && Session.LastOpen(a.log.spans)
    ensures var mid := MidWindUp(nic, a, now, probe);
      var end := After(nic, a, WindUp(now, probe, onlyGames, gamesPlayed));
      && end == FinishWindUp(mid, now, onlyGames, gamesPlayed)
      && mid.isAutoSessionActive && Session.LastOpen(mid.log.spans)
      && (|mid.link.jobs| > |a.link.jobs| <==> RestorePending(a.link) && !probe && Resolves(nic, a.link))
      && end.link.jobs == mid.link.jobs
  {
    EndOfSessionJobs(nic, a.link, probe, now);
  }

  // ── A client's stop ─────────────────────────────────────────────────────────

  /** How many restore jobs a client's stop starts on an active session. */
  function JobsOfAStop(nic: Link.Nic, h: Link.Host, probe: bool): nat {
    if probe || !Resolves(nic, h) then 0
    else if RestorePending(h) then 2
    else if h.mem.isSwitched || h.mem.state == Link.Error then 1
    else 0
  }

  /**
   * A client's stop starts one restore, or none - or two, exactly when one was already pending:
   * the end of the session runs it, and RestoreNow is entered again over it.
   */
  lemma ClientStopStartsJobs(nic: Link.Nic, a: App, now: int, probe: bool, onlyGames: bool, gamesPlayed: bool)
    requires a.isAutoSessionActive
    ensures var end := After(nic, a, ClientStopped(now, probe, onlyGames, gamesPlayed));
      |end.link.jobs| == |a.link.jobs| + JobsOfAStop(nic, a.link, probe)
  {
    StopThenRestore(nic, a.link, probe, now);
  }

  lemma StopThenRestore(nic: Link.Nic, h: Link.Host, probe: bool, now: int)
    ensures |Link.RestoreNow(nic, LinkSessionEnded(nic, h, probe, now), probe, now).jobs|
      == |h.jobs| + JobsOfAStop(nic, h, probe)
  {
  }

  lemma PendingRestoreRuns(nic: Link.Nic, h: Link.Host, home: string, now: int)
    requires Safety.Inv(nic, h, home) && h.jobs == [] && RestorePending(h)
    ensures var ended := LinkSessionEnded(nic, h, false, now);
      && Safety.Inv(nic, ended, home) && ended.mem.isSwitched && !ended.mem.sessionActive && ended.jobs != []
  {
    var quiet := h.(mem := h.mem.(sessionActive := false));
    Safety.NamedSettingIsResolved(nic, h.disk, home, h.mem.originalMbps);
    Safety.RestoreNowKeepsInv(nic, quiet, home, false, now);
  }

  /**
   * What the second restore costs. Stopping a session over a pending restore leaves the link where
   * some continuation loses the record of the original setting.
   */
  lemma ClientStopCanLoseTheRecord(nic: Link.Nic, a: App, home: string, now: int, onlyGames: bool,
                                   gamesPlayed: bool, mbps: int)
    requires a.isAutoSessionActive && Safety.Inv(nic, a.link, home) && a.link.jobs == [] && RestorePending(a.link)
    requires Guard.Elsewhere(nic, home, mbps) && Safety.Readable(nic, home)
    ensures var end := After(nic, a, ClientStopped(now, false, onlyGames, gamesPlayed));
      !Guard.AlwaysRecoverable(nic, end.link, home)
  {
    PendingRestoreRuns(nic, a.link, home, now);
    var ended := LinkSessionEnded(nic, a.link, false, now);
    Guard.EnteringARestoreOverAJobCanLose(nic, ended, home, false, now, mbps);
  }

  // ── A run in which it happens ───────────────────────────────────────────────

  /** The link after a granted switch has run its course. */
  lemma SwitchedLink(nic: Link.Nic, h: Link.Host, r: Link.Request) returns (switched: Link.Host)
    requires h.jobs == [] && !h.mem.isSwitched && Link.StartsSwitch(nic, h, r)
    requires Safety.Readable(nic, h.disk.registry)
    ensures var h1 := Link.RequestSpeed(nic, h, r);
      && |h1.jobs| == 1 && h1.jobs[0].phase == Link.Pending
      && var h2 := Link.JobApply(h1, 0, true);
      && |h2.jobs| == 1 && h2.jobs[0].phase == Link.Settling
      && switched == Link.JobEnd(h2, 0)
    ensures switched.jobs == [] && switched.mem.isSwitched && !switched.mem.sessionActive && Resolves(nic, switched)
  {
    var captured := Link.CurrentSetting(nic, h.disk.registry).value;
    assert captured in nic.options;
    var h1 := Link.RequestSpeed(nic, h, r);
    switched := Link.JobEnd(Link.JobApply(h1, 0, true), 0);
  }

  function SwitchEvents(r: Link.Request): seq<Event> {
    [LinkWork(Link.OpRequest(r)), LinkWork(Link.OpJobApply(0, true)), LinkWork(Link.OpJobEnd(0))]
  }

  function StreamEvents(t: int, id: int): seq<Event> {
    [StreamStarted(t, id, false), LinkWork(Link.OpRestore(false, t + 1))]
  }

  /** The three switch events lead to the switched link, and on into whatever may follow there. */
  lemma SwitchThen(nic: Link.Nic, a: App, r: Link.Request, switched: Link.Host, rest: seq<Event>)
    requires var h1 := Link.RequestSpeed(nic, a.link, r);
      && |h1.jobs| == 1 && h1.jobs[0].phase == Link.Pending
      && var h2 := Link.JobApply(h1, 0, true);
      && |h2.jobs| == 1 && h2.jobs[0].phase == Link.Settling
      && switched == Link.JobEnd(h2, 0)
    requires LegalRun(nic, a.(link := switched), rest)
    ensures LegalRun(nic, a, SwitchEvents(r) + rest)
    ensures Run(nic, a, SwitchEvents(r) + rest) == Run(nic, a.(link := switched), rest)
  {
    var h1 := Link.RequestSpeed(nic, a.link, r);
    var a1, a2 := a.(link := h1), a.(link := Link.JobApply(h1, 0, true));
    var e0, e1, e2 := SwitchEvents(r)[0], SwitchEvents(r)[1], SwitchEvents(r)[2];
    RunCons(nic, a2, e2, rest);
    RunCons(nic, a1, e1, [e2] + rest);
    RunCons(nic, a, e0, [e1] + ([e2] + rest));
    assert [e0] + ([e1] + ([e2] + rest)) == SwitchEvents(r) + rest;
  }

  lemma StreamDefers(nic: Link.Nic, a: App, t: int, id: int)
    requires !a.isAutoSessionActive && a.link.jobs == [] && a.link.mem.isSwitched && Resolves(nic, a.link)
    ensures LegalRun(nic, a, StreamEvents(t, id))
    ensures var last := Run(nic, a, StreamEvents(t, id));
      && last.link.jobs == [] && last.isAutoSessionActive && Session.LastOpen(last.log.spans)
      && RestorePending(last.link) && Resolves(nic, last.link)
  {
    var e3, e4 := StreamEvents(t, id)[0], StreamEvents(t, id)[1];
    RunCons(nic, After(nic, a, e3), e4, []);
    RunCons(nic, a, e3, [e4]);
    assert [e3] + ([e4] + []) == StreamEvents(t, id);
  }

  /**
   * A client is granted a speed and plays; a restore is asked for during the stream and deferred;
   * a watchdog winds the session up without a logged stop. Halfway through that last event the
   * restore job is in flight under the open span.
   */
  lemma RestoreStartsUnderAnOpenSpan(nic: Link.Nic, a: App, r: Link.Request, t: int, id: int)
    requires !a.isAutoSessionActive && a.link.jobs == [] && !a.link.mem.isSwitched
    requires Link.StartsSwitch(nic, a.link, r) && Safety.Readable(nic, a.link.disk.registry)
    ensures LegalRun(nic, a, SwitchEvents(r) + StreamEvents(t, id))
    ensures
      var last := Run(nic, a, SwitchEvents(r) + StreamEvents(t, id));
      var mid := MidWindUp(nic, last, t + 2, false);
      && last.link.jobs == [] && Session.LastOpen(last.log.spans)
      && |mid.link.jobs| == 1 && mid.isAutoSessionActive && Session.LastOpen(mid.log.spans)
  {
    var switched := SwitchedLink(nic, a.link, r);
    var b := a.(link := switched);
    StreamDefers(nic, b, t, id);
    SwitchThen(nic, a, r, switched, StreamEvents(t, id));
    EndOfSessionJobs(nic, Run(nic, b, StreamEvents(t, id)).link, false, t + 2);
  }
}
