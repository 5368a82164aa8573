/**
 * The serial dispatcher that turns stream events into sessions, and couples the link manager, the
 * session log and the launch watcher.
 */
module AppSession {
  import opened Common
  import Link = LinkSpeedModel
  import Safety = LinkSpeedSafety
  import Session = SessionLog
  import Launch = LaunchWatching

  datatype App = App(
    isAutoSessionActive: bool,
    unlockSessionActive: bool,
    lastStopDetected: Option<int>,
    link: Link.Host,
    log: Session.Log,
    watcher: Launch.Watcher)

  /**
   * What reaches the dispatcher. `unlockDeclared` says that a declared unlock session is still
   * pending when a start arrives. A session is wound up by the inactivity timer, by either
   * watchdog or by a client's stop, all of which may come at any time. `LinkWork` is everything
   * else that happens to the link meanwhile: requests, restores, timers and jobs.
   */
  datatype Event =
    | StreamStarted(now: int, sessionId: int, unlockDeclared: bool)
    | StreamStopped(now: int)
    | WindUp(now: int, probe: bool, onlyGames: bool, gamesPlayed: bool)
    | ClientStopped(now: int, probe: bool, onlyGames: bool, gamesPlayed: bool)
    | AppLaunched(kind: Launch.LaunchKind, now: int)
    | WatcherTick(sample: Launch.Sample)
    | LinkWork(op: Link.Op)

  function LinkSessionEnded(nic: Link.Nic, h: Link.Host, probe: bool, now: int): Link.Host {
    var ended := Link.SessionEndedLocked(h);
    if ended.endings > h.endings then Link.Next(nic, ended, Link.OpEndingRestore(probe, now)) else ended
  }

  function HandleAutoStreamStart(a: App, sessionId: int, now: int): App {
    a.(link := Link.SessionStarted(a.link), isAutoSessionActive := true,
       log := Session.StartSession(a.log, sessionId, now))
  }

  function HandleAutoStreamStop(nic: Link.Nic, a: App, now: int, probe: bool, onlyGames: bool, gamesPlayed: bool): App {
    if !a.isAutoSessionActive then a
    else a.(link := LinkSessionEnded(nic, a.link, probe, now),
            watcher := Launch.OnSessionEnded(a.watcher, a.lastStopDetected),
            log := Session.EndSession(a.log, now, onlyGames, gamesPlayed),
            isAutoSessionActive := false)
  }

  function OnStreamStarted(a: App, now: int, sessionId: int, unlockDeclared: bool): App {
    if unlockDeclared then a.(unlockSessionActive := true)
    else
      var declared := a.(unlockSessionActive := false);
      if !a.isAutoSessionActive then HandleAutoStreamStart(declared, sessionId, now)
      else declared.(log := Session.RecordStreamStart(a.log, now), link := Link.SessionStarted(a.link))
  }

  function OnStreamStopped(a: App, now: int): App {
    if a.unlockSessionActive then a.(unlockSessionActive := false)
    else if !a.isAutoSessionActive then a
    else a.(lastStopDetected := Some(now),
            log := Session.RecordStreamStop(a.log, now),
            link := Link.StreamDisconnected(a.link))
  }

  predicate IsLinkWork(op: Link.Op) {
    !op.OpSessionStarted? && !op.OpStreamDisconnected? && !op.OpSessionEnded? && !op.OpEndingRestore?
  }

  predicate Enabled(a: App, e: Event) {
    match e
    case LinkWork(op) => IsLinkWork(op) && Link.Enabled(a.link, op)
    case WatcherTick(_) => a.watcher.sampling && a.watcher.launchedAt.Some?
    case _ => true
  }

  function After(nic: Link.Nic, a: App, e: Event): App
    requires Enabled(a, e)
  {
    match e
    case StreamStarted(now, sessionId, unlockDeclared) => OnStreamStarted(a, now, sessionId, unlockDeclared)
    case StreamStopped(now) => OnStreamStopped(a, now)
    case WindUp(now, probe, onlyGames, gamesPlayed) => HandleAutoStreamStop(nic, a, now, probe, onlyGames, gamesPlayed)
    case ClientStopped(now, probe, onlyGames, gamesPlayed) =>
      var stopped := HandleAutoStreamStop(nic, a, now, probe, onlyGames, gamesPlayed);
      stopped.(link := Link.RestoreNow(nic, stopped.link, probe, now))
    case AppLaunched(kind, now) => a.(watcher := Launch.OnAppLaunched(kind, now))
    case WatcherTick(sample) => a.(watcher := Launch.Tick(a.watcher, sample))
    case LinkWork(op) => a.(link := Link.Next(nic, a.link, op))
  }

  predicate LegalRun(nic: Link.Nic, a: App, events: seq<Event>)
    decreases |events|
  {
    events == [] || (Enabled(a, events[0]) && LegalRun(nic, After(nic, a, events[0]), events[1..]))
  }

  function Run(nic: Link.Nic, a: App, events: seq<Event>): App
    requires LegalRun(nic, a, events)
    decreases |events|
  {
    if events == [] then a else Run(nic, After(nic, a, events[0]), events[1..])
  }

  // ── What each event does ────────────────────────────────────────────────────

  /** A start with no session opens one: a row and a span from now, and the link told that a stream is live. */
  lemma StartOpensTheSession(nic: Link.Nic, a: App, now: int, id: int)
    requires !a.isAutoSessionActive
    ensures var after := After(nic, a, StreamStarted(now, id, false));
      && after.isAutoSessionActive && !after.unlockSessionActive && after.lastStopDetected == a.lastStopDetected
      && after.log.activeId == Some(id) && after.log.activeStart == now && after.log.spans == [Session.Span(now, None)]
      && |after.log.rows| == |a.log.rows| + 1 && after.log.rows[1..] == a.log.rows
      && after.log.rows[0].id == id && after.log.rows[0].start == now && after.log.rows[0].end.None?
      && after.link.mem.sessionActive && after.link.jobs == a.link.jobs && after.link.disk == a.link.disk
      && after.watcher == a.watcher
  {
  }

  /** A start within a session resumes it: one more span from now, and the link told again. */
  lemma StartResumesTheSession(nic: Link.Nic, a: App, now: int, id: int)
    requires a.isAutoSessionActive
    ensures var after := After(nic, a, StreamStarted(now, id, false));
      && after.isAutoSessionActive && !after.unlockSessionActive
      && after.log == a.log.(spans := after.log.spans)
      && (Session.LastOpen(a.log.spans) ==> after.log.spans == a.log.spans)
      && (!Session.LastOpen(a.log.spans) ==> after.log.spans == a.log.spans + [Session.Span(now, None)])
      && after.link.mem.sessionActive && after.link.mem.handle.None? && after.link.jobs == a.link.jobs
      && after.watcher == a.watcher
  {
  }

  /** A stop within a session ends its open span at that moment, frees the link, and leaves the session open. */
  lemma StopFreesTheLink(nic: Link.Nic, a: App, now: int)
    requires a.isAutoSessionActive && !a.unlockSessionActive && Session.LastOpen(a.log.spans)
    ensures var after, n := After(nic, a, StreamStopped(now)), |a.log.spans|;
      && after.isAutoSessionActive && after.lastStopDetected == Some(now)
      && after.log == a.log.(spans := a.log.spans[n - 1 := Session.Span(a.log.spans[n - 1].start, Some(now))])
      && after.link == a.link.(mem := a.link.mem.(sessionActive := false))
      && after.watcher == a.watcher
  {
  }

  /** A declared unlock leaves no trace: its start and its stop change nothing but the mark between them. */
  lemma UnlockLeavesNoTrace(nic: Link.Nic, a: App, now: int, later: int, id: int)
    ensures var during := After(nic, a, StreamStarted(now, id, true));
      && during == a.(unlockSessionActive := true)
      && After(nic, during, StreamStopped(later)) == a.(unlockSessionActive := false)
  {
  }

  /** A stop with no session and no unlock changes nothing. */
  lemma StrayStopIsIgnored(nic: Link.Nic, a: App, now: int)
    requires !a.isAutoSessionActive && !a.unlockSessionActive
    ensures After(nic, a, StreamStopped(now)) == a
  {
  }

  /** Winding up ends the session for all three: no active row, no live stream; without a session it does nothing. */
  lemma WindUpEndsTheSession(nic: Link.Nic, a: App, now: int, probe: bool, onlyGames: bool, gamesPlayed: bool)
    ensures var after := After(nic, a, WindUp(now, probe, onlyGames, gamesPlayed));
      if !a.isAutoSessionActive then after == a
      else
        && !after.isAutoSessionActive && after.log.activeId.None? && !after.link.mem.sessionActive
        && after.log == Session.EndSession(a.log, now, onlyGames, gamesPlayed)
        && after.lastStopDetected == a.lastStopDetected && after.unlockSessionActive == a.unlockSessionActive
  {
    SessionEndClearsFlag(nic, a.link, probe, now);
  }

  // ── The coupling ────────────────────────────────────────────────────────────

  /** The link manager believes a stream is live exactly while the session's last span is open. */
  predicate Coupled(a: App) {
    a.link.mem.sessionActive == (a.isAutoSessionActive && Session.LastOpen(a.log.spans))
  }

  lemma LinkWorkKeepsSessionFlag(nic: Link.Nic, h: Link.Host, op: Link.Op)
    requires Link.Enabled(h, op) && IsLinkWork(op)
    ensures Link.Next(nic, h, op).mem.sessionActive == h.mem.sessionActive
  {
  }

  lemma RestoreKeepsSessionFlag(nic: Link.Nic, h: Link.Host, probe: bool, now: int)
    ensures Link.RestoreNow(nic, h, probe, now).mem.sessionActive == h.mem.sessionActive
  {
  }

  lemma SessionEndClearsFlag(nic: Link.Nic, h: Link.Host, probe: bool, now: int)
    ensures !LinkSessionEnded(nic, h, probe, now).mem.sessionActive
  {
    var ended := Link.SessionEndedLocked(h);
    if ended.endings > h.endings {
      RestoreKeepsSessionFlag(nic, ended.(endings := ended.endings - 1), probe, now);
    }
  }

  lemma StopKeepsCoupling(nic: Link.Nic, a: App, now: int, probe: bool, onlyGames: bool, gamesPlayed: bool)
    requires Coupled(a)
    ensures Coupled(HandleAutoStreamStop(nic, a, now, probe, onlyGames, gamesPlayed))
    ensures !HandleAutoStreamStop(nic, a, now, probe, onlyGames, gamesPlayed).isAutoSessionActive
  {
    SessionEndClearsFlag(nic, a.link, probe, now);
  }

  lemma EventKeepsCoupling(nic: Link.Nic, a: App, e: Event)
    requires Coupled(a) && Enabled(a, e)
    ensures Coupled(After(nic, a, e))
  {
    match e
    case LinkWork(op) => LinkWorkKeepsSessionFlag(nic, a.link, op);
    case WindUp(now, probe, onlyGames, gamesPlayed) => StopKeepsCoupling(nic, a, now, probe, onlyGames, gamesPlayed);
    case ClientStopped(now, probe, onlyGames, gamesPlayed) =>
      StopKeepsCoupling(nic, a, now, probe, onlyGames, gamesPlayed);
      RestoreKeepsSessionFlag(nic, HandleAutoStreamStop(nic, a, now, probe, onlyGames, gamesPlayed).link, probe, now);
    case StreamStarted(_, _, _) =>
    case StreamStopped(_) =>
    case AppLaunched(_, _) =>
    case WatcherTick(_) =>
  }

  /** The coupling holds at every point of every serial run of events. */
  lemma {:induction false} CouplingHolds(nic: Link.Nic, a: App, events: seq<Event>)
    requires Coupled(a) && LegalRun(nic, a, events)
    ensures Coupled(Run(nic, a, events))
    decreases |events|
  {
    if events != [] {
      EventKeepsCoupling(nic, a, events[0]);
      CouplingHolds(nic, After(nic, a, events[0]), events[1..]);
    }
  }

  /** While the link manager believes a stream is live, no link work starts a job. */
  lemma LiveLinkStartsNoJob(nic: Link.Nic, h: Link.Host, op: Link.Op)
    requires h.mem.sessionActive && Link.Enabled(h, op) && IsLinkWork(op)
    ensures |Link.Next(nic, h, op).jobs| <= |h.jobs|
    ensures op.OpRequest? ==> Link.RequestResult(nic, h, op.r) != Link.Accepted && Link.Next(nic, h, op) == h
    ensures Safety.RestoreProbe(op).Some? && h.mem.isSwitched ==>
      Link.Next(nic, h, op).mem.restoreAt.Some? && Link.Next(nic, h, op).jobs == h.jobs
  {
  }

  /**
   * After any run, while a session's stream span is open, nothing that happens to the link starts
   * a job: speed requests are turned away and restores wait.
   */
  lemma NoJobUnderAnOpenSpan(nic: Link.Nic, a: App, events: seq<Event>, op: Link.Op)
    requires Coupled(a) && LegalRun(nic, a, events)
    requires var now := Run(nic, a, events);
      && now.isAutoSessionActive && Session.LastOpen(now.log.spans)
      && Link.Enabled(now.link, op) && IsLinkWork(op)
    ensures var h := Run(nic, a, events).link;
      && |Link.Next(nic, h, op).jobs| <= |h.jobs|
      && (op.OpRequest? ==> Link.RequestResult(nic, h, op.r) != Link.Accepted && Link.Next(nic, h, op) == h)
      && (Safety.RestoreProbe(op).Some? && h.mem.isSwitched ==>
            Link.Next(nic, h, op).mem.restoreAt.Some? && Link.Next(nic, h, op).jobs == h.jobs)
  {
    CouplingHolds(nic, a, events);
    LiveLinkStartsNoJob(nic, Run(nic, a, events).link, op);
  }

  /**
   * The one job a dispatcher event can start while a span is still open is the restore that the
   * end of the session itself brings; by the end of that event the session is over.
   */
  lemma JobsStartOnlyAsTheSessionEnds(nic: Link.Nic, a: App, e: Event)
    requires Coupled(a) && Enabled(a, e) && a.isAutoSessionActive && Session.LastOpen(a.log.spans)
    requires |After(nic, a, e).link.jobs| > |a.link.jobs|
    ensures (e.WindUp? || e.ClientStopped?) && !After(nic, a, e).isAutoSessionActive
    ensures !After(nic, a, e).link.mem.sessionActive
  {
    EventKeepsCoupling(nic, a, e);
    match e
    case WindUp(now, probe, onlyGames, gamesPlayed) => StopKeepsCoupling(nic, a, now, probe, onlyGames, gamesPlayed);
    case ClientStopped(now, probe, onlyGames, gamesPlayed) =>
      StopKeepsCoupling(nic, a, now, probe, onlyGames, gamesPlayed);
    case LinkWork(op) => LiveLinkStartsNoJob(nic, a.link, op);
    case StreamStarted(now, id, unlock) =>
    case StreamStopped(now) =>
    case AppLaunched(kind, now) =>
    case WatcherTick(sample) =>
  }

  // ── What is left of a launch ────────────────────────────────────────────────

  /**
   * Winding a session up forgets its launch unless the launch is younger than the last detected
   * stop - whichever session that stop belonged to.
   */
  lemma WindUpForgetsLaunchIff(nic: Link.Nic, a: App, now: int, probe: bool, onlyGames: bool, gamesPlayed: bool)
    requires a.isAutoSessionActive && a.watcher.launchedAt.Some? && a.watcher.phase != Launch.Idle
    ensures var end := HandleAutoStreamStop(nic, a, now, probe, onlyGames, gamesPlayed);
      end.watcher.phase == Launch.Idle <==>
        a.lastStopDetected.None? || a.watcher.launchedAt.value <= a.lastStopDetected.value
  {
  }

  /**
   * The stop time is never forgotten between sessions. So after one session that ended with a
   * detected stop, a second one that a watchdog winds up without any stop leaves its launch on
   * show with no session left: the client of the next session is told about a finished launch.
   */
  lemma StaleStopKeepsAFinishedLaunch(nic: Link.Nic, a: App, t: int, onlyGames: bool)
    requires !a.isAutoSessionActive && !a.unlockSessionActive
    ensures
      var events := [
        StreamStarted(t, 1, false), StreamStopped(t + 1), WindUp(t + 2, false, onlyGames, false),
        AppLaunched(Launch.Target, t + 3), StreamStarted(t + 4, 2, false), WindUp(t + 5, false, onlyGames, false)];
      && LegalRun(nic, a, events)
      && !Run(nic, a, events).isAutoSessionActive
      && Run(nic, a, events).watcher.phase == Launch.Launching && Run(nic, a, events).watcher.sampling
  {
    var e0, e1, e2 := StreamStarted(t, 1, false), StreamStopped(t + 1), WindUp(t + 2, false, onlyGames, false);
    var e3, e4 := AppLaunched(Launch.Target, t + 3), StreamStarted(t + 4, 2, false);
    var e5 := WindUp(t + 5, false, onlyGames, false);
    var a1 := After(nic, a, e0);
    var a2 := After(nic, a1, e1);
    var a3 := After(nic, a2, e2);
    var a4 := After(nic, a3, e3);
    var a5 := After(nic, a4, e4);
    var a6 := After(nic, a5, e5);
    assert a2.lastStopDetected == Some(t + 1) && a6.watcher == Launch.OnAppLaunched(Launch.Target, t + 3);
    RunCons(nic, a5, e5, []);
    RunCons(nic, a4, e4, [e5]);
    RunCons(nic, a3, e3, [e4, e5]);
    RunCons(nic, a2, e2, [e3, e4, e5]);
    RunCons(nic, a1, e1, [e2, e3, e4, e5]);
    RunCons(nic, a, e0, [e1, e2, e3, e4, e5]);
  }

  lemma RunCons(nic: Link.Nic, a: App, e: Event, rest: seq<Event>)
    requires Enabled(a, e) && LegalRun(nic, After(nic, a, e), rest)
    ensures LegalRun(nic, a, [e] + rest) && Run(nic, a, [e] + rest) == Run(nic, After(nic, a, e), rest)
  {
    assert ([e] + rest)[1..] == rest;
  }
}
