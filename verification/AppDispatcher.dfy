/** The dispatcher's handlers, over the live objects they drive. */
module AppDispatcher {
  import opened Common
  import Spec = AppSession
  import opened LinkSpeedManagement
  import opened SessionLoggerObject
  import opened LaunchWatcherObject

  const UNLOCK_MARK_MAX_AGE_MS := 180_000

  class App {
    const linkSpeed: LinkSpeedManager
    const sessionLogger: SessionLogger
    const launchWatcher: LaunchWatcher
    var isAutoSessionActive: bool
    var unlockSessionActive: bool
    var unlockMarkUntil: Option<int>
    var lastStopDetected: Option<int>

    ghost function Model(): Spec.App
      reads this, linkSpeed, linkSpeed.env, sessionLogger, launchWatcher
    {
      Spec.App(isAutoSessionActive, unlockSessionActive, lastStopDetected,
               linkSpeed.Model(), sessionLogger.Model(), launchWatcher.Model())
    }

    constructor (linkSpeed: LinkSpeedManager, sessionLogger: SessionLogger, launchWatcher: LaunchWatcher)
      ensures !isAutoSessionActive && !unlockSessionActive && lastStopDetected == None
      ensures !linkSpeed.sessionActive ==> Spec.Coupled(Model())
    {
      this.linkSpeed, this.sessionLogger, this.launchWatcher := linkSpeed, sessionLogger, launchWatcher;
      isAutoSessionActive, unlockSessionActive, unlockMarkUntil, lastStopDetected := false, false, None, None;
    }

    /** A client declares, or takes back, a session that only unlocks the host. */
    method OnBridgeUnlockSessionMarked(begin: bool, now: int)
      modifies `unlockMarkUntil
      ensures forall later :: UnlockDeclared(later) <==> begin && later < now + 180_000
    {
      unlockMarkUntil := if begin then Some(now + UNLOCK_MARK_MAX_AGE_MS) else None;
    }

    /** A declared unlock is still waiting for its start. */
    predicate UnlockDeclared(now: int)
      reads this
    {
      unlockMarkUntil.Some? && now < unlockMarkUntil.value
    }

    /** The first start before the deadline of a declared unlock, and only that one, is the unlock. */
    method ConsumeUnlockSessionMark(now: int) returns (consumed: bool)
      modifies `unlockMarkUntil, `unlockSessionActive
      ensures consumed == old(UnlockDeclared(now))
      ensures unlockSessionActive == (consumed || old(unlockSessionActive))
      ensures consumed ==> forall later :: !UnlockDeclared(later)
      ensures !consumed ==> unlockMarkUntil == old(unlockMarkUntil)
    {
      if !UnlockDeclared(now) {
        return false;
      }
      unlockMarkUntil := None;
      unlockSessionActive := true;
      return true;
    }

    method OnStreamStarted(now: int, sessionId: int)
      modifies this, linkSpeed, linkSpeed.env, sessionLogger
      ensures Model() == Spec.OnStreamStarted(old(Model()), now, sessionId, old(UnlockDeclared(now)))
    {
      var unlock := ConsumeUnlockSessionMark(now);
      if unlock {
        return;
      }
      unlockSessionActive := false;
      if !isAutoSessionActive {
        HandleAutoStreamStart(sessionId, now);
      } else {
        sessionLogger.RecordStreamStart(now);
        linkSpeed.OnSessionStarted();
      }
    }

    method OnStreamStopped(now: int)
      modifies this, linkSpeed, sessionLogger
      ensures Model() == Spec.OnStreamStopped(old(Model()), now)
    {
      if unlockSessionActive {
        unlockSessionActive := false;
        return;
      }
      if isAutoSessionActive {
        lastStopDetected := Some(now);
        sessionLogger.RecordStreamStop(now);
        linkSpeed.OnStreamDisconnected();
      }
    }

    method HandleAutoStreamStart(sessionId: int, now: int)
      modifies `isAutoSessionActive, linkSpeed, linkSpeed.env, sessionLogger
      ensures Model() == Spec.HandleAutoStreamStart(old(Model()), sessionId, now)
    {
      linkSpeed.OnSessionStarted();
      isAutoSessionActive := true;
      sessionLogger.StartSession(sessionId, now);
    }

    method HandleAutoStreamStop(now: int, probe: bool, gamesPlayed: bool)
      requires launchWatcher.Valid() && linkSpeed.env.now == now
      modifies `isAutoSessionActive, linkSpeed, linkSpeed.env, sessionLogger, launchWatcher
      ensures launchWatcher.Valid() && linkSpeed.env.now == now
      ensures Model() == Spec.HandleAutoStreamStop(linkSpeed.nic, old(Model()), now, probe,
                                                   old(sessionLogger.recordOnlyGameSessions), gamesPlayed)
    {
      if !isAutoSessionActive {
        return;
      }
      linkSpeed.OnSessionEnded(probe);
      launchWatcher.OnSessionEnded(lastStopDetected);
      sessionLogger.EndSession(now, gamesPlayed);
      isAutoSessionActive := false;
    }

    /** A client stopped its session on purpose: wind it up and put the link back at once. */
    method OnBridgeRestoreRequested(now: int, probe: bool, gamesPlayed: bool)
      requires launchWatcher.Valid() && linkSpeed.env.now == now
      modifies `isAutoSessionActive, linkSpeed, linkSpeed.env, sessionLogger, launchWatcher
      ensures launchWatcher.Valid()
      ensures Model() == Spec.After(linkSpeed.nic, old(Model()),
        Spec.ClientStopped(now, probe, old(sessionLogger.recordOnlyGameSessions), gamesPlayed))
    {
      HandleAutoStreamStop(now, probe, gamesPlayed);
      linkSpeed.RestoreNow(probe);
    }
  }
}
