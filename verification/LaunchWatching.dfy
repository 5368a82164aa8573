/**
 * The launch watcher: how one timestamp and one sticky flag decide what the client is told, and
 * the proof that they stand for the whole history of observations of the launch. Times are in
 * milliseconds; a sample is one tick's view of the desktop and of the process table.
 */
module LaunchWatching {
  import opened Common

  datatype Phase = Idle | Launching | GameWindow | Ready | NeedsAttention | Timeout | NotApplicable

  /** The best window of the target on screen. */
  datatype Sighting = Nothing | SomeWindow | FullScreen

  datatype Sample = Sample(now: int, sighting: Sighting, foreign: bool, isNew: bool, running: bool)

  const READY_TIMEOUT_MS := 90_000
  const FOREIGN_FOREGROUND_MS := 20_000
  const NEW_WINDOW_FOREGROUND_MS := 10_000
  const PROCESS_SCAN_EVERY_TICKS := 4
  const POLL_INTERVAL_MS := 250

  datatype Watcher = Watcher(
    phase: Phase,
    launchedAt: Option<int>,
    foreignSince: Option<int>,
    foregroundIsNew: bool,
    targetProcessSeen: bool,
    scanTick: nat,
    sampling: bool)

  /** What the launch resolved to. Only a resolved target is watched. */
  datatype LaunchKind = Desktop | BattleNet | Unresolved | Target

  function OnAppLaunched(kind: LaunchKind, now: int): Watcher {
    if kind == Target then Watcher(Launching, Some(now), None, false, false, 0, true)
    else Watcher(NotApplicable, Some(now), None, false, false, 0, false)
  }

  /** A launch armed after the disconnect was seen belongs to the next session and is kept. */
  function OnSessionEnded(w: Watcher, stopDetected: Option<int>): Watcher {
    if stopDetected.Some? && w.launchedAt.Some? && w.launchedAt.value > stopDetected.value then w
    else w.(phase := Idle, launchedAt := None, targetProcessSeen := false, sampling := false)
  }

  predicate Dormant(w: Watcher) {
    w.phase == Idle || w.phase == NotApplicable
  }

  /** Whether the process table is read on this tick. */
  predicate ScanDue(w: Watcher) {
    !w.targetProcessSeen && !Dormant(w) && w.scanTick + 1 >= PROCESS_SCAN_EVERY_TICKS
  }

  function ObserveTargetProcess(w: Watcher, running: bool): bool {
    w.targetProcessSeen || (ScanDue(w) && running)
  }

  function ScanTickAfter(w: Watcher): nat {
    if w.targetProcessSeen || Dormant(w) then w.scanTick
    else if ScanDue(w) then 0
    else w.scanTick + 1
  }

  function ForegroundLimit(isNew: bool): int {
    if isNew then NEW_WINDOW_FOREGROUND_MS else FOREIGN_FOREGROUND_MS
  }

  /** The foreground rule, with nothing of the target on screen. */
  function WatchForeground(w: Watcher, s: Sample): Watcher {
    if !s.foreign || w.targetProcessSeen then w.(foreignSince := None)
    else if w.foreignSince.None? then w.(foreignSince := Some(s.now), foregroundIsNew := s.isNew)
    else if s.now - w.foreignSince.value >= ForegroundLimit(w.foregroundIsNew) then w.(phase := NeedsAttention)
    else w
  }

  function GiveUp(w: Watcher, now: int): Watcher
    requires w.launchedAt.Some?
  {
    if now - w.launchedAt.value >= READY_TIMEOUT_MS then w.(phase := Timeout, sampling := false) else w
  }

  function Tick(w: Watcher, s: Sample): Watcher
    requires w.launchedAt.Some?
  {
    var scanned := w.(scanTick := ScanTickAfter(w));
    if Dormant(w) then scanned
    else
      match s.sighting
      case FullScreen => scanned.(phase := Ready, sampling := false)
      case SomeWindow => scanned.(phase := GameWindow, foreignSince := None)
      case Nothing =>
        var noticed :=
          if ObserveTargetProcess(w, s.running) && !w.targetProcessSeen
          then scanned.(targetProcessSeen := true, foreignSince := None)
          else scanned;
        GiveUp(WatchForeground(noticed, s), s.now)
  }

  // ── The history behind the fields ───────────────────────────────────────────

  /** The watcher after the ticks of one launch. */
  function Watch(launchedAt: int, ticks: seq<Sample>): (w: Watcher)
    ensures w.launchedAt == Some(launchedAt) && !Dormant(w)
  {
    if ticks == [] then OnAppLaunched(Target, launchedAt)
    else Tick(Watch(launchedAt, ticks[..|ticks| - 1]), ticks[|ticks| - 1])
  }

  /** A run of ticks: each one while still sampling, on a clock that never goes back. */
  predicate ValidRun(launchedAt: int, ticks: seq<Sample>) {
    ticks == [] ||
    var front := ticks[..|ticks| - 1];
    && ValidRun(launchedAt, front)
    && Watch(launchedAt, front).sampling
    && (if front == [] then launchedAt else front[|front| - 1].now) <= ticks[|ticks| - 1].now
  }

  /** The scan of tick `i` was due and found the target's process, with nothing of it on screen. */
  predicate FoundAt(ticks: seq<Sample>, i: nat)
    requires i < |ticks|
  {
    i % PROCESS_SCAN_EVERY_TICKS == PROCESS_SCAN_EVERY_TICKS - 1 && ticks[i].running && ticks[i].sighting == Nothing
  }

  predicate SeenBy(ticks: seq<Sample>, k: nat)
    requires k < |ticks|
  {
    exists i: nat | i <= k :: FoundAt(ticks, i)
  }

  /** Tick `k` saw somebody else on screen, no window of the target, and no process so far. */
  predicate Waiting(ticks: seq<Sample>, k: nat)
    requires k < |ticks|
  {
    ticks[k].sighting == Nothing && ticks[k].foreign && !SeenBy(ticks, k)
  }

  /** Where the unbroken run of waiting ticks ending at `k` begins. */
  function RunStart(ticks: seq<Sample>, k: nat): (j: nat)
    requires k < |ticks| && Waiting(ticks, k)
    ensures IsRun(ticks, j, k)
  {
    if k > 0 && Waiting(ticks, k - 1) then RunStart(ticks, k - 1) else k
  }

  /** The ticks from `j` to `k` all wait, and the one before `j`, if any, did not. */
  predicate IsRun(ticks: seq<Sample>, j: nat, k: nat)
    requires k < |ticks|
  {
    j <= k && (forall i | j <= i <= k :: Waiting(ticks, i)) && (j == 0 || !Waiting(ticks, j - 1))
  }

  /** Only one tick can be the start of the run that ends at `k`. */
  lemma {:induction false} OneRunStart(ticks: seq<Sample>, j: nat, k: nat)
    requires k < |ticks| && IsRun(ticks, j, k)
    ensures Waiting(ticks, k) && RunStart(ticks, k) == j
  {
    assert Waiting(ticks, k);
    if j < k {
      assert Waiting(ticks, k - 1);
      OneRunStart(ticks, j, k - 1);
    }
  }

  lemma SeenByPrefix(ticks: seq<Sample>, n: nat, k: nat)
    requires k < n <= |ticks|
    ensures SeenBy(ticks[..n], k) == SeenBy(ticks, k)
  {
    if SeenBy(ticks, k) {
      var i: nat :| i <= k && FoundAt(ticks, i);
      assert FoundAt(ticks[..n], i);
    }
    if SeenBy(ticks[..n], k) {
      var i: nat :| i <= k && FoundAt(ticks[..n], i);
      assert FoundAt(ticks, i);
    }
  }

  lemma {:induction false} RunStartPrefix(ticks: seq<Sample>, n: nat, k: nat)
    requires k < n <= |ticks|
    ensures Waiting(ticks[..n], k) == Waiting(ticks, k)
    ensures Waiting(ticks, k) ==> RunStart(ticks[..n], k) == RunStart(ticks, k)
  {
    SeenByPrefix(ticks, n, k);
    if k > 0 {
      RunStartPrefix(ticks, n, k - 1);
    }
  }

  lemma SeenByStep(ticks: seq<Sample>, k: nat)
    requires k < |ticks|
    ensures SeenBy(ticks, k) <==> (k > 0 && SeenBy(ticks, k - 1)) || FoundAt(ticks, k)
  {
    if k > 0 && SeenBy(ticks, k - 1) {
      var i: nat :| i <= k - 1 && FoundAt(ticks, i);
    }
  }

  /** What the sticky flag and the scan counter must be, read off the history alone. */
  ghost predicate SeenReflects(w: Watcher, ticks: seq<Sample>) {
    && w.targetProcessSeen == (ticks != [] && SeenBy(ticks, |ticks| - 1))
    && (!w.targetProcessSeen ==> w.scanTick == |ticks| % PROCESS_SCAN_EVERY_TICKS)
  }

  /** What the "since" must be, read off the history alone. */
  ghost predicate SinceReflects(w: Watcher, ticks: seq<Sample>) {
    if ticks != [] && Waiting(ticks, |ticks| - 1)
    then var start := ticks[RunStart(ticks, |ticks| - 1)];
      w.foreignSince == Some(start.now) && w.foregroundIsNew == start.isNew
    else w.foreignSince == None
  }

  lemma SeenStep(w: Watcher, ticks: seq<Sample>)
    requires ticks != [] && w.launchedAt.Some? && !Dormant(w) && ticks[|ticks| - 1].sighting != FullScreen
    requires SeenReflects(w, ticks[..|ticks| - 1])
    ensures SeenReflects(Tick(w, ticks[|ticks| - 1]), ticks)
  {
    var n := |ticks|;
    SeenByStep(ticks, n - 1);
    if n > 1 {
      SeenByPrefix(ticks, n - 1, n - 2);
    }
  }

  lemma SinceStep(w: Watcher, ticks: seq<Sample>)
    requires ticks != [] && w.launchedAt.Some? && !Dormant(w) && ticks[|ticks| - 1].sighting != FullScreen
    requires SeenReflects(w, ticks[..|ticks| - 1]) && SinceReflects(w, ticks[..|ticks| - 1])
    ensures SinceReflects(Tick(w, ticks[|ticks| - 1]), ticks)
  {
    var n := |ticks|;
    SeenStep(w, ticks);
    if n > 1 {
      RunStartPrefix(ticks, n - 1, n - 2);
      SeenByPrefix(ticks, n - 1, n - 2);
    }
    SeenByStep(ticks, n - 1);
  }

  lemma SampledSoFar(launchedAt: int, ticks: seq<Sample>)
    requires ValidRun(launchedAt, ticks) && Watch(launchedAt, ticks).sampling && ticks != []
    ensures ticks[|ticks| - 1].sighting != FullScreen
  {
  }

  /** The fields stand for the history: the "since" is when the current run of waiting ticks began. */
  lemma {:induction false} FieldsReflectHistory(launchedAt: int, ticks: seq<Sample>)
    requires ValidRun(launchedAt, ticks) && (ticks == [] || ticks[|ticks| - 1].sighting != FullScreen)
    ensures SeenReflects(Watch(launchedAt, ticks), ticks) && SinceReflects(Watch(launchedAt, ticks), ticks)
  {
    if ticks != [] {
      var front := ticks[..|ticks| - 1];
      if front != [] {
        SampledSoFar(launchedAt, front);
      }
      FieldsReflectHistory(launchedAt, front);
      SeenStep(Watch(launchedAt, front), ticks);
      SinceStep(Watch(launchedAt, front), ticks);
    }
  }

  /** The ticks from `j` to the last all wait, for ten seconds or twenty as the first of them dictates. */
  ghost predicate LongWaitFrom(ticks: seq<Sample>, j: nat)
    requires j < |ticks|
  {
    var limit := if ticks[j].isNew then 10_000 else 20_000;
    IsRun(ticks, j, |ticks| - 1) && ticks[|ticks| - 1].now - ticks[j].now >= limit
  }

  /** The foreground rule has something to say: the run ending here began long enough ago. */
  ghost predicate LongWait(ticks: seq<Sample>) {
    exists j: nat | j < |ticks| :: LongWaitFrom(ticks, j)
  }

  lemma LongWaitFromItsStart(ticks: seq<Sample>, j: nat)
    requires j < |ticks| && LongWaitFrom(ticks, j)
    ensures LongSoFar(ticks)
  {
    OneRunStart(ticks, j, |ticks| - 1);
  }

  lemma LongWaitIsRunStart(ticks: seq<Sample>)
    requires ticks != []
    ensures LongWait(ticks) <==> LongSoFar(ticks)
  {
    var n := |ticks|;
    if LongWait(ticks) {
      var j: nat :| j < n && LongWaitFrom(ticks, j);
      LongWaitFromItsStart(ticks, j);
    } else if Waiting(ticks, n - 1) {
      assert !LongWaitFrom(ticks, RunStart(ticks, n - 1));
    }
  }

  /**
   * When the host is said to need attention. At any tick of any launch, from any other phase: the
   * phase becomes NeedsAttention if and only if every tick of the unbroken run ending here saw a
   * foreign foreground, no target window and no target process so far, the run has lasted ten or
   * twenty seconds as its first observation dictates, and the launch is not yet out of time.
   */
  lemma AttentionIff(launchedAt: int, ticks: seq<Sample>)
    requires ValidRun(launchedAt, ticks) && ticks != []
    requires Watch(launchedAt, ticks[..|ticks| - 1]).phase != NeedsAttention
    ensures Watch(launchedAt, ticks).phase == NeedsAttention <==>
      LongWait(ticks) && ticks[|ticks| - 1].now - launchedAt < 90_000
  {
    var n := |ticks|;
    var front := ticks[..n - 1];
    if front != [] {
      SampledSoFar(launchedAt, front);
    }
    FieldsReflectHistory(launchedAt, front);
    LongWaitIsRunStart(ticks);
    RuleFiresIff(Watch(launchedAt, front), ticks);
  }

  /** The run of waiting ticks that a tick ends begins where the one before it began, or here. */
  lemma RunStartStep(ticks: seq<Sample>)
    requires ticks != [] && Waiting(ticks, |ticks| - 1)
    ensures var n, front := |ticks|, ticks[..|ticks| - 1];
      RunStart(ticks, n - 1) == if n > 1 && Waiting(front, n - 2) then RunStart(front, n - 2) else n - 1
  {
    if |ticks| > 1 {
      RunStartPrefix(ticks, |ticks| - 1, |ticks| - 2);
    }
  }

  /** The foreground rule on one tick, when the wait so far began at `start`. */
  lemma TickDecides(w: Watcher, s: Sample, wasWaiting: bool, start: Sample)
    requires w.launchedAt.Some? && !Dormant(w) && s.sighting == Nothing
    requires s.now - w.launchedAt.value < READY_TIMEOUT_MS
    requires if wasWaiting then w.foreignSince == Some(start.now) && w.foregroundIsNew == start.isNew
             else w.foreignSince == None && start == s
    ensures var long := s.foreign && !Tick(w, s).targetProcessSeen && s.now - start.now >= ForegroundLimit(start.isNew);
      Tick(w, s).phase == if long then NeedsAttention else w.phase
  {
  }

  /** This tick ends a wait that began long enough ago. */
  predicate LongSoFar(ticks: seq<Sample>)
    requires ticks != []
  {
    var n := |ticks|;
    && Waiting(ticks, n - 1)
    && var start := ticks[RunStart(ticks, n - 1)]; ticks[n - 1].now - start.now >= ForegroundLimit(start.isNew)
  }

  lemma ForegroundDecides(w: Watcher, ticks: seq<Sample>)
    requires ticks != [] && w.launchedAt.Some? && !Dormant(w) && ticks[|ticks| - 1].sighting == Nothing
    requires SeenReflects(w, ticks[..|ticks| - 1]) && SinceReflects(w, ticks[..|ticks| - 1])
    requires ticks[|ticks| - 1].now - w.launchedAt.value < READY_TIMEOUT_MS
    ensures Tick(w, ticks[|ticks| - 1]).phase == if LongSoFar(ticks) then NeedsAttention else w.phase
  {
    var n, front, s := |ticks|, ticks[..|ticks| - 1], ticks[|ticks| - 1];
    SeenStep(w, ticks);
    var wasWaiting := n > 1 && Waiting(front, n - 2);
    TickDecides(w, s, wasWaiting, if wasWaiting then front[RunStart(front, n - 2)] else s);
    if Waiting(ticks, n - 1) {
      RunStartStep(ticks);
    }
  }

  lemma RuleFiresIff(w: Watcher, ticks: seq<Sample>)
    requires ticks != [] && w.launchedAt.Some? && !Dormant(w) && w.phase != NeedsAttention
    requires SeenReflects(w, ticks[..|ticks| - 1]) && SinceReflects(w, ticks[..|ticks| - 1])
    ensures var n := |ticks|;
      Tick(w, ticks[n - 1]).phase == NeedsAttention <==>
        LongSoFar(ticks) && ticks[n - 1].now - w.launchedAt.value < READY_TIMEOUT_MS
  {
    var s := ticks[|ticks| - 1];
    if s.sighting == Nothing && s.now - w.launchedAt.value < READY_TIMEOUT_MS {
      ForegroundDecides(w, ticks);
    }
  }

  /** Once the process has been seen the host is never newly said to need attention. */
  lemma NoAttentionOnceSeen(launchedAt: int, ticks: seq<Sample>, k: nat)
    requires ValidRun(launchedAt, ticks) && k < |ticks| && SeenBy(ticks, k)
    requires Watch(launchedAt, ticks[..|ticks| - 1]).phase != NeedsAttention
    ensures Watch(launchedAt, ticks).phase != NeedsAttention
  {
    AttentionIff(launchedAt, ticks);
    LongWaitIsRunStart(ticks);
    var i: nat :| i <= k && FoundAt(ticks, i);
    assert SeenBy(ticks, |ticks| - 1);
  }

  lemma RunningProcessIsFound(ticks: seq<Sample>, k: nat)
    requires k + PROCESS_SCAN_EVERY_TICKS <= |ticks|
    requires forall i | k <= i < k + PROCESS_SCAN_EVERY_TICKS :: ticks[i].running && ticks[i].sighting == Nothing
    ensures SeenBy(ticks, |ticks| - 1)
  {
    var due := k + (PROCESS_SCAN_EVERY_TICKS - 1 - k % PROCESS_SCAN_EVERY_TICKS);
    assert FoundAt(ticks, due);
  }

  /**
   * A process that keeps running for four ticks with nothing of it on screen is noticed, and
   * whatever is observed afterwards, it stays noticed.
   */
  lemma RunningProcessIsNoticed(launchedAt: int, ticks: seq<Sample>, k: nat)
    requires ValidRun(launchedAt, ticks) && k + PROCESS_SCAN_EVERY_TICKS <= |ticks|
    requires forall i | k <= i < k + PROCESS_SCAN_EVERY_TICKS :: ticks[i].running && ticks[i].sighting == Nothing
    ensures Watch(launchedAt, ticks).targetProcessSeen
  {
    var front, last := ticks[..|ticks| - 1], ticks[|ticks| - 1];
    if last.sighting == FullScreen {
      SampledSoFar(launchedAt, front);
      FieldsReflectHistory(launchedAt, front);
      RunningProcessIsFound(front, k);
    } else {
      FieldsReflectHistory(launchedAt, ticks);
      RunningProcessIsFound(ticks, k);
    }
  }

  /**
   * What a scan is worth. The process table is read on every fourth tick until it has answered
   * yes; and a scan that finds the process is remembered if and only if nothing of the target is
   * on screen at that very tick.
   */
  lemma ScanIsRememberedIff(launchedAt: int, ticks: seq<Sample>)
    requires ValidRun(launchedAt, ticks) && ticks != []
    ensures var before, s := Watch(launchedAt, ticks[..|ticks| - 1]), ticks[|ticks| - 1];
      && (ScanDue(before) <==>
            !before.targetProcessSeen && |ticks| % PROCESS_SCAN_EVERY_TICKS == 0)
      && (ScanDue(before) && s.running ==>
            (Watch(launchedAt, ticks).targetProcessSeen <==> s.sighting == Nothing))
  {
    var front := ticks[..|ticks| - 1];
    if front != [] {
      SampledSoFar(launchedAt, front);
    }
    FieldsReflectHistory(launchedAt, front);
    ScanTickIs(|front|);
    OneScan(Watch(launchedAt, front), ticks[|ticks| - 1]);
  }

  lemma ScanTickIs(n: nat)
    ensures n % PROCESS_SCAN_EVERY_TICKS == PROCESS_SCAN_EVERY_TICKS - 1 <==> (n + 1) % PROCESS_SCAN_EVERY_TICKS == 0
  {
  }

  lemma OneScan(w: Watcher, s: Sample)
    requires w.launchedAt.Some? && !Dormant(w)
    ensures ScanDue(w) && s.running ==> (Tick(w, s).targetProcessSeen <==> s.sighting == Nothing)
  {
  }

  lemma WatchOneMore(launchedAt: int, front: seq<Sample>, w: Watcher, s: Sample)
    requires ValidRun(launchedAt, front) && Watch(launchedAt, front) == w && w.sampling
    requires (if front == [] then launchedAt else front[|front| - 1].now) <= s.now
    ensures ValidRun(launchedAt, front + [s]) && Watch(launchedAt, front + [s]) == Tick(w, s)
  {
    assert (front + [s])[..|front|] == front;
  }

  // ── A process that runs throughout ──────────────────────────────────────────

  /** Every scan that is made finds the process. */
  predicate RunsThroughout(ticks: seq<Sample>) {
    forall i | 0 <= i < |ticks| :: ticks[i].running
  }

  /** Consecutive ticks are less than `gap` milliseconds apart. */
  predicate Paced(ticks: seq<Sample>, gap: int) {
    forall i | 0 < i < |ticks| :: ticks[i].now - ticks[i - 1].now < gap
  }

  /** A wait that no scan cut short takes three ticks at most. */
  lemma ShortWait(ticks: seq<Sample>, j: nat)
    requires j < |ticks| && IsRun(ticks, j, |ticks| - 1) && RunsThroughout(ticks)
    ensures |ticks| - j <= 3
  {
    if |ticks| - j >= PROCESS_SCAN_EVERY_TICKS {
      assert Waiting(ticks, |ticks| - 1);
      forall i | j <= i < j + PROCESS_SCAN_EVERY_TICKS
        ensures ticks[i].running && ticks[i].sighting == Nothing
      {
        assert Waiting(ticks, i);
      }
      RunningProcessIsFound(ticks, j);
      assert false;
    }
  }

  lemma PacedSpan(ticks: seq<Sample>, j: nat, gap: int)
    requires j < |ticks| <= j + 3 && Paced(ticks, gap) && gap > 0
    ensures ticks[|ticks| - 1].now - ticks[j].now < 2 * gap
  {
    var n := |ticks|;
    if j + 1 < n {
      assert ticks[j + 1].now - ticks[j + 1 - 1].now < gap;
    }
    if j + 2 < n {
      assert ticks[j + 2].now - ticks[j + 2 - 1].now < gap;
    }
  }

  lemma PacedWaitIsShort(ticks: seq<Sample>)
    requires ticks != [] && RunsThroughout(ticks) && Paced(ticks, NEW_WINDOW_FOREGROUND_MS / 2)
    ensures !LongWait(ticks)
  {
    var n := |ticks|;
    forall j: nat | j < n && IsRun(ticks, j, n - 1)
      ensures ticks[n - 1].now - ticks[j].now < ForegroundLimit(ticks[j].isNew)
    {
      ShortWait(ticks, j);
      PacedSpan(ticks, j, NEW_WINDOW_FOREGROUND_MS / 2);
    }
  }

  lemma {:induction false} PacedRunNeverAlarms(launchedAt: int, ticks: seq<Sample>, gap: int)
    requires ValidRun(launchedAt, ticks) && RunsThroughout(ticks)
    requires Paced(ticks, gap) && gap <= NEW_WINDOW_FOREGROUND_MS / 2
    ensures Watch(launchedAt, ticks).phase != NeedsAttention
    decreases |ticks|
  {
    if ticks != [] {
      PacedRunNeverAlarms(launchedAt, ticks[..|ticks| - 1], gap);
      PacedWaitIsShort(ticks);
      AttentionIff(launchedAt, ticks);
    }
  }

  /** Ticks less than `gap` apart never raise the alarm over a process that runs throughout. */
  ghost predicate NoFalseAlarm(gap: int) {
    forall launchedAt, ticks | ValidRun(launchedAt, ticks) && RunsThroughout(ticks) && Paced(ticks, gap) ::
      Watch(launchedAt, ticks).phase != NeedsAttention
  }

  /** Two ticks five seconds apart, between two scans. */
  lemma SlowTicksAlarm(t: int)
    ensures var ticks := [Sample(t, Nothing, true, true, true), Sample(t + 5000, Nothing, true, true, true),
                          Sample(t + 10000, Nothing, true, true, true)];
      ValidRun(t, ticks) && Watch(t, ticks).phase == NeedsAttention
  {
    var l := Some(t);
    var s0, s1, s2 := Sample(t, Nothing, true, true, true), Sample(t + 5000, Nothing, true, true, true),
                      Sample(t + 10000, Nothing, true, true, true);
    WatchOneMore(t, [], Watcher(Launching, l, None, false, false, 0, true), s0);
    WatchOneMore(t, [s0], Watcher(Launching, l, Some(t), true, false, 1, true), s1);
    WatchOneMore(t, [s0] + [s1], Watcher(Launching, l, Some(t), true, false, 2, true), s2);
    assert [s0] + [s1] + [s2] == [s0, s1, s2];
  }

  /**
   * How far the timer may slip. Over every launch whose process runs throughout, the host is never
   * said to need attention if and only if ticks stay less than five seconds apart - whatever else
   * is on screen, windows of the target included.
   */
  lemma NoFalseAlarmIff(gap: int)
    ensures NoFalseAlarm(gap) <==> gap <= 5_000
  {
    if gap <= 5_000 {
      forall launchedAt, ticks | ValidRun(launchedAt, ticks) && RunsThroughout(ticks) && Paced(ticks, gap)
        ensures Watch(launchedAt, ticks).phase != NeedsAttention
      {
        PacedRunNeverAlarms(launchedAt, ticks, gap);
      }
    } else {
      SlowTicksAlarm(0);
      var ticks := [Sample(0, Nothing, true, true, true), Sample(5000, Nothing, true, true, true),
                    Sample(10000, Nothing, true, true, true)];
      assert RunsThroughout(ticks) && Paced(ticks, gap);
    }
  }

  // ── A scan that is forgotten ────────────────────────────────────────────────

  /**
   * Tick `i` of a launch at the timer's own pace. The process runs for the first four ticks, with
   * `sighting` on screen at the fourth; then it is gone and a new foreign window holds the screen.
   */
  function BriefTick(t: int, i: nat, sighting: Sighting): Sample {
    var now := t + (i + 1) * POLL_INTERVAL_MS;
    if i < 3 then Sample(now, Nothing, false, false, true)
    else if i == 3 then Sample(now, sighting, false, false, true)
    else Sample(now, Nothing, true, true, false)
  }

  function BriefRun(t: int, n: nat, sighting: Sighting): (r: seq<Sample>)
    ensures |r| == n
  {
    if n == 0 then [] else BriefRun(t, n - 1, sighting) + [BriefTick(t, n - 1, sighting)]
  }

  /** The watcher after `n` of those ticks, when the fourth saw a window. */
  function ForgetfulWatcher(t: int, n: nat): Watcher {
    var scan := n % PROCESS_SCAN_EVERY_TICKS;
    if n <= 3 then Watcher(Launching, Some(t), None, false, false, scan, true)
    else if n == 4 then Watcher(GameWindow, Some(t), None, false, false, scan, true)
    else
      var phase := if n <= 44 then GameWindow else NeedsAttention;
      Watcher(phase, Some(t), Some(t + 5 * POLL_INTERVAL_MS), true, false, scan, true)
  }

  lemma ForgetfulStep(t: int, i: nat)
    requires i < 45
    ensures Tick(ForgetfulWatcher(t, i), BriefTick(t, i, SomeWindow)) == ForgetfulWatcher(t, i + 1)
  {
  }

  /** One tick more, when it takes the watcher from `w` to `w'`. */
  lemma BriefRunGrows(t: int, n: nat, sighting: Sighting, w: Watcher, w': Watcher)
    requires ValidRun(t, BriefRun(t, n, sighting)) && Watch(t, BriefRun(t, n, sighting)) == w
    requires w.sampling && w.launchedAt.Some? && Tick(w, BriefTick(t, n, sighting)) == w'
    ensures ValidRun(t, BriefRun(t, n + 1, sighting)) && Watch(t, BriefRun(t, n + 1, sighting)) == w'
  {
    assert n > 0 ==> BriefRun(t, n, sighting)[n - 1] == BriefTick(t, n - 1, sighting);
    WatchOneMore(t, BriefRun(t, n, sighting), w, BriefTick(t, n, sighting));
  }

  lemma {:induction false} BriefRunForgets(t: int, n: nat)
    requires n <= 45
    ensures var ticks := BriefRun(t, n, SomeWindow);
      ValidRun(t, ticks) && Watch(t, ticks) == ForgetfulWatcher(t, n)
  {
    if n > 0 {
      BriefRunForgets(t, n - 1);
      ForgetfulStep(t, n - 1);
      BriefRunGrows(t, n - 1, SomeWindow, ForgetfulWatcher(t, n - 1), ForgetfulWatcher(t, n));
    }
  }

  /** The watcher after `n` of those ticks, when the fourth saw nothing. */
  function MindfulWatcher(t: int, n: nat): Watcher {
    if n <= 3 then Watcher(Launching, Some(t), None, false, false, n, true)
    else Watcher(Launching, Some(t), None, false, true, 0, true)
  }

  lemma MindfulStep(t: int, i: nat)
    requires i < 45
    ensures Tick(MindfulWatcher(t, i), BriefTick(t, i, Nothing)) == MindfulWatcher(t, i + 1)
  {
  }

  lemma {:induction false} BriefRunRemembers(t: int, n: nat)
    requires n <= 45
    ensures var ticks := BriefRun(t, n, Nothing);
      ValidRun(t, ticks) && Watch(t, ticks) == MindfulWatcher(t, n)
  {
    if n > 0 {
      BriefRunRemembers(t, n - 1);
      MindfulStep(t, n - 1);
      BriefRunGrows(t, n - 1, Nothing, MindfulWatcher(t, n - 1), MindfulWatcher(t, n));
    }
  }

  /**
   * What forgetting changes, at the timer's own pace of 250 ms. Two launches agree in everything
   * but the fourth tick, whose scan finds the process: with nothing on screen the yes is kept and
   * the foreign window that follows is let be; with a window of the target up it is lost, and ten
   * seconds later the host is said to need attention.
   */
  lemma ForgottenScanRaisesTheAlarm(t: int)
    ensures var kept, lost := BriefRun(t, 45, Nothing), BriefRun(t, 45, SomeWindow);
      && ValidRun(t, kept) && ValidRun(t, lost) && ScanDue(Watch(t, BriefRun(t, 3, SomeWindow)))
      && Watch(t, kept).targetProcessSeen && Watch(t, kept).phase == Launching
      && !Watch(t, lost).targetProcessSeen && Watch(t, lost).phase == NeedsAttention
  {
    BriefRunRemembers(t, 45);
    BriefRunForgets(t, 45);
    BriefRunForgets(t, 3);
  }

  // ── What the client is told ─────────────────────────────────────────────────

  /** Only a launch whose target is known is watched, and every launch starts from a clean slate. */
  lemma OnlyTargetsAreWatched(kind: LaunchKind, now: int)
    ensures var w := OnAppLaunched(kind, now);
      && w.launchedAt == Some(now) && w.foreignSince.None? && !w.targetProcessSeen && w.scanTick == 0
      && (kind.Target? ==> w.phase == Launching && w.sampling)
      && (!kind.Target? ==> w.phase == NotApplicable && !w.sampling)
  {
  }

  /**
   * The phase after a tick. Ready exactly when the target fills the screen, GameWindow when any
   * window of it is up, Timeout exactly when nothing of it is and ninety seconds have passed; else
   * NeedsAttention after a long wait, and otherwise no change.
   */
  lemma PhaseAfterATick(launchedAt: int, ticks: seq<Sample>)
    requires ValidRun(launchedAt, ticks) && ticks != []
    ensures var before, phase := Watch(launchedAt, ticks[..|ticks| - 1]).phase, Watch(launchedAt, ticks).phase;
      var s := ticks[|ticks| - 1];
      && (phase == Ready <==> s.sighting == FullScreen)
      && (s.sighting == SomeWindow ==> phase == GameWindow)
      && (phase == Timeout <==> s.sighting == Nothing && s.now - launchedAt >= 90_000)
      && (s.sighting == Nothing && s.now - launchedAt < 90_000 ==>
            phase == if LongWait(ticks) then NeedsAttention else before)
  {
    var front, s := ticks[..|ticks| - 1], ticks[|ticks| - 1];
    NothingWaitsPastTheDeadline(launchedAt, front);
    TickShows(Watch(launchedAt, front), s);
    if s.sighting == Nothing && s.now - launchedAt < 90_000 {
      PhaseOfAWait(launchedAt, ticks);
    }
  }

  lemma TickShows(w: Watcher, s: Sample)
    requires w.launchedAt.Some? && !Dormant(w) && w.phase != Ready && w.phase != Timeout
    ensures var phase := Tick(w, s).phase;
      && (phase == Ready <==> s.sighting == FullScreen)
      && (s.sighting == SomeWindow ==> phase == GameWindow)
      && (phase == Timeout <==> s.sighting == Nothing && s.now - w.launchedAt.value >= 90_000)
  {
  }

  lemma PhaseOfAWait(launchedAt: int, ticks: seq<Sample>)
    requires ValidRun(launchedAt, ticks) && ticks != [] && ticks[|ticks| - 1].sighting == Nothing
    requires ticks[|ticks| - 1].now - launchedAt < READY_TIMEOUT_MS
    ensures Watch(launchedAt, ticks).phase
      == if LongWait(ticks) then NeedsAttention else Watch(launchedAt, ticks[..|ticks| - 1]).phase
  {
    var front := ticks[..|ticks| - 1];
    if front != [] {
      SampledSoFar(launchedAt, front);
    }
    FieldsReflectHistory(launchedAt, front);
    LongWaitIsRunStart(ticks);
    ForegroundDecides(Watch(launchedAt, front), ticks);
  }

  /** No tick so far saw a window of the target, came too late, or ended a long wait. */
  ghost predicate StillLaunching(launchedAt: int, ticks: seq<Sample>)
    decreases |ticks|
  {
    ticks == [] ||
    var s := ticks[|ticks| - 1];
    && StillLaunching(launchedAt, ticks[..|ticks| - 1])
    && s.sighting == Nothing && s.now - launchedAt < 90_000 && !LongWait(ticks)
  }

  /** The client is told Launching exactly as long as there is nothing else to tell. */
  lemma {:induction false} LaunchingIff(launchedAt: int, ticks: seq<Sample>)
    requires ValidRun(launchedAt, ticks)
    ensures Watch(launchedAt, ticks).phase == Launching <==> StillLaunching(launchedAt, ticks)
    decreases |ticks|
  {
    if ticks != [] {
      LaunchingIff(launchedAt, ticks[..|ticks| - 1]);
      PhaseAfterATick(launchedAt, ticks);
    }
  }

  /**
   * The deadline. No tick processed ninety seconds or more after the launch leaves it waiting, and
   * a launch that is ready or has timed out is no longer sampled.
   */
  lemma {:induction false} NothingWaitsPastTheDeadline(launchedAt: int, ticks: seq<Sample>)
    requires ValidRun(launchedAt, ticks)
    ensures var w := Watch(launchedAt, ticks);
      && (ticks != [] && ticks[|ticks| - 1].now - launchedAt >= 90_000 ==>
            w.phase == Ready || w.phase == GameWindow || w.phase == Timeout)
      && (w.phase == Ready || w.phase == Timeout <==> !w.sampling)
  {
    if ticks != [] {
      NothingWaitsPastTheDeadline(launchedAt, ticks[..|ticks| - 1]);
    }
  }

  /** The end of a session forgets the launch unless it was armed after that session's stop. */
  lemma SessionEndForgetsIff(launchedAt: int, ticks: seq<Sample>, stopDetected: Option<int>)
    requires ValidRun(launchedAt, ticks)
    ensures var w := OnSessionEnded(Watch(launchedAt, ticks), stopDetected);
      && (w == Watch(launchedAt, ticks) <==> stopDetected.Some? && launchedAt > stopDetected.value)
      && (w.phase == Idle <==> stopDetected.None? || launchedAt <= stopDetected.value)
      && (w.phase == Idle ==> !w.sampling && w.launchedAt.None? && !w.targetProcessSeen)
  {
  }
}
