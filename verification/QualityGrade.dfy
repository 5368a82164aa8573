/** Grading a session from its aggregated statistics. Grades worsen as their rank grows. */
module QualityGrade {
  import opened Sums

  datatype Grade = NoData | High | Medium | Low

  datatype Graded = Graded(
    sampleCount: nat,
    dropRatePct: real,
    rttAvgMs: real,
    rttMaxMs: real,
    hostLatencyAvgMs: real,
    hostLatencyMaxMs: real,
    hostLatencyOverBudgetPct: real)

  const LATE_FRAME_MULTIPLIER := 2.0

  function FramePeriodMs(targetFps: int): (r: real)
    ensures r > 0.0
  {
    var fps := (if targetFps > 0 then targetFps else 60) as real;
    PeriodIsPositive(fps);
    1000.0 / fps
  }

  lemma PeriodIsPositive(fps: real)
    requires fps > 0.0
    ensures 1000.0 / fps > 0.0
  {
  }

  function Rank(g: Grade): nat {
    match g
    case NoData => 0
    case High => 1
    case Medium => 2
    case Low => 3
  }

  function Worse(a: Grade, b: Grade): Grade {
    if Rank(a) >= Rank(b) then a else b
  }

  function Demoted(g: Grade): Grade {
    match g
    case NoData => High
    case High => Medium
    case Medium => Low
    case Low => Low
  }

  function GradeDrop(s: Graded): Grade {
    if s.dropRatePct < 1.0 then High else if s.dropRatePct <= 2.0 then Medium else Low
  }

  function GradeRtt(s: Graded): Grade {
    var g := if s.rttAvgMs < 25.0 then High else if s.rttAvgMs <= 60.0 then Medium else Low;
    if s.rttMaxMs > 200.0 then Demoted(g) else g
  }

  function GradeHostLatency(s: Graded, frameMs: real): Grade {
    var g :=
      if s.hostLatencyAvgMs < 0.0 then High
      else if s.hostLatencyAvgMs < frameMs * 0.6 then High
      else if s.hostLatencyAvgMs <= frameMs then Medium
      else Low;
    if s.hostLatencyMaxMs > frameMs * 2.5 && s.hostLatencyOverBudgetPct >= 1.0 then Demoted(g) else g
  }

  function GradeLate(s: Graded): Grade {
    if s.hostLatencyOverBudgetPct < 0.0 then High
    else if s.hostLatencyOverBudgetPct < 1.0 then High
    else if s.hostLatencyOverBudgetPct <= 5.0 then Medium
    else Low
  }

  function Evaluate(s: Graded, targetFps: int): Grade {
    if s.sampleCount < 2 then NoData
    else
      Worse(Worse(GradeDrop(s), GradeRtt(s)),
            Worse(GradeHostLatency(s, FramePeriodMs(targetFps)), GradeLate(s)))
  }

  /** The frame budget: one frame of the target rate, in milliseconds; 60 Hz when there is no rate. */
  lemma PeriodTimesRate(fps: int)
    ensures fps > 0 ==> FramePeriodMs(fps) * (fps as real) == 1000.0
    ensures fps <= 0 ==> FramePeriodMs(fps) * 60.0 == 1000.0
  {
    QuotientTimes(1000.0, (if fps > 0 then fps else 60) as real);
  }

  lemma PeriodShrinks(fps: int, faster: int)
    requires 0 < fps <= faster
    ensures FramePeriodMs(faster) <= FramePeriodMs(fps)
  {
    var a, b := fps as real, faster as real;
    var p, q := FramePeriodMs(fps), FramePeriodMs(faster);
    QuotientTimes(1000.0, a);
    QuotientTimes(1000.0, b);
    assert p * a <= p * b;
    Cancel(q, b, p);
  }

  /** No statistic of `b` is better than that of `a`. The sentinel -1 counts as the best. */
  predicate NoBetter(a: Graded, b: Graded) {
    && a.dropRatePct <= b.dropRatePct
    && a.rttAvgMs <= b.rttAvgMs && a.rttMaxMs <= b.rttMaxMs
    && a.hostLatencyAvgMs <= b.hostLatencyAvgMs && a.hostLatencyMaxMs <= b.hostLatencyMaxMs
    && a.hostLatencyOverBudgetPct <= b.hostLatencyOverBudgetPct
  }

  /** The rate is the same, or is positive and higher. */
  predicate AsDemanding(fps: int, fps': int) {
    fps == fps' || 0 < fps <= fps'
  }

  /** The grade is monotone: worse numbers, or a faster target, never earn a better grade. */
  lemma GradeIsMonotone(a: Graded, b: Graded, fps: int, fps': int)
    requires a.sampleCount >= 2 && b.sampleCount >= 2 && NoBetter(a, b) && AsDemanding(fps, fps')
    ensures Rank(Evaluate(a, fps)) <= Rank(Evaluate(b, fps'))
  {
    if fps != fps' {
      PeriodShrinks(fps, fps');
    }
    HostGradeIsMonotone(a, b, FramePeriodMs(fps), FramePeriodMs(fps'));
  }

  lemma HostGradeIsMonotone(a: Graded, b: Graded, period: real, shorter: real)
    requires NoBetter(a, b) && 0.0 < shorter <= period
    ensures Rank(GradeHostLatency(a, period)) <= Rank(GradeHostLatency(b, shorter))
  {
  }

  /** The grade a session gets is set by its worst criterion, and NoData is only for too few samples. */
  lemma GradeIsTheWorstCriterion(s: Graded, fps: int)
    ensures Evaluate(s, fps) == NoData <==> s.sampleCount < 2
    ensures s.sampleCount >= 2 ==>
      var criteria := {GradeDrop(s), GradeRtt(s), GradeHostLatency(s, FramePeriodMs(fps)), GradeLate(s)};
      Evaluate(s, fps) in criteria && forall g | g in criteria :: Rank(g) <= Rank(Evaluate(s, fps))
  {
  }

  /**
   * What earns the best grade. The host-latency spike plays no part in it: a spike counts only
   * when one sample in a hundred is late, and then the late share has already cost the grade.
   */
  lemma HighIff(s: Graded, fps: int)
    ensures Evaluate(s, fps) == High <==>
      && s.sampleCount >= 2 && s.dropRatePct < 1.0 && s.rttAvgMs < 25.0 && s.rttMaxMs <= 200.0
      && s.hostLatencyAvgMs < FramePeriodMs(fps) * 0.6 && s.hostLatencyOverBudgetPct < 1.0
  {
    CriteriaAreHighIff(s, FramePeriodMs(fps));
  }

  lemma CriteriaAreHighIff(s: Graded, period: real)
    requires period > 0.0
    ensures GradeRtt(s) == High <==> s.rttAvgMs < 25.0 && s.rttMaxMs <= 200.0
    ensures GradeHostLatency(s, period) == GradeLate(s) == High <==>
      s.hostLatencyAvgMs < period * 0.6 && s.hostLatencyOverBudgetPct < 1.0
  {
  }

  /** What condemns a session: any one criterion far out, or a spike on top of a middling average. */
  lemma LowIff(s: Graded, fps: int)
    ensures Evaluate(s, fps) == Low <==>
      && s.sampleCount >= 2
      && (|| s.dropRatePct > 2.0
          || s.rttAvgMs > 60.0 || (s.rttAvgMs >= 25.0 && s.rttMaxMs > 200.0)
          || s.hostLatencyAvgMs > FramePeriodMs(fps)
          || (s.hostLatencyAvgMs >= FramePeriodMs(fps) * 0.6 && s.hostLatencyMaxMs > FramePeriodMs(fps) * 2.5
              && s.hostLatencyOverBudgetPct >= 1.0)
          || s.hostLatencyOverBudgetPct > 5.0)
  {
    HostLatencyIsLowIff(s, FramePeriodMs(fps));
  }

  lemma HostLatencyIsLowIff(s: Graded, period: real)
    requires period > 0.0
    ensures GradeHostLatency(s, period) == Low <==>
      || s.hostLatencyAvgMs > period
      || (s.hostLatencyAvgMs >= period * 0.6 && s.hostLatencyMaxMs > period * 2.5 && s.hostLatencyOverBudgetPct >= 1.0)
  {
  }
}
