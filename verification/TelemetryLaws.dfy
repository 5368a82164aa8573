/** The totals depend on the samples alone, never on how they were batched. */
module TelemetryLaws {
  import opened Common
  import opened Sums
  import opened Downsampling
  import opened QualityGrade
  import opened Telemetry

  /** A sample, the frames it stands for and its verdict against the budget of the batch that brought it. */
  datatype Rated = Rated(sample: Sample, frames: int, late: bool)

  function RateOne(s: Sample, targetFps: int): Rated {
    Rated(s, Frames(s), IsLate(s, targetFps))
  }

  function Rate(samples: seq<Sample>, targetFps: int): (r: seq<Rated>)
    ensures |r| == |samples|
  {
    seq(|samples|, i requires 0 <= i < |samples| => RateOne(samples[i], targetFps))
  }

  /** Every sample of the session so far, in order of arrival. */
  function History(batches: seq<Batch>): seq<Rated> {
    if batches == [] then []
    else
      var last := batches[|batches| - 1];
      History(batches[..|batches| - 1]) + Rate(last.samples, last.targetFps)
  }

  /** The target rate of the last batch that brought anything. */
  function LastRate(batches: seq<Batch>): int {
    if batches == [] then 0
    else
      var last := batches[|batches| - 1];
      if last.samples != [] then last.targetFps else LastRate(batches[..|batches| - 1])
  }

  predicate HasRtt(r: Rated) { r.sample.rttAvg > 0.0 }
  predicate HasHostLatency(r: Rated) { r.sample.hostLatencyAvg > 0.0 }
  predicate MissedBudget(r: Rated) { HasHostLatency(r) && r.late }

  function FpsAvg(r: Rated): real { r.sample.fpsAvg }
  function FpsMin(r: Rated): int { r.sample.fpsMin }
  function RttAvg(r: Rated): real { r.sample.rttAvg }
  function RttMax(r: Rated): real { r.sample.rttMax }
  function JitterAvg(r: Rated): real { r.sample.jitterAvg }
  function JitterMax(r: Rated): real { r.sample.jitterMax }
  function DecodeMs(r: Rated): real { r.sample.decodeMs }
  function Bitrate(r: Rated): real { r.sample.bitrateMbps }
  function HostAvg(r: Rated): real { r.sample.hostLatencyAvg }
  function HostMax(r: Rated): real { r.sample.hostLatencyMax }
  function Drops(r: Rated): real { r.sample.drops as real }

  function TotalFrames(h: seq<Rated>): int {
    if h == [] then 0 else TotalFrames(h[..|h| - 1]) + h[|h| - 1].frames
  }

  function TotalDrops(h: seq<Rated>): int {
    if h == [] then 0 else TotalDrops(h[..|h| - 1]) + h[|h| - 1].sample.drops
  }

  function FramesOf(h: seq<Rated>, frames: int, drops: int): FrameTotals {
    FrameTotals(Map(FpsAvg, h), Map(FpsMin, h), Map(DecodeMs, h), Map(Bitrate, h),
                Map(Drops, h), Map(Bitrate, h), Map(DecodeMs, h), frames, drops)
  }

  function RttOf(timed: seq<Rated>): RttTotals {
    RttTotals(Map(RttAvg, timed), Map(RttMax, timed), Map(JitterAvg, timed), Map(JitterMax, timed),
              Map(RttAvg, timed))
  }

  function HostOf(reported: seq<Rated>, late: nat): HostTotals {
    HostTotals(Map(HostAvg, reported), Map(HostMax, reported), Map(HostAvg, reported), |reported|, late)
  }

  /** The totals of a whole history at once. */
  function Gathered(h: seq<Rated>, targetFps: int): Totals {
    Totals(FramesOf(h, TotalFrames(h), TotalDrops(h)),
           RttOf(Filter(h, HasRtt)),
           HostOf(Filter(h, HasHostLatency), |Filter(h, MissedBudget)|),
           targetFps)
  }

  lemma MapSnoc<T, U>(f: T -> U, s: seq<T>, x: T)
    ensures Map(f, s + [x]) == Map(f, s) + [f(x)]
  {
  }

  lemma FilterOneMore<T>(s: seq<T>, p: T -> bool, x: T)
    ensures Filter(s + [x], p) == if p(x) then Filter(s, p) + [x] else Filter(s, p)
  {
    FilterConcat(s, [x], p);
    assert Filter([x], p) == if p(x) then [x] else [];
  }

  function Kept(s: seq<Rated>, keep: bool, x: Rated): seq<Rated> {
    if keep then s + [x] else s
  }

  /** One sample more, list by list. */
  lemma ListsOneMore(h: seq<Rated>, frames: int, drops: int, timed: seq<Rated>, reported: seq<Rated>, late: nat,
                     fps: int, x: Rated)
    ensures Add(Totals(FramesOf(h, frames, drops), RttOf(timed), HostOf(reported, late), fps),
                x.sample, x.frames, x.late)
      == Totals(FramesOf(h + [x], frames + x.frames, drops + x.sample.drops), RttOf(Kept(timed, HasRtt(x), x)),
                HostOf(Kept(reported, HasHostLatency(x), x), if MissedBudget(x) then late + 1 else late), fps)
  {
    FramesOneMore(h, frames, drops, x);
    RttOneMore(timed, x);
    HostOneMore(reported, late, x);
  }

  lemma GatherOneMore(h: seq<Rated>, x: Rated, fps: int)
    ensures Add(Gathered(h, fps), x.sample, x.frames, x.late) == Gathered(h + [x], fps)
  {
    ListsOneMore(h, TotalFrames(h), TotalDrops(h), Filter(h, HasRtt), Filter(h, HasHostLatency),
                 |Filter(h, MissedBudget)|, fps, x);
    CountersOneMore(h, x);
    FiltersOneMore(h, x);
  }

  lemma FiltersOneMore(h: seq<Rated>, x: Rated)
    ensures Filter(h + [x], HasRtt) == Kept(Filter(h, HasRtt), HasRtt(x), x)
    ensures Filter(h + [x], HasHostLatency) == Kept(Filter(h, HasHostLatency), HasHostLatency(x), x)
    ensures |Filter(h + [x], MissedBudget)| == |Filter(h, MissedBudget)| + if MissedBudget(x) then 1 else 0
  {
    FilterOneMore(h, HasRtt, x);
    FilterOneMore(h, HasHostLatency, x);
    FilterOneMore(h, MissedBudget, x);
  }

  lemma CountersOneMore(h: seq<Rated>, x: Rated)
    ensures TotalFrames(h + [x]) == TotalFrames(h) + x.frames
    ensures TotalDrops(h + [x]) == TotalDrops(h) + x.sample.drops
  {
    assert (h + [x])[..|h|] == h;
  }

  lemma FramesOneMore(h: seq<Rated>, frames: int, drops: int, x: Rated)
    ensures AddFrames(FramesOf(h, frames, drops), x.sample, x.frames)
      == FramesOf(h + [x], frames + x.frames, drops + x.sample.drops)
  {
    MapSnoc(FpsAvg, h, x);
    MapSnoc(FpsMin, h, x);
    MapSnoc(DecodeMs, h, x);
    MapSnoc(Bitrate, h, x);
    MapSnoc(Drops, h, x);
  }

  lemma RttOneMore(h: seq<Rated>, x: Rated)
    ensures AddRoundTrip(RttOf(h), x.sample) == RttOf(h + [x])
  {
    MapSnoc(RttAvg, h, x);
    MapSnoc(RttMax, h, x);
    MapSnoc(JitterAvg, h, x);
    MapSnoc(JitterMax, h, x);
  }

  lemma HostOneMore(h: seq<Rated>, late: nat, x: Rated)
    ensures AddHostLatency(HostOf(h, late), x.sample, x.late)
      == HostOf(h + [x], if x.late then late + 1 else late)
  {
    MapSnoc(HostAvg, h, x);
    MapSnoc(HostMax, h, x);
  }

  lemma RateConcat(a: seq<Sample>, b: seq<Sample>, fps: int)
    ensures Rate(a + b, fps) == Rate(a, fps) + Rate(b, fps)
  {
  }

  lemma RateOneMore(h: seq<Rated>, samples: seq<Sample>, fps: int)
    requires samples != []
    ensures var front, last := samples[..|samples| - 1], samples[|samples| - 1];
      h + Rate(samples, fps) == h + Rate(front, fps) + [RateOne(last, fps)]
  {
    assert samples == samples[..|samples| - 1] + [samples[|samples| - 1]];
    RateConcat(samples[..|samples| - 1], [samples[|samples| - 1]], fps);
  }

  lemma {:induction false} GatherSamples(h: seq<Rated>, samples: seq<Sample>, fps: int, all: seq<Rated>)
    requires all == h + Rate(samples, fps)
    ensures AddSamples(Gathered(h, fps), samples, fps) == Gathered(all, fps)
    decreases |samples|
  {
    if samples == [] {
      assert all == h;
    } else {
      var front, last := samples[..|samples| - 1], samples[|samples| - 1];
      var before := h + Rate(front, fps);
      GatherSamples(h, front, fps, before);
      GatherOneMore(before, RateOne(last, fps), fps);
      RateOneMore(h, samples, fps);
    }
  }

  /** Batch by batch or all at once: the totals are those of the history. */
  lemma {:induction false} IncrementalIsWholeHistory(batches: seq<Batch>)
    ensures AddBatches(EMPTY, batches) == Gathered(History(batches), LastRate(batches))
  {
    if batches != [] {
      var front, last := batches[..|batches| - 1], batches[|batches| - 1];
      IncrementalIsWholeHistory(front);
      if last.samples == [] {
        assert History(front) + Rate(last.samples, last.targetFps) == History(front);
      } else {
        GatherSamples(History(front), last.samples, last.targetFps, History(batches));
      }
    }
  }

  function AllSamples(batches: seq<Batch>): seq<Sample> {
    if batches == [] then []
    else AllSamples(batches[..|batches| - 1]) + batches[|batches| - 1].samples
  }

  predicate AtRate(batches: seq<Batch>, fps: int) {
    forall i | 0 <= i < |batches| :: batches[i].targetFps == fps
  }

  lemma {:induction false} HistoryAtRate(batches: seq<Batch>, fps: int)
    requires AtRate(batches, fps)
    ensures History(batches) == Rate(AllSamples(batches), fps)
    ensures LastRate(batches) == if AllSamples(batches) == [] then 0 else fps
  {
    if batches != [] {
      var front := batches[..|batches| - 1];
      HistoryAtRate(front, fps);
      RateConcat(AllSamples(front), batches[|batches| - 1].samples, fps);
    }
  }

  /** At one target rate, any two batchings of the same samples end in the same totals and report. */
  lemma BatchingDoesNotMatter(a: seq<Batch>, b: seq<Batch>, fps: int)
    requires AtRate(a, fps) && AtRate(b, fps) && AllSamples(a) == AllSamples(b)
    ensures AddBatches(EMPTY, a) == AddBatches(EMPTY, b)
    ensures Finalize(AddBatches(EMPTY, a)) == Finalize(AddBatches(EMPTY, b))
  {
    IncrementalIsWholeHistory(a);
    IncrementalIsWholeHistory(b);
    HistoryAtRate(a, fps);
    HistoryAtRate(b, fps);
  }

  // What the figures mean

  /** A sample stands for the frames it speaks of, dropped ones included, rounded down, and for one at least. */
  lemma FramesAreRoundedDown(s: Sample)
    ensures var spoken := s.fpsAvg + (s.drops as real);
      if spoken >= 1.0 then (Frames(s) as real) <= spoken < (Frames(s) as real) + 1.0 else Frames(s) == 1
  {
  }

  /** The rate a batch is judged by: its own, or 60 Hz when it reported none. */
  function RateOf(fps: int): real {
    if fps > 0 then fps as real else 60.0
  }

  /** A sample is late when its worst frame took more than two frame periods of its batch's rate. */
  lemma LateIff(s: Sample, fps: int, rate: real)
    requires rate == RateOf(fps)
    ensures IsLate(s, fps) <==> s.hostLatencyMax * rate > 2000.0
  {
    PeriodTimesRate(fps);
    LateAtRate(s, fps, rate, FramePeriodMs(fps) * 2.0);
  }

  lemma LateAtRate(s: Sample, fps: int, rate: real, budget: real)
    requires rate > 0.0 && FramePeriodMs(fps) * rate == 1000.0 && budget == FramePeriodMs(fps) * 2.0
    ensures IsLate(s, fps) <==> s.hostLatencyMax * rate > 2000.0
  {
    Doubled(FramePeriodMs(fps), rate);
    LongerThan(s.hostLatencyMax, budget, rate, 2000.0);
  }

  lemma Doubled(x: real, n: real)
    ensures (x * 2.0) * n == 2.0 * (x * n)
  {
  }

  lemma LongerThan(x: real, y: real, n: real, target: real)
    requires n > 0.0 && y * n == target
    ensures x > y <==> x * n > target
  {
    Cancel(x, n, y);
  }

  /** `avg` is the mean of the figures, or the fallback when there are none. */
  ghost predicate IsMean(avg: real, figures: seq<real>, otherwise: real) {
    if figures == [] then avg == otherwise else avg * (|figures| as real) == Sum(figures)
  }

  /** `top` is the greatest of the figures, or the fallback when there are none. */
  ghost predicate IsTop(top: real, figures: seq<real>, otherwise: real) {
    if figures == [] then top == otherwise else top in figures && forall i | 0 <= i < |figures| :: figures[i] <= top
  }

  /** `low` is the lowest frame rate of the samples, or zero when there are none. */
  ghost predicate IsLeast(low: int, h: seq<Rated>) {
    if h == [] then low == 0
    else (exists r | r in h :: r.sample.fpsMin == low) && forall r | r in h :: low <= r.sample.fpsMin
  }

  /** `share` is what `part` is of `whole`, in percent, or the fallback when the whole is not positive. */
  ghost predicate IsShare(share: real, part: int, whole: int, otherwise: real) {
    if whole > 0 then share * (whole as real) == 100.0 * (part as real) else share == otherwise
  }

  lemma MeanIs(figures: seq<real>, otherwise: real)
    ensures IsMean(AverageOr(figures, otherwise), figures, otherwise)
  {
    if figures != [] {
      QuotientTimes(Sum(figures), |figures| as real);
    }
  }

  lemma ShareIs(part: int, whole: int, otherwise: real)
    ensures IsShare(Percentage(part, whole, otherwise), part, whole, otherwise)
  {
    if whole > 0 {
      var q, w := (part as real) / (whole as real), whole as real;
      QuotientTimes(part as real, w);
      assert q * 100.0 * w == 100.0 * (q * w);
    }
  }

  /** The samples of a history with a round-trip estimate, and those with a host latency. */
  function Timed(h: seq<Rated>): seq<Rated> {
    Filter(h, HasRtt)
  }

  function Reporting(h: seq<Rated>): seq<Rated> {
    Filter(h, HasHostLatency)
  }

  /** Every statistic of a report, said of the history it is about. */
  ghost predicate Describes(s: Stats, h: seq<Rated>) {
    && s.sampleCount == |h|
    && IsMean(s.fpsAvg, Map(FpsAvg, h), 0.0) && IsMean(s.decodeAvgMs, Map(DecodeMs, h), 0.0)
    && IsMean(s.bitrateAvgMbps, Map(Bitrate, h), 0.0)
    && IsLeast(s.fpsMin, h)
    && s.totalDrops == TotalDrops(h) && IsShare(s.dropRatePct, TotalDrops(h), TotalFrames(h), 0.0)
    && IsMean(s.rttAvgMs, Map(RttAvg, Timed(h)), 0.0) && IsTop(s.rttMaxMs, Map(RttMax, Timed(h)), 0.0)
    && IsMean(s.jitterAvgMs, Map(JitterAvg, Timed(h)), 0.0) && IsTop(s.jitterMaxMs, Map(JitterMax, Timed(h)), 0.0)
    && IsMean(s.hostLatencyAvgMs, Map(HostAvg, Reporting(h)), -1.0)
    && IsTop(s.hostLatencyMaxMs, Map(HostMax, Reporting(h)), -1.0)
    && IsShare(s.hostLatencyOverBudgetPct, |Filter(h, MissedBudget)|, |Reporting(h)|, -1.0)
  }

  /** After any batches every statistic is what its name says, over the samples it is about. */
  lemma StatisticsMeanWhatTheySay(batches: seq<Batch>)
    ensures Describes(Finalize(AddBatches(EMPTY, batches)).stats, History(batches))
  {
    var h := History(batches);
    IncrementalIsWholeHistory(batches);
    GatheredDescribes(h, LastRate(batches));
  }

  lemma GatheredDescribes(h: seq<Rated>, fps: int)
    ensures Describes(Finalize(Gathered(h, fps)).stats, h)
  {
    FrameFigures(h);
    LatencyFigures(Timed(h), Reporting(h), |Filter(h, MissedBudget)|);
  }

  lemma FrameFigures(h: seq<Rated>)
    ensures var f := FramesOf(h, TotalFrames(h), TotalDrops(h));
      && IsMean(AverageOr(f.fpsAvg, 0.0), Map(FpsAvg, h), 0.0)
      && IsMean(AverageOr(f.decode, 0.0), Map(DecodeMs, h), 0.0)
      && IsMean(AverageOr(f.bitrate, 0.0), Map(Bitrate, h), 0.0)
      && IsShare(Percentage(f.totalDrops, f.totalFrames, 0.0), TotalDrops(h), TotalFrames(h), 0.0)
      && IsLeast(MinIntOr(f.fpsMin, 0), h)
  {
    MeanIs(Map(FpsAvg, h), 0.0);
    MeanIs(Map(DecodeMs, h), 0.0);
    MeanIs(Map(Bitrate, h), 0.0);
    ShareIs(TotalDrops(h), TotalFrames(h), 0.0);
    if h != [] {
      var mins, low := Map(FpsMin, h), MinIntOr(Map(FpsMin, h), 0);
      var i :| 0 <= i < |mins| && mins[i] == low;
      assert h[i] in h && h[i].sample.fpsMin == low;
      forall r | r in h ensures low <= r.sample.fpsMin {
        var k :| 0 <= k < |h| && h[k] == r;
        assert mins[k] == r.sample.fpsMin;
      }
    }
  }

  lemma LatencyFigures(timed: seq<Rated>, reporting: seq<Rated>, late: nat)
    ensures var r, host := RttOf(timed), HostOf(reporting, late);
      && IsMean(AverageOr(r.rttAvg, 0.0), Map(RttAvg, timed), 0.0)
      && IsTop(MaxOr(r.rttMax, 0.0), Map(RttMax, timed), 0.0)
      && IsMean(AverageOr(r.jitterAvg, 0.0), Map(JitterAvg, timed), 0.0)
      && IsTop(MaxOr(r.jitterMax, 0.0), Map(JitterMax, timed), 0.0)
      && IsMean(AverageOr(host.latencyAvg, -1.0), Map(HostAvg, reporting), -1.0)
      && IsTop(MaxOr(host.latencyMax, -1.0), Map(HostMax, reporting), -1.0)
      && IsShare(Percentage(host.late, host.rated, -1.0), late, |reporting|, -1.0)
  {
    MeanIs(Map(RttAvg, timed), 0.0);
    MeanIs(Map(JitterAvg, timed), 0.0);
    MeanIs(Map(HostAvg, reporting), -1.0);
    ShareIs(late, |reporting|, -1.0);
  }

  /** The five series are the samples' own figures in order, each reduced to 600 points. */
  lemma SeriesAreTheSamples(batches: seq<Batch>)
    ensures var report, h := Finalize(AddBatches(EMPTY, batches)), History(batches);
      && report.rttSeries == Downsample(Map(RttAvg, Timed(h)), 600)
      && report.dropsSeries == Downsample(Map(Drops, h), 600)
      && report.bitrateSeries == Downsample(Map(Bitrate, h), 600)
      && report.decodeSeries == Downsample(Map(DecodeMs, h), 600)
      && report.hostLatencySeries == Downsample(Map(HostAvg, Reporting(h)), 600)
  {
    IncrementalIsWholeHistory(batches);
  }

  // The shares are percentages

  predicate NonNegative(s: Sample) {
    s.fpsAvg >= 0.0 && s.drops >= 0
  }

  predicate Counted(h: seq<Rated>) {
    forall i | 0 <= i < |h| :: h[i].frames >= 1 && (NonNegative(h[i].sample) ==> h[i].frames >= h[i].sample.drops)
  }

  lemma {:induction false} HistoryIsCounted(batches: seq<Batch>)
    ensures Counted(History(batches))
  {
    if batches != [] {
      HistoryIsCounted(batches[..|batches| - 1]);
    }
  }

  lemma {:induction false} DropsWithinFrames(h: seq<Rated>)
    requires Counted(h) && forall i | 0 <= i < |h| :: NonNegative(h[i].sample)
    ensures |h| <= TotalFrames(h) && 0 <= TotalDrops(h) <= TotalFrames(h)
  {
    if h != [] {
      DropsWithinFrames(h[..|h| - 1]);
    }
  }

  lemma {:induction false} MissedAreReported(h: seq<Rated>)
    ensures |Filter(h, MissedBudget)| <= |Filter(h, HasHostLatency)|
  {
    if h != [] {
      MissedAreReported(h[1..]);
    }
  }

  lemma ShareIsAPercentage(part: int, whole: int, otherwise: real)
    requires 0 <= part <= whole
    ensures whole > 0 ==> 0.0 <= Percentage(part, whole, otherwise) <= 100.0
  {
    if whole > 0 {
      QuotientBounds(part as real, whole as real, 0.0, 1.0);
    }
  }

  /** Over every session the drop rate is a percentage, and so is the late share when anything was reported. */
  lemma RatesArePercentages(batches: seq<Batch>)
    ensures var stats := Finalize(AddBatches(EMPTY, batches)).stats;
      var h := History(batches);
      && stats.sampleCount == |h|
      && ((forall i | 0 <= i < |h| :: NonNegative(h[i].sample)) ==> 0.0 <= stats.dropRatePct <= 100.0)
      && (stats.hostLatencyOverBudgetPct == -1.0 <==> forall r | r in h :: !HasHostLatency(r))
      && (stats.hostLatencyOverBudgetPct != -1.0 ==> 0.0 <= stats.hostLatencyOverBudgetPct <= 100.0)
  {
    var h := History(batches);
    IncrementalIsWholeHistory(batches);
    HistoryIsCounted(batches);
    if forall i | 0 <= i < |h| :: NonNegative(h[i].sample) {
      DropsWithinFrames(h);
      ShareIsAPercentage(TotalDrops(h), TotalFrames(h), 0.0);
    }
    MissedAreReported(h);
    ShareIsAPercentage(|Filter(h, MissedBudget)|, |Filter(h, HasHostLatency)|, -1.0);
    NothingReported(h);
  }

  lemma {:induction false} NothingReported(h: seq<Rated>)
    ensures Filter(h, HasHostLatency) == [] <==> forall r | r in h :: !HasHostLatency(r)
  {
    if h != [] {
      NothingReported(h[1..]);
      assert h == [h[0]] + h[1..];
    }
  }

  function ToGrade(s: Stats): Graded {
    Graded(s.sampleCount, s.dropRatePct, s.rttAvgMs, s.rttMaxMs,
           s.hostLatencyAvgMs, s.hostLatencyMaxMs, s.hostLatencyOverBudgetPct)
  }

  /** A client that never reports host latency is graded on its drops and round trips alone. */
  lemma UnreportedLatencyIsNotGraded(batches: seq<Batch>, fps: int)
    requires forall r | r in History(batches) :: !HasHostLatency(r)
    ensures var s := ToGrade(Finalize(AddBatches(EMPTY, batches)).stats);
      Evaluate(s, fps) == if s.sampleCount < 2 then NoData else Worse(GradeDrop(s), GradeRtt(s))
  {
    var h := History(batches);
    StatisticsMeanWhatTheySay(batches);
    FilterNone(h, HasHostLatency);
    GradedWithoutLatency(Finalize(AddBatches(EMPTY, batches)).stats, h, fps);
  }

  lemma GradedWithoutLatency(stats: Stats, h: seq<Rated>, fps: int)
    requires Describes(stats, h) && Reporting(h) == []
    ensures var s := ToGrade(stats);
      Evaluate(s, fps) == if s.sampleCount < 2 then NoData else Worse(GradeDrop(s), GradeRtt(s))
  {
    NothingToDescribe(stats, h);
    UnreportedIsHigh(ToGrade(stats), FramePeriodMs(fps));
  }

  lemma NothingToDescribe(s: Stats, h: seq<Rated>)
    requires Describes(s, h) && Reporting(h) == []
    ensures s.hostLatencyAvgMs == -1.0 && s.hostLatencyMaxMs == -1.0 && s.hostLatencyOverBudgetPct == -1.0
  {
  }

  lemma UnreportedIsHigh(s: Graded, period: real)
    requires period > 0.0 && s.hostLatencyAvgMs < 0.0 && s.hostLatencyMaxMs < 0.0 && s.hostLatencyOverBudgetPct < 0.0
    ensures GradeHostLatency(s, period) == High && GradeLate(s) == High
  {
  }
}
