/** The host's own load figures, taken once per batch that brings anything. A negative figure was not available. */
module HostMetrics {
  import opened Common
  import opened Sums
  import opened Downsampling
  import opened Telemetry

  datatype HostSample = HostSample(gpu: int, gpuEnc: int, gpuTemp: int, cpu: int, netTxMbps: int)

  datatype MetricTotals = MetricTotals(
    gpu: seq<int>,
    gpuEnc: seq<int>,
    gpuTemp: seq<int>,
    cpu: seq<int>,
    netTx: seq<int>)

  const NO_METRICS := MetricTotals([], [], [], [], [])

  datatype HostStats = HostStats(
    gpuAvg: int,
    gpuPeak: int,
    gpuEncAvg: int,
    gpuEncPeak: int,
    gpuTempAvg: int,
    gpuTempMax: int,
    cpuAvg: int,
    cpuPeak: int,
    netTxAvg: int)

  datatype HostSeries = HostSeries(gpu: seq<real>, enc: seq<real>, cpu: seq<real>)

  /** A batch and the host's figures at the moment it arrived. */
  datatype Delivery = Delivery(batch: Batch, host: HostSample)

  predicate Available(v: int) {
    v >= 0
  }

  function Recorded(s: seq<int>, v: int): seq<int> {
    if Available(v) then s + [v] else s
  }

  function AddMetrics(t: MetricTotals, host: HostSample): MetricTotals {
    MetricTotals(Recorded(t.gpu, host.gpu), Recorded(t.gpuEnc, host.gpuEnc), Recorded(t.gpuTemp, host.gpuTemp),
                 Recorded(t.cpu, host.cpu), Recorded(t.netTx, host.netTxMbps))
  }

  function AddDelivery(t: MetricTotals, d: Delivery): MetricTotals {
    if d.batch.samples == [] then t else AddMetrics(t, d.host)
  }

  function AddDeliveries(t: MetricTotals, ds: seq<Delivery>): MetricTotals
    decreases |ds|
  {
    if ds == [] then t else AddDelivery(AddDeliveries(t, ds[..|ds| - 1]), ds[|ds| - 1])
  }

  function MaxIntOr(s: seq<int>, otherwise: int): (m: int)
    ensures if s == [] then m == otherwise else m in s && forall i | 0 <= i < |s| :: s[i] <= m
    decreases |s|
  {
    if s == [] then otherwise
    else
      assert s == s[..|s| - 1] + [s[|s| - 1]];
      var front := MaxIntOr(s[..|s| - 1], s[|s| - 1]);
      if s[|s| - 1] > front then s[|s| - 1] else front
  }

  function ToReal(v: int): real {
    v as real
  }

  /** The truncated average. The figures are never negative, so truncation is the floor. */
  function TruncatedAverageOr(s: seq<int>, otherwise: int): int {
    if s == [] then otherwise else Average(Map(ToReal, s)).Floor
  }

  function FinalizeHost(t: MetricTotals): HostStats {
    HostStats(
      TruncatedAverageOr(t.gpu, -1), MaxIntOr(t.gpu, -1),
      TruncatedAverageOr(t.gpuEnc, -1), MaxIntOr(t.gpuEnc, -1),
      TruncatedAverageOr(t.gpuTemp, -1), MaxIntOr(t.gpuTemp, -1),
      TruncatedAverageOr(t.cpu, -1), MaxIntOr(t.cpu, -1),
      TruncatedAverageOr(t.netTx, -1))
  }

  function SeriesOf(t: MetricTotals): HostSeries {
    HostSeries(Downsample(Map(ToReal, t.gpu), MAX_SERIES_POINTS),
               Downsample(Map(ToReal, t.gpuEnc), MAX_SERIES_POINTS),
               Downsample(Map(ToReal, t.cpu), MAX_SERIES_POINTS))
  }

  // ── The whole history at once ───────────────────────────────────────────────

  predicate BringsSamples(d: Delivery) {
    d.batch.samples != []
  }

  function Gpu(d: Delivery): int { d.host.gpu }
  function GpuEnc(d: Delivery): int { d.host.gpuEnc }
  function GpuTemp(d: Delivery): int { d.host.gpuTemp }
  function Cpu(d: Delivery): int { d.host.cpu }
  function NetTx(d: Delivery): int { d.host.netTxMbps }

  /** The available figures of one metric, one per delivery that brought samples. */
  function Figures(ds: seq<Delivery>, metric: Delivery -> int): seq<int> {
    Filter(Map(metric, Filter(ds, BringsSamples)), Available)
  }

  /** A figure is kept when a batch with samples brought it and it is not negative: an idle host counts. */
  lemma FiguresIff(ds: seq<Delivery>, metric: Delivery -> int, v: int)
    ensures v in Figures(ds, metric) <==> v >= 0 && exists d | d in ds :: d.batch.samples != [] && metric(d) == v
  {
    var kept := Filter(ds, BringsSamples);
    FilterHasAll(ds, BringsSamples);
    FilterHasAll(Map(metric, kept), Available);
    if v in Map(metric, kept) {
      var i :| 0 <= i < |kept| && Map(metric, kept)[i] == v;
      assert kept[i] in kept;
    }
    forall d | d in ds && d.batch.samples != [] && metric(d) == v ensures v in Map(metric, kept) {
      assert d in kept;
      var i :| 0 <= i < |kept| && kept[i] == d;
      assert Map(metric, kept)[i] == v;
    }
  }

  lemma FiguresOneMore(front: seq<Delivery>, d: Delivery, metric: Delivery -> int)
    ensures Figures(front + [d], metric)
      == if BringsSamples(d) then Recorded(Figures(front, metric), metric(d)) else Figures(front, metric)
  {
    var kept := Filter(front, BringsSamples);
    FilterConcat(front, [d], BringsSamples);
    assert Filter([d], BringsSamples) == if BringsSamples(d) then [d] else [];
    if BringsSamples(d) {
      assert Map(metric, kept + [d]) == Map(metric, kept) + [metric(d)];
      FilterConcat(Map(metric, kept), [metric(d)], Available);
    } else {
      assert kept + [] == kept;
    }
  }

  /** Each list is the available figures of its metric over the deliveries that brought samples. */
  lemma {:induction false} MetricsAreWholeHistory(ds: seq<Delivery>)
    ensures AddDeliveries(NO_METRICS, ds) == MetricTotals(
      Figures(ds, Gpu), Figures(ds, GpuEnc), Figures(ds, GpuTemp), Figures(ds, Cpu), Figures(ds, NetTx))
  {
    if ds != [] {
      var front, d := ds[..|ds| - 1], ds[|ds| - 1];
      MetricsAreWholeHistory(front);
      assert ds == front + [d];
      FiguresOneMore(front, d, Gpu);
      FiguresOneMore(front, d, GpuEnc);
      FiguresOneMore(front, d, GpuTemp);
      FiguresOneMore(front, d, Cpu);
      FiguresOneMore(front, d, NetTx);
    }
  }

  /** An average of available figures lies between zero and their peak; -1 stands for none at all. */
  lemma AverageUnderPeak(s: seq<int>)
    requires forall v | v in s :: Available(v)
    ensures TruncatedAverageOr(s, -1) == -1 <==> s == []
    ensures MaxIntOr(s, -1) == -1 <==> s == []
    ensures s != [] ==> 0 <= TruncatedAverageOr(s, -1) <= MaxIntOr(s, -1)
  {
    if s != [] {
      var peak := MaxIntOr(s, -1);
      assert forall i | 0 <= i < |s| :: s[i] in s;
      AverageWithin(Map(ToReal, s), 0.0, peak as real);
    }
  }

  /** Over every session, each host figure is absent exactly when its peak is, and never above it. */
  lemma HostFiguresAreConsistent(ds: seq<Delivery>)
    ensures var stats := FinalizeHost(AddDeliveries(NO_METRICS, ds));
      && (stats.gpuAvg == -1 <==> stats.gpuPeak == -1) && -1 <= stats.gpuAvg <= stats.gpuPeak
      && (stats.gpuEncAvg == -1 <==> stats.gpuEncPeak == -1) && -1 <= stats.gpuEncAvg <= stats.gpuEncPeak
      && (stats.gpuTempAvg == -1 <==> stats.gpuTempMax == -1) && -1 <= stats.gpuTempAvg <= stats.gpuTempMax
      && (stats.cpuAvg == -1 <==> stats.cpuPeak == -1) && -1 <= stats.cpuAvg <= stats.cpuPeak
      && -1 <= stats.netTxAvg
  {
    MetricsAreWholeHistory(ds);
    AverageUnderPeak(Figures(ds, Gpu));
    AverageUnderPeak(Figures(ds, GpuEnc));
    AverageUnderPeak(Figures(ds, GpuTemp));
    AverageUnderPeak(Figures(ds, Cpu));
    AverageUnderPeak(Figures(ds, NetTx));
  }

  /** `avg` is the mean rounded down and `peak` the greatest of the figures; both are -1 without any. */
  ghost predicate Summarises(avg: int, peak: int, figures: seq<int>) {
    if figures == [] then avg == -1 && peak == -1
    else
      && peak in figures && (forall i | 0 <= i < |figures| :: figures[i] <= peak)
      && RoundedMean(avg, figures)
  }

  ghost predicate RoundedMean(avg: int, figures: seq<int>)
    requires figures != []
  {
    var n := |figures| as real;
    (avg as real) * n <= Sum(Map(ToReal, figures)) < ((avg + 1) as real) * n
  }

  lemma FiguresAreSummarised(figures: seq<int>)
    ensures Summarises(TruncatedAverageOr(figures, -1), MaxIntOr(figures, -1), figures)
  {
    if figures != [] {
      MeanIsRounded(Sum(Map(ToReal, figures)), |figures| as real);
    }
  }

  lemma MeanIsRounded(x: real, n: real)
    requires n > 0.0
    ensures var avg := (x / n).Floor; (avg as real) * n <= x < ((avg + 1) as real) * n
  {
    var q := x / n;
    QuotientTimes(x, n);
    Between(x, n, q, q.Floor as real, (q.Floor + 1) as real);
  }

  lemma Between(x: real, n: real, q: real, low: real, high: real)
    requires n > 0.0 && q * n == x && low <= q < high
    ensures low * n <= x < high * n
  {
    assert (q - low) * n == x - low * n;
    assert (high - q) * n == high * n - x;
    assert (high - q) * n > 0.0;
  }

  /** After any batches each host statistic is the rounded mean, or the peak, of its own metric. */
  lemma HostStatisticsMeanWhatTheySay(ds: seq<Delivery>)
    ensures var stats := FinalizeHost(AddDeliveries(NO_METRICS, ds));
      && Summarises(stats.gpuAvg, stats.gpuPeak, Figures(ds, Gpu))
      && Summarises(stats.gpuEncAvg, stats.gpuEncPeak, Figures(ds, GpuEnc))
      && Summarises(stats.gpuTempAvg, stats.gpuTempMax, Figures(ds, GpuTemp))
      && Summarises(stats.cpuAvg, stats.cpuPeak, Figures(ds, Cpu))
      && Summarises(stats.netTxAvg, MaxIntOr(Figures(ds, NetTx), -1), Figures(ds, NetTx))
  {
    MetricsAreWholeHistory(ds);
    FiguresAreSummarised(Figures(ds, Gpu));
    FiguresAreSummarised(Figures(ds, GpuEnc));
    FiguresAreSummarised(Figures(ds, GpuTemp));
    FiguresAreSummarised(Figures(ds, Cpu));
    FiguresAreSummarised(Figures(ds, NetTx));
  }

  /** The three series are the available figures of their own metric in order, each reduced to 600 points. */
  lemma HostSeriesAreTheFigures(ds: seq<Delivery>)
    ensures var series := SeriesOf(AddDeliveries(NO_METRICS, ds));
      && series.gpu == Downsample(Map(ToReal, Figures(ds, Gpu)), 600)
      && series.enc == Downsample(Map(ToReal, Figures(ds, GpuEnc)), 600)
      && series.cpu == Downsample(Map(ToReal, Figures(ds, Cpu)), 600)
  {
    MetricsAreWholeHistory(ds);
  }
}
