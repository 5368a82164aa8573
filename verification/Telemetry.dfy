/**
 * What a session's telemetry adds up to. The accumulator grows a dozen lists and counters batch by
 * batch; `Gathered` says the same of the whole history at once.
 */
module Telemetry {
  import opened Sums
  import opened Downsampling
  import opened QualityGrade

  datatype Sample = Sample(
    fpsAvg: real,
    fpsMin: int,
    drops: int,
    rttAvg: real,
    rttMax: real,
    jitterAvg: real,
    jitterMax: real,
    decodeMs: real,
    bitrateMbps: real,
    hostLatencyAvg: real,
    hostLatencyMax: real)

  datatype Batch = Batch(targetFps: int, samples: seq<Sample>)

  /** What is held of every sample. */
  datatype FrameTotals = FrameTotals(
    fpsAvg: seq<real>,
    fpsMin: seq<int>,
    decode: seq<real>,
    bitrate: seq<real>,
    dropsSeries: seq<real>,
    bitrateSeries: seq<real>,
    decodeSeries: seq<real>,
    totalFrames: int,
    totalDrops: int)

  /** What is held of the samples with a round-trip estimate. */
  datatype RttTotals = RttTotals(
    rttAvg: seq<real>,
    rttMax: seq<real>,
    jitterAvg: seq<real>,
    jitterMax: seq<real>,
    series: seq<real>)

  /** What is held of the samples with a host latency. */
  datatype HostTotals = HostTotals(
    latencyAvg: seq<real>,
    latencyMax: seq<real>,
    series: seq<real>,
    rated: nat,
    late: nat)

  /** Everything the accumulator holds. */
  datatype Totals = Totals(frames: FrameTotals, rtt: RttTotals, host: HostTotals, targetFps: int)

  const NO_FRAMES := FrameTotals([], [], [], [], [], [], [], 0, 0)
  const NO_RTT := RttTotals([], [], [], [], [])
  const NO_HOST := HostTotals([], [], [], 0, 0)
  const EMPTY := Totals(NO_FRAMES, NO_RTT, NO_HOST, 0)

  datatype Stats = Stats(
    sampleCount: nat,
    fpsAvg: real,
    fpsMin: int,
    totalDrops: int,
    dropRatePct: real,
    rttAvgMs: real,
    rttMaxMs: real,
    jitterAvgMs: real,
    jitterMaxMs: real,
    decodeAvgMs: real,
    bitrateAvgMbps: real,
    hostLatencyAvgMs: real,
    hostLatencyMaxMs: real,
    hostLatencyOverBudgetPct: real)

  datatype Report = Report(
    stats: Stats,
    rttSeries: seq<real>,
    dropsSeries: seq<real>,
    bitrateSeries: seq<real>,
    decodeSeries: seq<real>,
    hostLatencySeries: seq<real>)

  const MAX_SERIES_POINTS: nat := 600

  // What one sample says

  function IsLate(s: Sample, targetFps: int): bool {
    s.hostLatencyMax > FramePeriodMs(targetFps) * LATE_FRAME_MULTIPLIER
  }

  /** The frames a sample stands for: those received, drawn or dropped, and at least one. */
  function Frames(s: Sample): (n: int)
    ensures n >= 1
    ensures s.fpsAvg >= 0.0 ==> n >= s.drops
  {
    var received := s.fpsAvg + (s.drops as real);
    (if received > 1.0 then received else 1.0).Floor
  }

  // Growing the totals

  function AddFrames(t: FrameTotals, s: Sample, frames: int): FrameTotals {
    FrameTotals(
      t.fpsAvg + [s.fpsAvg], t.fpsMin + [s.fpsMin], t.decode + [s.decodeMs], t.bitrate + [s.bitrateMbps],
      t.dropsSeries + [s.drops as real], t.bitrateSeries + [s.bitrateMbps], t.decodeSeries + [s.decodeMs],
      t.totalFrames + frames, t.totalDrops + s.drops)
  }

  function AddRoundTrip(t: RttTotals, s: Sample): RttTotals {
    RttTotals(t.rttAvg + [s.rttAvg], t.rttMax + [s.rttMax],
              t.jitterAvg + [s.jitterAvg], t.jitterMax + [s.jitterMax], t.series + [s.rttAvg])
  }

  function AddHostLatency(t: HostTotals, s: Sample, late: bool): HostTotals {
    HostTotals(t.latencyAvg + [s.hostLatencyAvg], t.latencyMax + [s.hostLatencyMax], t.series + [s.hostLatencyAvg],
               t.rated + 1, if late then t.late + 1 else t.late)
  }

  /** One sample more, standing for `frames` frames; `late` if it exceeded the budget of its own batch. */
  function Add(t: Totals, s: Sample, frames: int, late: bool): Totals {
    Totals(
      AddFrames(t.frames, s, frames),
      if s.rttAvg > 0.0 then AddRoundTrip(t.rtt, s) else t.rtt,
      if s.hostLatencyAvg > 0.0 then AddHostLatency(t.host, s, late) else t.host,
      t.targetFps)
  }

  function AddSamples(t: Totals, samples: seq<Sample>, targetFps: int): Totals
    decreases |samples|
  {
    if samples == [] then t
    else
      var last := samples[|samples| - 1];
      Add(AddSamples(t, samples[..|samples| - 1], targetFps), last, Frames(last), IsLate(last, targetFps))
  }

  function AddBatch(t: Totals, batch: Batch): Totals {
    if batch.samples == [] then t
    else AddSamples(t.(targetFps := batch.targetFps), batch.samples, batch.targetFps)
  }

  function AddBatches(t: Totals, batches: seq<Batch>): Totals
    decreases |batches|
  {
    if batches == [] then t
    else AddBatch(AddBatches(t, batches[..|batches| - 1]), batches[|batches| - 1])
  }

  // Reading them out

  function AverageOr(s: seq<real>, otherwise: real): real {
    if s == [] then otherwise else Average(s)
  }

  function MaxOr(s: seq<real>, otherwise: real): real {
    if s == [] then otherwise else Max(s)
  }

  function MinIntOr(s: seq<int>, otherwise: int): (m: int)
    ensures if s == [] then m == otherwise else m in s && forall i | 0 <= i < |s| :: m <= s[i]
    decreases |s|
  {
    if s == [] then otherwise
    else
      assert s == s[..|s| - 1] + [s[|s| - 1]];
      var front := MinIntOr(s[..|s| - 1], s[|s| - 1]);
      if s[|s| - 1] < front then s[|s| - 1] else front
  }

  function Percentage(part: int, whole: int, otherwise: real): real {
    if whole > 0 then (part as real) / (whole as real) * 100.0 else otherwise
  }

  function StatsOf(frames: FrameTotals, rtt: RttTotals, host: HostTotals): Stats {
    Stats(
      |frames.fpsAvg|,
      AverageOr(frames.fpsAvg, 0.0),
      MinIntOr(frames.fpsMin, 0),
      frames.totalDrops,
      Percentage(frames.totalDrops, frames.totalFrames, 0.0),
      AverageOr(rtt.rttAvg, 0.0),
      MaxOr(rtt.rttMax, 0.0),
      AverageOr(rtt.jitterAvg, 0.0),
      MaxOr(rtt.jitterMax, 0.0),
      AverageOr(frames.decode, 0.0),
      AverageOr(frames.bitrate, 0.0),
      AverageOr(host.latencyAvg, -1.0),
      MaxOr(host.latencyMax, -1.0),
      Percentage(host.late, host.rated, -1.0))
  }

  function Finalize(t: Totals): Report {
    Report(
      StatsOf(t.frames, t.rtt, t.host),
      Downsample(t.rtt.series, MAX_SERIES_POINTS),
      Downsample(t.frames.dropsSeries, MAX_SERIES_POINTS),
      Downsample(t.frames.bitrateSeries, MAX_SERIES_POINTS),
      Downsample(t.frames.decodeSeries, MAX_SERIES_POINTS),
      Downsample(t.host.series, MAX_SERIES_POINTS))
  }
}
