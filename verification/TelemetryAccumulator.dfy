/** The accumulator as an object: every list and counter is a field that the operations update. */
module TelemetryAccumulation {
  import opened Common
  import opened Downsampling
  import opened HostMetrics
  import opened QualityGrade
  import opened Spec = Telemetry

  /** The accumulator's lists of host figures. */
  class HostLists {
    var gpuSamples: seq<int>
    var gpuEncSamples: seq<int>
    var gpuTempSamples: seq<int>
    var cpuSamples: seq<int>
    var netTxSamples: seq<int>

    ghost function Held(): MetricTotals
      reads this
    {
      MetricTotals(gpuSamples, gpuEncSamples, gpuTempSamples, cpuSamples, netTxSamples)
    }

    constructor ()
      ensures Held() == NO_METRICS
    {
      gpuSamples, gpuEncSamples, gpuTempSamples, cpuSamples, netTxSamples := [], [], [], [], [];
    }

    method Clear()
      modifies this
      ensures Held() == NO_METRICS
    {
      gpuSamples, gpuEncSamples, gpuTempSamples, cpuSamples, netTxSamples := [], [], [], [], [];
    }

    /** A snapshot: each figure that was available. */
    method Add(host: HostSample)
      modifies this
      ensures Held() == AddMetrics(old(Held()), host)
    {
      if host.gpu >= 0 { gpuSamples := gpuSamples + [host.gpu]; }
      if host.gpuEnc >= 0 { gpuEncSamples := gpuEncSamples + [host.gpuEnc]; }
      if host.gpuTemp >= 0 { gpuTempSamples := gpuTempSamples + [host.gpuTemp]; }
      if host.cpu >= 0 { cpuSamples := cpuSamples + [host.cpu]; }
      if host.netTxMbps >= 0 { netTxSamples := netTxSamples + [host.netTxMbps]; }
    }

    method Finalize() returns (stats: HostStats)
      ensures stats == FinalizeHost(Held())
    {
      stats := HostStats(
        TruncatedAverageOr(gpuSamples, -1), MaxIntOr(gpuSamples, -1),
        TruncatedAverageOr(gpuEncSamples, -1), MaxIntOr(gpuEncSamples, -1),
        TruncatedAverageOr(gpuTempSamples, -1), MaxIntOr(gpuTempSamples, -1),
        TruncatedAverageOr(cpuSamples, -1), MaxIntOr(cpuSamples, -1),
        TruncatedAverageOr(netTxSamples, -1));
    }

    method GetHostSeries() returns (series: HostSeries)
      ensures series == SeriesOf(Held())
    {
      var gpu := Reduced(gpuSamples);
      var enc := Reduced(gpuEncSamples);
      var cpu := Reduced(cpuSamples);
      series := HostSeries(gpu, enc, cpu);
    }

    static method Reduced(src: seq<int>) returns (r: seq<real>)
      ensures r == Downsample(Map(ToReal, src), MAX_SERIES_POINTS)
    {
      r := [];
      for i := 0 to |src|
        invariant |r| == i && forall k | 0 <= k < i :: r[k] == ToReal(src[k])
      {
        r := r + [src[i] as real];
      }
      assert r == Map(ToReal, src);
      r := RunDownsample(r, MAX_SERIES_POINTS);
    }
  }

  class TelemetryAccumulator {
    const metrics: HostLists
    var fpsAvgSamples: seq<real>
    var fpsMinSamples: seq<int>
    var rttAvgSamples: seq<real>
    var rttMaxSamples: seq<real>
    var jitterSamples: seq<real>
    var jitterMaxSamples: seq<real>
    var decodeSamples: seq<real>
    var bitrateSamples: seq<real>
    var hostLatencyAvgSamples: seq<real>
    var hostLatencyMaxSamples: seq<real>
    var hostLatencyLateSamples: nat
    var hostLatencyRatedSamples: nat
    var rttTimeSeries: seq<real>
    var dropsTimeSeries: seq<real>
    var bitrateTimeSeries: seq<real>
    var decodeTimeSeries: seq<real>
    var hostLatencyTimeSeries: seq<real>
    var targetFps: int
    var totalFrames: int
    var totalDrops: int

    ghost function FramesHeld(): FrameTotals
      reads `fpsAvgSamples, `fpsMinSamples, `decodeSamples, `bitrateSamples,
        `dropsTimeSeries, `bitrateTimeSeries, `decodeTimeSeries, `totalFrames, `totalDrops
    {
      FrameTotals(fpsAvgSamples, fpsMinSamples, decodeSamples, bitrateSamples,
                  dropsTimeSeries, bitrateTimeSeries, decodeTimeSeries, totalFrames, totalDrops)
    }

    ghost function RttHeld(): RttTotals
      reads `rttAvgSamples, `rttMaxSamples, `jitterSamples, `jitterMaxSamples, `rttTimeSeries
    {
      RttTotals(rttAvgSamples, rttMaxSamples, jitterSamples, jitterMaxSamples, rttTimeSeries)
    }

    ghost function HostHeld(): HostTotals
      reads `hostLatencyAvgSamples, `hostLatencyMaxSamples, `hostLatencyTimeSeries,
        `hostLatencyRatedSamples, `hostLatencyLateSamples
    {
      HostTotals(hostLatencyAvgSamples, hostLatencyMaxSamples, hostLatencyTimeSeries,
                 hostLatencyRatedSamples, hostLatencyLateSamples)
    }

    ghost function Held(): Totals
      reads this
    {
      Totals(FramesHeld(), RttHeld(), HostHeld(), targetFps)
    }

    constructor ()
      ensures Held() == EMPTY && fresh(metrics) && metrics.Held() == NO_METRICS
    {
      metrics := new HostLists();
      fpsAvgSamples, fpsMinSamples, rttAvgSamples, rttMaxSamples := [], [], [], [];
      jitterSamples, jitterMaxSamples, decodeSamples, bitrateSamples := [], [], [], [];
      hostLatencyAvgSamples, hostLatencyMaxSamples := [], [];
      hostLatencyLateSamples, hostLatencyRatedSamples := 0, 0;
      rttTimeSeries, dropsTimeSeries, bitrateTimeSeries, decodeTimeSeries := [], [], [], [];
      hostLatencyTimeSeries := [];
      targetFps, totalFrames, totalDrops := 0, 0, 0;
    }

    method Reset()
      modifies this, metrics
      ensures Held() == EMPTY && metrics.Held() == NO_METRICS
    {
      metrics.Clear();
      ClearFrames();
      ClearLatencies();
      targetFps := 0;
    }

    method ClearFrames()
      modifies `fpsAvgSamples, `fpsMinSamples, `decodeSamples, `bitrateSamples,
        `dropsTimeSeries, `bitrateTimeSeries, `decodeTimeSeries, `totalFrames, `totalDrops
      ensures FramesHeld() == NO_FRAMES
    {
      fpsAvgSamples, fpsMinSamples, decodeSamples, bitrateSamples := [], [], [], [];
      dropsTimeSeries, bitrateTimeSeries, decodeTimeSeries := [], [], [];
      totalFrames, totalDrops := 0, 0;
    }

    method ClearLatencies()
      modifies `rttAvgSamples, `rttMaxSamples, `jitterSamples, `jitterMaxSamples, `rttTimeSeries,
        `hostLatencyAvgSamples, `hostLatencyMaxSamples, `hostLatencyTimeSeries,
        `hostLatencyRatedSamples, `hostLatencyLateSamples
      ensures RttHeld() == NO_RTT && HostHeld() == NO_HOST
    {
      rttAvgSamples, rttMaxSamples, jitterSamples, jitterMaxSamples, rttTimeSeries := [], [], [], [], [];
      hostLatencyAvgSamples, hostLatencyMaxSamples, hostLatencyTimeSeries := [], [], [];
      hostLatencyRatedSamples, hostLatencyLateSamples := 0, 0;
    }

    method AddBatch(batch: Batch, host: HostSample)
      modifies this, metrics
      ensures Held() == Spec.AddBatch(old(Held()), batch)
      ensures metrics.Held() == AddDelivery(old(metrics.Held()), Delivery(batch, host))
    {
      if |batch.samples| == 0 {
        return;
      }
      AddAllSamples(batch);
      metrics.Add(host);
    }

    /** The loop over the samples of a batch that brings some. */
    method AddAllSamples(batch: Batch)
      requires batch.samples != []
      modifies this
      ensures Held() == Spec.AddBatch(old(Held()), batch)
    {
      targetFps := batch.targetFps;
      ghost var started := Held();
      for i := 0 to |batch.samples|
        invariant Held() == AddSamples(started, batch.samples[..i], batch.targetFps)
      {
        var s := batch.samples[i];
        var late := s.hostLatencyMax > FramePeriodMs(batch.targetFps) * LATE_FRAME_MULTIPLIER;
        AddSample(s, Frames(s), late);
        assert batch.samples[..i + 1][..i] == batch.samples[..i];
      }
      assert batch.samples[..|batch.samples|] == batch.samples;
    }

    method AddSample(s: Sample, frames: int, late: bool)
      modifies this
      ensures Held() == Add(old(Held()), s, frames, late)
    {
      AddFrames(s, frames);
      AddLatencies(s, late);
    }

    method AddLatencies(s: Sample, late: bool)
      modifies `rttAvgSamples, `rttMaxSamples, `jitterSamples, `jitterMaxSamples, `rttTimeSeries,
        `hostLatencyAvgSamples, `hostLatencyMaxSamples, `hostLatencyTimeSeries,
        `hostLatencyRatedSamples, `hostLatencyLateSamples
      ensures RttHeld() == if s.rttAvg > 0.0 then Spec.AddRoundTrip(old(RttHeld()), s) else old(RttHeld())
      ensures HostHeld() ==
        if s.hostLatencyAvg > 0.0 then Spec.AddHostLatency(old(HostHeld()), s, late) else old(HostHeld())
    {
      AddWhenTimed(s);
      AddWhenReported(s, late);
    }

    method AddWhenTimed(s: Sample)
      modifies `rttAvgSamples, `rttMaxSamples, `jitterSamples, `jitterMaxSamples, `rttTimeSeries
      ensures RttHeld() == if s.rttAvg > 0.0 then Spec.AddRoundTrip(old(RttHeld()), s) else old(RttHeld())
    {
      if s.rttAvg > 0.0 {
        AddRoundTrip(s);
      }
    }

    method AddWhenReported(s: Sample, late: bool)
      modifies `hostLatencyAvgSamples, `hostLatencyMaxSamples, `hostLatencyTimeSeries,
        `hostLatencyRatedSamples, `hostLatencyLateSamples
      ensures HostHeld() ==
        if s.hostLatencyAvg > 0.0 then Spec.AddHostLatency(old(HostHeld()), s, late) else old(HostHeld())
    {
      if s.hostLatencyAvg > 0.0 {
        AddHostLatency(s, late);
      }
    }

    method AddFrames(s: Sample, frames: int)
      modifies `fpsAvgSamples, `fpsMinSamples, `decodeSamples, `bitrateSamples, `totalFrames, `totalDrops,
        `dropsTimeSeries, `bitrateTimeSeries, `decodeTimeSeries
      ensures FramesHeld() == Spec.AddFrames(old(FramesHeld()), s, frames)
    {
      fpsAvgSamples := fpsAvgSamples + [s.fpsAvg];
      fpsMinSamples := fpsMinSamples + [s.fpsMin];
      decodeSamples := decodeSamples + [s.decodeMs];
      bitrateSamples := bitrateSamples + [s.bitrateMbps];
      totalFrames := totalFrames + frames;
      totalDrops := totalDrops + s.drops;
      dropsTimeSeries := dropsTimeSeries + [s.drops as real];
      bitrateTimeSeries := bitrateTimeSeries + [s.bitrateMbps];
      decodeTimeSeries := decodeTimeSeries + [s.decodeMs];
    }

    method AddRoundTrip(s: Sample)
      modifies `rttAvgSamples, `rttMaxSamples, `jitterSamples, `jitterMaxSamples, `rttTimeSeries
      ensures RttHeld() == Spec.AddRoundTrip(old(RttHeld()), s)
    {
      rttAvgSamples := rttAvgSamples + [s.rttAvg];
      rttMaxSamples := rttMaxSamples + [s.rttMax];
      jitterSamples := jitterSamples + [s.jitterAvg];
      jitterMaxSamples := jitterMaxSamples + [s.jitterMax];
      rttTimeSeries := rttTimeSeries + [s.rttAvg];
    }

    method AddHostLatency(s: Sample, late: bool)
      modifies `hostLatencyAvgSamples, `hostLatencyMaxSamples, `hostLatencyTimeSeries,
        `hostLatencyRatedSamples, `hostLatencyLateSamples
      ensures HostHeld() == Spec.AddHostLatency(old(HostHeld()), s, late)
    {
      hostLatencyAvgSamples := hostLatencyAvgSamples + [s.hostLatencyAvg];
      hostLatencyMaxSamples := hostLatencyMaxSamples + [s.hostLatencyMax];
      hostLatencyTimeSeries := hostLatencyTimeSeries + [s.hostLatencyAvg];
      hostLatencyRatedSamples := hostLatencyRatedSamples + 1;
      if late {
        hostLatencyLateSamples := hostLatencyLateSamples + 1;
      }
    }

    method Finalize() returns (report: Report, hostStats: HostStats)
      ensures report == Spec.Finalize(Held()) && hostStats == FinalizeHost(metrics.Held())
    {
      var stats := Stats(
        |fpsAvgSamples|,
        AverageOr(fpsAvgSamples, 0.0),
        MinIntOr(fpsMinSamples, 0),
        totalDrops,
        Percentage(totalDrops, totalFrames, 0.0),
        AverageOr(rttAvgSamples, 0.0),
        MaxOr(rttMaxSamples, 0.0),
        AverageOr(jitterSamples, 0.0),
        MaxOr(jitterMaxSamples, 0.0),
        AverageOr(decodeSamples, 0.0),
        AverageOr(bitrateSamples, 0.0),
        AverageOr(hostLatencyAvgSamples, -1.0),
        MaxOr(hostLatencyMaxSamples, -1.0),
        Percentage(hostLatencyLateSamples, hostLatencyRatedSamples, -1.0));
      var rtt := RunDownsample(rttTimeSeries, MAX_SERIES_POINTS);
      var drops := RunDownsample(dropsTimeSeries, MAX_SERIES_POINTS);
      var bitrate := RunDownsample(bitrateTimeSeries, MAX_SERIES_POINTS);
      var decode := RunDownsample(decodeTimeSeries, MAX_SERIES_POINTS);
      var hostLatency := RunDownsample(hostLatencyTimeSeries, MAX_SERIES_POINTS);
      report := Report(stats, rtt, drops, bitrate, decode, hostLatency);
      hostStats := metrics.Finalize();
    }
  }
}
