/**
 * The `PingRecorder` class of src/pypingrecorder.py: per-host latency
 * series and one throughput series, the retention pass, one iteration of
 * the recording loop, and `compute_statistics`.
 *
 * The clock, `measure_ping` and `measure_speed` are parameters: `now` is
 * the current time in whole seconds, `probe` gives each host's raw latency
 * (0 when the ping failed) and `throughput` is the (download, upload) pair a
 * speed test would return.
 */
module Recorder {
  import opened Smoothing
  import opened Series
  import opened Histograms
  import opened Statistics
  import opened Cadence

  type Host = string

  /** The monitored hosts, fixed at construction, in iteration order. */
  const Hosts: seq<Host> := ["google.com", "example.com", "openai.com"]

  /** What `measure_speed` returns, in Mbps. */
  datatype Throughput = Throughput(download: real, upload: real)

  /** One host's three latency histograms. */
  datatype PingHistos = PingHistos(avg: seq<nat>, max: seq<nat>, jitter: seq<nat>)

  /** Outcome of the retention loop as written: it can end in Python's `IndexError`. */
  datatype EvictOutcome = Evicted(series: PingSeries) | IndexError

  /** Entries stamped before this are older than 240 hours at time `now`. */
  function Cutoff(now: int): int
  {
    now - RetentionSeconds
  }

  /**
   * `ping_data` is a dictionary keyed by the host names above, built once
   * and never re-keyed; its entries are iterated in insertion order. It is
   * modelled as a sequence: entry `k` is the history of `Hosts[k]`.
   * Every history is well-formed and its smoothing tuples are within bounds.
   */
  ghost predicate ValidPing(ping: seq<PingSeries>)
  {
    && |ping| == |Hosts|
    && (forall k :: 0 <= k < |ping| ==> ping[k].WellFormed() && ping[k].Bounded())
  }

  /** The retention pass applied to every host's history. */
  function EvictAll(ping: seq<PingSeries>, cutoff: int): (r: seq<PingSeries>)
    requires ValidPing(ping)
    ensures ValidPing(r)
  {
    seq(|ping|, k requires 0 <= k < |ping| => EvictPing(ping[k], cutoff))
  }

  /** One latency tick applied to every host's history, with the sample `probe` gives for that host. */
  function TickAll(ping: seq<PingSeries>, now: int, probe: Host -> Latency): (r: seq<PingSeries>)
    requires ValidPing(ping)
    ensures |r| == |ping|
  {
    seq(|ping|, k requires 0 <= k < |ping| => ping[k].Tick(now, probe(Hosts[k])))
  }

  /** A sequence that holds every host's evicted history is the result of `EvictAll`. */
  lemma EvictAllFrom(ping: seq<PingSeries>, cutoff: int, r: seq<PingSeries>)
    requires ValidPing(ping) && |r| == |ping|
    requires forall k :: 0 <= k < |ping| ==> r[k] == EvictPing(ping[k], cutoff)
    ensures r == EvictAll(ping, cutoff)
  {
  }

  /** A sequence that holds every host's ticked history is the result of `TickAll`. */
  lemma TickAllFrom(ping: seq<PingSeries>, now: int, probe: Host -> Latency, r: seq<PingSeries>)
    requires ValidPing(ping) && |r| == |ping|
    requires forall k :: 0 <= k < |ping| ==> r[k] == ping[k].Tick(now, probe(Hosts[k]))
    ensures r == TickAll(ping, now, probe)
  {
  }

  /** A tick of every host keeps every history well-formed and within bounds. */
  lemma TickAllValid(ping: seq<PingSeries>, now: int, probe: Host -> Latency)
    requires ValidPing(ping)
    ensures ValidPing(TickAll(ping, now, probe))
  {
    forall k | 0 <= k < |ping|
      ensures TickAll(ping, now, probe)[k].Bounded()
    {
      TickKeepsBounded(ping[k], now, probe(Hosts[k]));
    }
  }

  // ---------------------------------------------------------------------
  // Statistics windows and histograms (specification functions)
  // ---------------------------------------------------------------------

  /** `int(min(1800, len(value)))`. */
  function StatsWinSize(s: PingSeries): (n: nat)
    ensures n <= |s.value| && n <= StatsWindowTicks
    ensures n == |s.value| || n == StatsWindowTicks
  {
    if |s.value| < StatsWindowTicks then |s.value| else StatsWindowTicks
  }

  function MaxWindow(s: PingSeries): seq<real>
  {
    TakeLast(s.max, StatsWinSize(s))
  }

  function AvgWindow(s: PingSeries): seq<real>
  {
    TakeLast(s.avg, StatsWinSize(s))
  }

  function JitterWindow(s: PingSeries): seq<real>
  {
    TakeLast(s.jitter, StatsWinSize(s))
  }

  /** Every host's trailing max window, in host order. */
  function MaxWindows(ping: seq<PingSeries>): (ws: seq<seq<real>>)
    ensures |ws| == |ping|
  {
    seq(|ping|, k requires 0 <= k < |ping| => MaxWindow(ping[k]))
  }

  /** `rng_max`: the range maximum shared by all hosts' latency histograms. */
  function SharedRange(ping: seq<PingSeries>): (r: real)
    ensures r >= 0.0
  {
    RangeMax(MaxWindows(ping))
  }

  /** `ping_histo_bins`: 51 edges over `(0, rng_max)`. */
  function PingEdges(ping: seq<PingSeries>): (e: seq<real>)
    ensures |e| == Bins + 1
  {
    RangeEdges(0.0, SharedRange(ping), Bins)
  }

  /** One host's avg, max and jitter histograms over the same edges. */
  function HostHistos(s: PingSeries, edges: seq<real>): (h: PingHistos)
    requires |edges| >= 2
    ensures |h.avg| == |edges| - 1 && |h.max| == |edges| - 1 && |h.jitter| == |edges| - 1
  {
    PingHistos(Histogram(AvgWindow(s), edges), Histogram(MaxWindow(s), edges),
               Histogram(JitterWindow(s), edges))
  }

  /** `int(min(1, len(upload)))`. */
  function SpeedWinSize(s: SpeedSeries): nat
  {
    if |s.upload| < SpeedStatsWindowTicks then |s.upload| else SpeedStatsWindowTicks
  }

  function DownloadWindow(s: SpeedSeries): seq<real>
  {
    TakeLast(s.download, SpeedWinSize(s))
  }

  function UploadWindow(s: SpeedSeries): seq<real>
  {
    TakeLast(s.upload, SpeedWinSize(s))
  }

  /** `speed_histo_bins`: 51 edges over the download window's own range. */
  function SpeedEdges(s: SpeedSeries): (e: seq<real>)
    ensures |e| == Bins + 1
  {
    DataEdges(DownloadWindow(s), Bins)
  }

  // ---------------------------------------------------------------------
  // Lemmas about the statistics
  // ---------------------------------------------------------------------

  /** Every value of a host's trailing max window lies within `[0, rng_max]`. */
  lemma MaxWindowWithinRange(ping: seq<PingSeries>, k: nat)
    requires ValidPing(ping) && k < |ping|
    ensures var w := MaxWindow(ping[k]);
      forall i :: 0 <= i < |w| ==> 0.0 <= w[i] <= SharedRange(ping)
  {
    var ws := MaxWindows(ping);
    RangeMaxBounds(ws);
    assert ws[k] == MaxWindow(ping[k]);
    var s := ping[k];
    var w := MaxWindow(s);
    forall i | 0 <= i < |w|
      ensures 0.0 <= w[i]
    {
      assert w[i] == s.max[|s.max| - |w| + i];
    }
  }

  /** Trailing windows of equal size keep a pointwise bound `0 <= xs[i] <= ys[i]`. */
  lemma TakeLastBelow(xs: seq<real>, ys: seq<real>, n: nat)
    requires |xs| == |ys|
    requires forall i :: 0 <= i < |xs| ==> 0.0 <= xs[i] <= ys[i]
    ensures var a, b := TakeLast(xs, n), TakeLast(ys, n);
      |a| == |b| && forall i :: 0 <= i < |a| ==> 0.0 <= a[i] <= b[i]
  {
    TakeLastAt(xs, n);
    TakeLastAt(ys, n);
  }

  /** Within a host's trailing windows, each avg and jitter value lies between 0 and the max beside it. */
  lemma WindowsBelowMax(s: PingSeries)
    requires s.WellFormed() && s.Bounded()
    ensures var mw, aw, jw := MaxWindow(s), AvgWindow(s), JitterWindow(s);
      && |aw| == |mw| && |jw| == |mw|
      && (forall i :: 0 <= i < |mw| ==> 0.0 <= aw[i] <= mw[i])
      && (forall i :: 0 <= i < |mw| ==> 0.0 <= jw[i] <= mw[i])
  {
    TakeLastBelow(s.avg, s.max, StatsWinSize(s));
    TakeLastBelow(s.jitter, s.max, StatsWinSize(s));
  }

  /**
   * With the shared range, each host's max, avg and jitter histograms all
   * have 50 bins over the same 51 edges, and each counts every sample of
   * the host's trailing window: no value falls outside `(0, rng_max)`,
   * because 0 <= avg <= max and 0 <= jitter <= max for every stored tuple.
   */
  lemma LatencyHistogramsCountAll(ping: seq<PingSeries>, k: nat)
    requires ValidPing(ping) && k < |ping|
    ensures var e := PingEdges(ping);
      var hh := HostHistos(ping[k], e);
      && |hh.avg| == Bins && |hh.max| == Bins && |hh.jitter| == Bins
      && SumNat(hh.max) == |MaxWindow(ping[k])|
      && SumNat(hh.avg) == |AvgWindow(ping[k])|
      && SumNat(hh.jitter) == |JitterWindow(ping[k])|
  {
    var e := PingEdges(ping);
    var r := SharedRange(ping);
    var s := ping[k];
    MaxWindowWithinRange(ping, k);
    RangeEdgesIncreasing(0.0, r, Bins);
    WindowsBelowMax(s);
    HistogramCountsAll(MaxWindow(s), e);
    HistogramCountsAll(AvgWindow(s), e);
    HistogramCountsAll(JitterWindow(s), e);
  }

  /** The download histogram is built over the window's own range, so it counts every sample. */
  lemma DownloadHistogramCountsAll(s: SpeedSeries)
    requires s.WellFormed()
    ensures SumNat(Histogram(DownloadWindow(s), SpeedEdges(s))) == |DownloadWindow(s)|
    ensures |DownloadWindow(s)| == (if |s.upload| == 0 then |s.download| else 1)
  {
    DataEdgesEnclose(DownloadWindow(s), Bins);
    HistogramCountsAll(DownloadWindow(s), SpeedEdges(s));
  }

  /**
   * The upload histogram reuses the download edges. With the default
   * one-sample window these span only the last download value plus or minus
   * 0.5 Mbps, so the last upload sample is counted exactly when it lies
   * within 0.5 Mbps of the last download sample.
   */
  lemma UploadCountedOnlyNearDownload(s: SpeedSeries)
    requires s.WellFormed() && |s.timestamp| > 0
    ensures var d, u := s.download[|s.download| - 1], s.upload[|s.upload| - 1];
      SumNat(Histogram(UploadWindow(s), SpeedEdges(s)))
        == if d - 0.5 <= u <= d + 0.5 then 1 else 0
  {
    var d, u := s.download[|s.download| - 1], s.upload[|s.upload| - 1];
    LastSpeedWindows(s);
    assert Max([d]) == d && Min([d]) == d;
    var e := SpeedEdges(s);
    assert e == RangeEdges(d, d, Bins);
    DataEdgesEnclose([d], Bins);
    HistogramOfOne(u, e);
  }

  /** With the one-sample window, the throughput windows hold the last sample of each list. */
  lemma LastSpeedWindows(s: SpeedSeries)
    requires s.WellFormed() && |s.timestamp| > 0
    ensures DownloadWindow(s) == [s.download[|s.download| - 1]]
    ensures UploadWindow(s) == [s.upload[|s.upload| - 1]]
  {
  }

  // ---------------------------------------------------------------------
  // The retention loop as written
  // ---------------------------------------------------------------------

  /**
   * The retention loop of src/pypingrecorder.py:93-103 as written: the
   * oldest timestamp is read once, before the loop, and never re-read. If
   * it is older than the cutoff, the loop pops every entry and the next
   * `pop(0)` on the empty list raises `IndexError`; otherwise nothing is
   * popped.
   */
  method EvictAsWritten(s: PingSeries, cutoff: int) returns (r: EvictOutcome)
    requires s.WellFormed()
    ensures r == IndexError <==> |s.timestamp| > 0 && s.timestamp[0] < cutoff
    ensures r != IndexError ==> r == Evicted(s)
  {
    if |s.timestamp| == 0 {
      return Evicted(s);
    }
    var oldest := s.timestamp[0];
    var cur := s;
    while oldest < cutoff
      invariant cur.WellFormed()
      invariant cur == s || oldest < cutoff
      decreases |cur.timestamp|
    {
      if |cur.timestamp| == 0 {
        return IndexError;
      }
      cur := cur.Drop(1);
    }
    return Evicted(cur);
  }

  /**
   * A concrete history that shows the defect: an entry from time 0 and one
   * from 240 hours plus one second later, evicted at that later time. The
   * intended pass keeps the newer entry; the loop as written raises.
   */
  method StaleHeadRaises() returns (asWritten: EvictOutcome, intended: PingSeries)
    ensures asWritten == IndexError
    ensures intended.timestamp == [RetentionSeconds + 1]
  {
    var now := RetentionSeconds + 1;
    var s := PingSeries([0, now], [10.0, 12.0], [10.0, 11.0], [10.0, 12.0], [0.0, 2.0], [0, 0]);
    asWritten := EvictAsWritten(s, Cutoff(now));
    intended := EvictPing(s, Cutoff(now));
    assert StaleCount(s.timestamp, Cutoff(now)) == 1 by {
      assert s.timestamp[1..] == [now];
    }
  }

  // ---------------------------------------------------------------------
  // The recorder
  // ---------------------------------------------------------------------

  class PingRecorder {
    /** `ping_data`: per host, in host order, the six parallel series. */
    var ping: seq<PingSeries>
    /** `ping_data[host]["avg_histo" / "max_histo" / "jitter_histo"]`, in host order. */
    var pingHisto: seq<PingHistos>
    /** `speed_data`: the three parallel throughput series. */
    var speed: SpeedSeries
    var downloadHisto: seq<nat>
    var uploadHisto: seq<nat>
    var pingHistoBins: seq<real>
    var speedHistoBins: seq<real>
    /** `time_count`, the loop's tick counter. */
    var timeCount: nat

    ghost predicate Valid()
      reads this
    {
      && ValidPing(ping)
      && |pingHisto| == |Hosts|
      && speed.WellFormed()
      && timeCount <= SpeedIntervalTicks
    }

    /** Empty series and histograms for every host, no bins yet. */
    constructor ()
      ensures Valid()
      ensures forall k :: 0 <= k < |Hosts| ==> ping[k] == EmptyPing && pingHisto[k] == PingHistos([], [], [])
      ensures speed == EmptySpeed && downloadHisto == [] && uploadHisto == []
      ensures pingHistoBins == [] && speedHistoBins == [] && timeCount == 0
    {
      ping := seq(|Hosts|, _ => EmptyPing);
      pingHisto := seq(|Hosts|, _ => PingHistos([], [], []));
      speed := EmptySpeed;
      downloadHisto, uploadHisto := [], [];
      pingHistoBins, speedHistoBins := [], [];
      timeCount := 0;
    }

    /**
     * The retention pass for host `k`, re-reading the oldest timestamp on
     * every iteration: entries are popped from the front of all six lists
     * while the oldest one is older than `cutoff`.
     */
    method EvictHost(k: nat, cutoff: int)
      requires Valid() && k < |Hosts|
      modifies this`ping
      ensures Valid()
      ensures ping == old(ping)[k := EvictPing(old(ping)[k], cutoff)]
    {
      var series := ping[k];
      ghost var n: nat := 0;
      while |series.timestamp| > 0 && series.timestamp[0] < cutoff
        invariant series.WellFormed()
        invariant n <= StaleCount(old(ping)[k].timestamp, cutoff)
        invariant series == old(ping)[k].Drop(n)
        decreases |series.timestamp|
      {
        series := series.Drop(1);
        n := n + 1;
      }
      ping := ping[k := series];
    }

    /** The retention pass for the throughput series. */
    method EvictSpeedSeries(cutoff: int)
      requires Valid()
      modifies this`speed
      ensures Valid()
      ensures speed == EvictSpeed(old(speed), cutoff)
    {
      var series := speed;
      ghost var n: nat := 0;
      while |series.timestamp| > 0 && series.timestamp[0] < cutoff
        invariant series.WellFormed()
        invariant n <= StaleCount(old(speed).timestamp, cutoff)
        invariant series == old(speed).Drop(n)
        decreases |series.timestamp|
      {
        series := series.Drop(1);
        n := n + 1;
      }
      speed := series;
    }

    /** The retention pass over every host, in host order. */
    method EvictHosts(cutoff: int)
      requires Valid()
      modifies this`ping
      ensures Valid()
      ensures ping == EvictAll(old(ping), cutoff)
    {
      var i := 0;
      while i < |Hosts|
        invariant 0 <= i <= |Hosts|
        invariant Valid()
        invariant forall k :: 0 <= k < i ==> ping[k] == EvictPing(old(ping)[k], cutoff)
        invariant forall k :: i <= k < |Hosts| ==> ping[k] == old(ping)[k]
      {
        EvictHost(i, cutoff);
        i := i + 1;
      }
      EvictAllFrom(old(ping), cutoff, ping);
    }

    /** Host `k`'s latency tick: the timestamp, the raw sample and its smoothing tuple are appended. */
    method TickHost(k: nat, now: int, sample: Latency)
      requires Valid() && k < |Hosts|
      modifies this`ping
      ensures Valid()
      ensures ping == old(ping)[k := old(ping)[k].Tick(now, sample)]
    {
      TickKeepsBounded(ping[k], now, sample);
      ping := ping[k := ping[k].Tick(now, sample)];
    }

    /** Every host's latency tick, in host order, with the sample `probe` gives for that host. */
    method TickHosts(now: int, probe: Host -> Latency)
      requires Valid()
      modifies this`ping
      ensures Valid()
      ensures ping == TickAll(old(ping), now, probe)
    {
      var i := 0;
      while i < |Hosts|
        invariant 0 <= i <= |Hosts|
        invariant Valid()
        invariant forall k :: 0 <= k < i ==> ping[k] == old(ping)[k].Tick(now, probe(Hosts[k]))
        invariant forall k :: i <= k < |Hosts| ==> ping[k] == old(ping)[k]
      {
        TickHost(i, now, probe(Hosts[i]));
        i := i + 1;
      }
      TickAllFrom(old(ping), now, probe, ping);
    }

    /**
     * The cadence part of one iteration: the counter is incremented and,
     * once it exceeds 1800, reset to 0 while one throughput sample is
     * appended. The source increments the counter at the top of the
     * iteration; nothing in between reads it.
     */
    method SpeedCadence(now: int, throughput: Throughput)
      requires Valid()
      modifies this`speed, this`timeCount
      ensures Valid()
      ensures timeCount == NextCount(old(timeCount))
      ensures speed == if SpeedDue(old(timeCount))
        then old(speed).Append(now, throughput.download, throughput.upload)
        else old(speed)
    {
      var count := timeCount + 1;
      if count > SpeedIntervalTicks {
        count := 0;
        speed := speed.Append(now, throughput.download, throughput.upload);
      }
      timeCount := count;
    }

    /**
     * One iteration of the recording loop: every host's series and the
     * throughput series are evicted, one latency tick is appended per host,
     * and the cadence counter advances, with a throughput sample appended
     * every 1801st iteration.
     */
    method Step(now: int, probe: Host -> Latency, throughput: Throughput)
      requires Valid()
      modifies this`ping, this`speed, this`timeCount
      ensures Valid()
      ensures ping == TickAll(EvictAll(old(ping), Cutoff(now)), now, probe)
      ensures timeCount == NextCount(old(timeCount))
      ensures speed == if SpeedDue(old(timeCount))
        then EvictSpeed(old(speed), Cutoff(now)).Append(now, throughput.download, throughput.upload)
        else EvictSpeed(old(speed), Cutoff(now))
    {
      var cutoff := Cutoff(now);
      EvictHosts(cutoff);
      EvictSpeedSeries(cutoff);
      TickHosts(now, probe);
      SpeedCadence(now, throughput);
    }

    /**
     * The first loop of `compute_statistics`: starting from 0, the range
     * maximum is raised to each host's trailing max-window maximum in turn,
     * skipping hosts whose window is empty.
     */
    method SharedRangeOfHosts() returns (rngMax: real)
      requires Valid()
      ensures rngMax == SharedRange(ping)
    {
      rngMax := 0.0;
      var i := 0;
      while i < |Hosts|
        invariant 0 <= i <= |Hosts|
        invariant rngMax == RangeMax(MaxWindows(ping)[..i])
      {
        var data := MaxWindow(ping[i]);
        assert MaxWindows(ping)[..i + 1][..i] == MaxWindows(ping)[..i];
        if |data| > 0 && Max(data) > rngMax {
          rngMax := Max(data);
        }
        i := i + 1;
      }
      assert MaxWindows(ping)[..|Hosts|] == MaxWindows(ping);
    }

    /**
     * The second loop of `compute_statistics`: for each host in turn, the
     * edges over `(0, rngMax)` are stored, then the host's max, avg and
     * jitter histograms over them.
     */
    method HistogramHosts(rngMax: real)
      requires Valid() && rngMax >= 0.0
      modifies this`pingHisto, this`pingHistoBins
      ensures Valid()
      ensures pingHistoBins == RangeEdges(0.0, rngMax, Bins)
      ensures forall k :: 0 <= k < |Hosts| ==> pingHisto[k] == HostHistos(ping[k], pingHistoBins)
    {
      var i := 0;
      while i < |Hosts|
        invariant 0 <= i <= |Hosts|
        invariant Valid()
        invariant i > 0 ==> pingHistoBins == RangeEdges(0.0, rngMax, Bins)
        invariant forall k :: 0 <= k < i ==> pingHisto[k] == HostHistos(ping[k], RangeEdges(0.0, rngMax, Bins))
      {
        pingHistoBins := RangeEdges(0.0, rngMax, Bins);
        pingHisto := pingHisto[i := HostHistos(ping[i], pingHistoBins)];
        i := i + 1;
      }
    }

    /**
     * The throughput part of `compute_statistics`: 50 bins over the
     * download window's own range, and the upload window counted over the
     * same edges.
     */
    method HistogramSpeed()
      requires Valid()
      modifies this`downloadHisto, this`uploadHisto, this`speedHistoBins
      ensures Valid()
      ensures speedHistoBins == SpeedEdges(speed)
      ensures downloadHisto == Histogram(DownloadWindow(speed), speedHistoBins)
      ensures uploadHisto == Histogram(UploadWindow(speed), speedHistoBins)
    {
      speedHistoBins := DataEdges(DownloadWindow(speed), Bins);
      downloadHisto := Histogram(DownloadWindow(speed), speedHistoBins);
      uploadHisto := Histogram(UploadWindow(speed), speedHistoBins);
    }

    /**
     * `compute_statistics`: the shared range over every host's trailing max
     * window, each host's three histograms over the edges of its max
     * histogram, and the throughput histograms over the download window's
     * edges. Only the histogram fields and the two edge lists change.
     */
    method ComputeStatistics()
      requires Valid()
      modifies this`pingHisto, this`pingHistoBins, this`downloadHisto, this`uploadHisto,
               this`speedHistoBins
      ensures Valid()
      ensures pingHistoBins == PingEdges(ping)
      ensures forall k :: 0 <= k < |Hosts| ==> pingHisto[k] == HostHistos(ping[k], pingHistoBins)
      ensures speedHistoBins == SpeedEdges(speed)
      ensures downloadHisto == Histogram(DownloadWindow(speed), speedHistoBins)
      ensures uploadHisto == Histogram(UploadWindow(speed), speedHistoBins)
    {
      var rngMax := SharedRangeOfHosts();
      HistogramHosts(rngMax);
      HistogramSpeed();
    }
  }

  /**
   * `compute_statistics` reads the series and never writes them, so a
   * second call with no recording in between leaves every histogram and
   * both edge lists as the first call set them.
   */
  method StatisticsIdempotent(r: PingRecorder)
    returns (bins: seq<real>, histos: seq<PingHistos>, sbins: seq<real>, down: seq<nat>, up: seq<nat>)
    requires r.Valid()
    modifies r
    ensures r.Valid()
    ensures r.ping == old(r.ping) && r.speed == old(r.speed) && r.timeCount == old(r.timeCount)
    ensures r.pingHistoBins == bins && r.pingHisto == histos
    ensures r.speedHistoBins == sbins && r.downloadHisto == down && r.uploadHisto == up
  {
    r.ComputeStatistics();
    bins, histos := r.pingHistoBins, r.pingHisto;
    sbins, down, up := r.speedHistoBins, r.downloadHisto, r.uploadHisto;
    r.ComputeStatistics();
  }
}
