/**
 * The series store of the ping recorder: per host, six parallel lists
 * (timestamp, value, avg, max, jitter, errors), and one throughput series
 * of three parallel lists (timestamp, download, upload); see
 * src/pypingrecorder.py:25-45.
 *
 * Timestamps are whole seconds. The specification functions here say what
 * one retention pass (lines 91-111, with the head re-read on every
 * iteration) and one latency append (lines 113-135) do to a series.
 */
module Series {
  import opened Smoothing

  /** History kept: 240 hours, in seconds. */
  const RetentionSeconds: int := 240 * 3600

  /** Timestamps never go backwards. */
  ghost predicate Sorted(ts: seq<int>)
  {
    forall i, j :: 0 <= i < j < |ts| ==> ts[i] <= ts[j]
  }

  /**
   * Number of leading entries older than `cutoff`: the entries the
   * retention loop pops, one per iteration, before it meets a head that is
   * recent enough or runs out of entries.
   */
  function StaleCount(ts: seq<int>, cutoff: int): (k: nat)
    ensures k <= |ts|
    ensures forall i :: 0 <= i < k ==> ts[i] < cutoff
    ensures k < |ts| ==> ts[k] >= cutoff
  {
    if ts == [] || ts[0] >= cutoff then 0 else 1 + StaleCount(ts[1..], cutoff)
  }

  /** One host's latency history: six lists of equal length. */
  datatype PingSeries = PingSeries(
    timestamp: seq<int>,
    value: seq<Latency>,
    avg: seq<real>,
    max: seq<real>,
    jitter: seq<real>,
    errors: seq<nat>)
  {
    ghost predicate WellFormed()
    {
      && |value| == |timestamp|
      && |avg| == |timestamp|
      && |max| == |timestamp|
      && |jitter| == |timestamp|
      && |errors| == |timestamp|
    }

    /** Every stored smoothing tuple obeys the bounds of `SmoothBounds`. */
    ghost predicate Bounded()
      requires WellFormed()
    {
      forall i :: 0 <= i < |timestamp| ==>
        0.0 <= avg[i] <= max[i] && 0.0 <= jitter[i] <= max[i]
    }

    /** The same `k` entries popped from the front of every list. */
    function Drop(k: nat): (r: PingSeries)
      requires WellFormed() && k <= |timestamp|
      ensures r.WellFormed() && |r.timestamp| == |timestamp| - k
      ensures Bounded() ==> r.Bounded()
    {
      PingSeries(timestamp[k..], value[k..], avg[k..], max[k..], jitter[k..], errors[k..])
    }

    /**
     * One latency tick for this host: append the timestamp and the raw
     * sample, then the smoothing tuple of the last `KernelTicks` raw values
     * (which include the sample just appended).
     */
    function Tick(now: int, sample: Latency): (r: PingSeries)
      requires WellFormed()
      ensures r.WellFormed() && |r.timestamp| == |timestamp| + 1
      ensures r.timestamp == timestamp + [now] && r.value == value + [sample]
    {
      var values := value + [sample];
      var s := Smooth(Window(values, KernelTicks));
      PingSeries(timestamp + [now], values, avg + [s.avg], max + [s.max],
                 jitter + [s.jitter], errors + [s.errors])
    }
  }

  /** The empty history a host starts with. */
  const EmptyPing := PingSeries([], [], [], [], [], [])

  /**
   * What the retention pass leaves of a host's history: the longest run of
   * entries older than `cutoff` is removed from the front of all six lists.
   */
  function EvictPing(s: PingSeries, cutoff: int): (r: PingSeries)
    requires s.WellFormed()
    ensures r.WellFormed()
    ensures s.Bounded() ==> r.Bounded()
  {
    s.Drop(StaleCount(s.timestamp, cutoff))
  }

  /**
   * The retention pass only pops from the front, pops only entries older
   * than `cutoff`, and stops at the first entry that is not: afterwards the
   * history is empty or starts at or after `cutoff`.
   */
  lemma EvictPingPopsStale(s: PingSeries, cutoff: int)
    requires s.WellFormed()
    ensures var r := EvictPing(s, cutoff);
      && (exists k :: 0 <= k <= |s.timestamp| && r == s.Drop(k)
                      && forall i :: 0 <= i < k ==> s.timestamp[i] < cutoff)
      && (r.timestamp == [] || r.timestamp[0] >= cutoff)
      && (s.timestamp == [] || s.timestamp[0] >= cutoff ==> r == s)
  {
    var k := StaleCount(s.timestamp, cutoff);
    assert EvictPing(s, cutoff) == s.Drop(k);
    if s.timestamp == [] || s.timestamp[0] >= cutoff {
      assert s.Drop(0) == s;
    }
  }

  /** The throughput history: three lists of equal length. */
  datatype SpeedSeries = SpeedSeries(timestamp: seq<int>, download: seq<real>, upload: seq<real>)
  {
    ghost predicate WellFormed()
    {
      |download| == |timestamp| && |upload| == |timestamp|
    }

    function Drop(k: nat): (r: SpeedSeries)
      requires WellFormed() && k <= |timestamp|
      ensures r.WellFormed() && |r.timestamp| == |timestamp| - k
    {
      SpeedSeries(timestamp[k..], download[k..], upload[k..])
    }

    /** One throughput sample appended to every list. */
    function Append(now: int, download': real, upload': real): (r: SpeedSeries)
      requires WellFormed()
      ensures r.WellFormed() && |r.timestamp| == |timestamp| + 1
    {
      SpeedSeries(timestamp + [now], download + [download'], upload + [upload'])
    }
  }

  const EmptySpeed := SpeedSeries([], [], [])

  /** The retention pass on the throughput history. */
  function EvictSpeed(s: SpeedSeries, cutoff: int): (r: SpeedSeries)
    requires s.WellFormed()
    ensures r.WellFormed()
  {
    s.Drop(StaleCount(s.timestamp, cutoff))
  }

  /** As for a host's history: only stale entries are popped, from the front. */
  lemma EvictSpeedPopsStale(s: SpeedSeries, cutoff: int)
    requires s.WellFormed()
    ensures var r := EvictSpeed(s, cutoff);
      && (exists k :: 0 <= k <= |s.timestamp| && r == s.Drop(k)
                      && forall i :: 0 <= i < k ==> s.timestamp[i] < cutoff)
      && (r.timestamp == [] || r.timestamp[0] >= cutoff)
      && (s.timestamp == [] || s.timestamp[0] >= cutoff ==> r == s)
  {
    var k := StaleCount(s.timestamp, cutoff);
    assert EvictSpeed(s, cutoff) == s.Drop(k);
    if s.timestamp == [] || s.timestamp[0] >= cutoff {
      assert s.Drop(0) == s;
    }
  }

  // ---------------------------------------------------------------------
  // Lemmas about retention
  // ---------------------------------------------------------------------

  /**
   * On a time-ordered history the retention pass is exactly a filter:
   * every entry it drops is older than `cutoff`, every entry it keeps is
   * not, and what it keeps is the original suffix in order.
   */
  lemma EvictSortedIsFilter(ts: seq<int>, cutoff: int)
    requires Sorted(ts)
    ensures var k := StaleCount(ts, cutoff);
      && (forall i :: 0 <= i < k ==> ts[i] < cutoff)
      && (forall i :: k <= i < |ts| ==> ts[i] >= cutoff)
  {
    var k := StaleCount(ts, cutoff);
    forall i | k <= i < |ts|
      ensures ts[i] >= cutoff
    {
      assert ts[k] <= ts[i];
    }
  }

  /**
   * The retention pass keeps a time-ordered history time-ordered, so
   * `EvictSortedIsFilter` applies again after it.
   */
  lemma EvictPingKeepsSorted(s: PingSeries, cutoff: int)
    requires s.WellFormed() && Sorted(s.timestamp)
    ensures Sorted(EvictPing(s, cutoff).timestamp)
  {
    var k := StaleCount(s.timestamp, cutoff);
    assert EvictPing(s, cutoff).timestamp == s.timestamp[k..];
  }

  /** A second retention pass with the same cutoff removes nothing. */
  lemma StaleCountIdempotent(ts: seq<int>, cutoff: int)
    ensures StaleCount(ts[StaleCount(ts, cutoff)..], cutoff) == 0
  {
  }

  lemma EvictPingIdempotent(s: PingSeries, cutoff: int)
    requires s.WellFormed()
    ensures EvictPing(EvictPing(s, cutoff), cutoff) == EvictPing(s, cutoff)
  {
    var r := EvictPing(s, cutoff);
    StaleCountIdempotent(s.timestamp, cutoff);
    assert StaleCount(r.timestamp, cutoff) == 0;
    assert r.Drop(0) == r;
  }

  /** Appending a tuple within the bounds to lists within the bounds. */
  lemma AppendKeepsBounds(avg: seq<real>, max: seq<real>, jitter: seq<real>, a: real, m: real, j: real)
    requires |avg| == |max| == |jitter|
    requires forall i :: 0 <= i < |avg| ==> 0.0 <= avg[i] <= max[i] && 0.0 <= jitter[i] <= max[i]
    requires 0.0 <= a <= m && 0.0 <= j <= m
    ensures forall i :: 0 <= i < |avg| + 1 ==>
      0.0 <= (avg + [a])[i] <= (max + [m])[i] && 0.0 <= (jitter + [j])[i] <= (max + [m])[i]
  {
  }

  /**
   * A tick keeps every stored tuple within the smoothing bounds
   * 0 <= avg <= max and 0 <= jitter <= max.
   */
  lemma TickKeepsBounded(s: PingSeries, now: int, sample: Latency)
    requires s.WellFormed() && s.Bounded()
    ensures s.Tick(now, sample).Bounded()
  {
    var w := Window(s.value + [sample], KernelTicks);
    var x := Smooth(w);
    SmoothBounds(w);
    AppendKeepsBounds(s.avg, s.max, s.jitter, x.avg, x.max, x.jitter);
  }

  /** Appending a timestamp no earlier than every stored one keeps the list time-ordered. */
  lemma AppendKeepsSorted(ts: seq<int>, now: int)
    requires Sorted(ts)
    requires forall i :: 0 <= i < |ts| ==> ts[i] <= now
    ensures Sorted(ts + [now])
  {
  }

  /** A tick stamped no earlier than the newest entry keeps the history time-ordered. */
  lemma TickKeepsSorted(s: PingSeries, now: int, sample: Latency)
    requires s.WellFormed() && Sorted(s.timestamp)
    requires forall i :: 0 <= i < |s.timestamp| ==> s.timestamp[i] <= now
    ensures Sorted(s.Tick(now, sample).timestamp)
  {
    AppendKeepsSorted(s.timestamp, now);
  }

  /**
   * The tuple a tick appends is the smoothing of the last `KernelTicks`
   * raw values, and the window is never empty because it ends with the
   * sample just taken.
   */
  lemma TickAppendsSmoothed(s: PingSeries, now: int, sample: Latency)
    requires s.WellFormed()
    ensures var r := s.Tick(now, sample);
      var w := Window(r.value, KernelTicks);
      && |w| == (if |r.value| < KernelTicks then |r.value| else KernelTicks)
      && w[|w| - 1] == sample
      && r.avg[|s.timestamp|] == Smooth(w).avg
      && r.max[|s.timestamp|] == Smooth(w).max
      && r.jitter[|s.timestamp|] == Smooth(w).jitter
      && r.errors[|s.timestamp|] == Smooth(w).errors
      && r.avg[..|s.timestamp|] == s.avg && r.max[..|s.timestamp|] == s.max
      && r.jitter[..|s.timestamp|] == s.jitter && r.errors[..|s.timestamp|] == s.errors
  {
    WindowAt(s.value + [sample], KernelTicks);
  }
}
