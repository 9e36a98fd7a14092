/**
 * The window arithmetic behind `compute_statistics`
 * (src/pypingrecorder.py:150-202): the trailing statistics window and the
 * range maximum shared by every host's latency histograms.
 */
module Statistics {
  import opened Smoothing

  /** Latency statistics window: statistics_kernel_hours (0.5) * 3600 / ping_interval_seconds (1). */
  const StatsWindowTicks: nat := 1800

  /** Throughput statistics window: statistics_kernel_hours (0.5) * 60 / speed_interval_minutes (30). */
  const SpeedStatsWindowTicks: nat := 1

  /**
   * The loop at lines 154-164: start from 0 and raise the range maximum to
   * each host's window maximum in turn, skipping hosts whose window is
   * empty.
   */
  function RangeMax(windows: seq<seq<real>>): (r: real)
    ensures r >= 0.0
  {
    if windows == [] then 0.0
    else
      var acc := RangeMax(windows[..|windows| - 1]);
      var w := windows[|windows| - 1];
      if |w| > 0 && Max(w) > acc then Max(w) else acc
  }

  /**
   * The range bounds every value of every window, and it is 0 or one of
   * those values.
   */
  lemma {:induction false} RangeMaxBounds(windows: seq<seq<real>>)
    ensures var r := RangeMax(windows);
      && (forall k, i :: 0 <= k < |windows| && 0 <= i < |windows[k]| ==> windows[k][i] <= r)
      && (r == 0.0 || exists k, i :: 0 <= k < |windows| && 0 <= i < |windows[k]| && windows[k][i] == r)
  {
    if windows != [] {
      var p := windows[..|windows| - 1];
      RangeMaxBounds(p);
      assert forall k :: 0 <= k < |p| ==> p[k] == windows[k];
      var w := windows[|windows| - 1];
      if |w| > 0 {
        MaxIsMaximum(w);
      }
    }
  }

  /** A host with an empty window does not move the shared range. */
  lemma RangeMaxIgnoresEmpty(windows: seq<seq<real>>)
    ensures RangeMax(windows + [[]]) == RangeMax(windows)
  {
    assert (windows + [[]])[..|windows|] == windows;
  }

  /**
   * The range is the least upper bound of 0 and every window value: any
   * bound that is at least 0 and at least every value is at least
   * `RangeMax`.
   */
  lemma RangeMaxIsLeast(windows: seq<seq<real>>, b: real)
    requires b >= 0.0
    requires forall k, i :: 0 <= k < |windows| && 0 <= i < |windows[k]| ==> windows[k][i] <= b
    ensures RangeMax(windows) <= b
  {
    var r := RangeMax(windows);
    RangeMaxBounds(windows);
    if r != 0.0 {
      var k, i :| 0 <= k < |windows| && 0 <= i < |windows[k]| && windows[k][i] == r;
    }
  }

  /**
   * Range sharing: with host A's trailing max window [5, 10] and host B's
   * [20, 30], both hosts' histograms span [0, 30].
   */
  lemma RangeMaxExample()
    ensures RangeMax([[5.0, 10.0], [20.0, 30.0]]) == 30.0
  {
    var ws: seq<seq<real>> := [[5.0, 10.0], [20.0, 30.0]];
    assert ws[..1] == [[5.0, 10.0]];
    assert |ws[..1][..0]| == 0;
    assert Max([5.0, 10.0]) == 10.0 by {
      assert [5.0, 10.0][..1] == [5.0];
    }
    assert Max([20.0, 30.0]) == 30.0 by {
      assert [20.0, 30.0][..1] == [20.0];
    }
  }
}
