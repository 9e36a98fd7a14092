/**
 * The per-tick smoothing and error-detection engine of the ping recorder
 * (src/pypingrecorder.py, lines 118-131): for one host, the last few raw
 * latency samples are reduced to an (avg, max, jitter, error score) tuple.
 *
 * Latencies are exact reals (no IEEE rounding). A raw value of 0 is the
 * sentinel the measurement collaborator returns for a failed ping.
 */
module Smoothing {

  /** A raw latency sample in milliseconds; 0 means "the ping failed". */
  type Latency = r: real | r >= 0.0

  /** Each failed sample in a window adds this much to the error score. */
  const ErrorWeight: nat := 10

  /** Length of the smoothing window in ticks: ping_kernel_seconds (10) / ping_interval_seconds (1). */
  const KernelTicks: nat := 10

  /** The smoothed summary appended to a host's series on every tick. */
  datatype Smoothed = Smoothed(avg: real, max: real, jitter: real, errors: nat)

  // ---------------------------------------------------------------------
  // Windows
  // ---------------------------------------------------------------------

  /**
   * Python's `xs[-n:]` for a non-negative `n`: the last `n` elements, the
   * whole list when `n` is at least its length, and -- because `-0` is `0` --
   * also the whole list when `n` is zero.
   */
  function TakeLast<T>(xs: seq<T>, n: nat): (r: seq<T>)
    ensures |r| == if n == 0 || n >= |xs| then |xs| else n
  {
    if n == 0 || n >= |xs| then xs else xs[|xs| - n..]
  }

  /** `TakeLast` keeps the tail of the list, in order. */
  lemma TakeLastAt<T>(xs: seq<T>, n: nat)
    ensures var r := TakeLast(xs, n);
      forall i :: 0 <= i < |r| ==> r[i] == xs[|xs| - |r| + i]
  {
  }

  /**
   * The trailing window `values[-int(min(len(values), kernel)):]`. Whenever
   * the kernel is at least one tick, the window has exactly
   * `min(|values|, kernel)` elements, so the `-0` quirk of `TakeLast` only
   * ever applies to an empty list.
   */
  function Window<T>(values: seq<T>, kernel: nat): (r: seq<T>)
    ensures |r| <= |values|
    ensures kernel >= 1 ==> |r| == if |values| < kernel then |values| else kernel
  {
    TakeLast(values, if |values| < kernel then |values| else kernel)
  }

  /** The window is the tail of the values and, when not empty, ends with the newest value. */
  lemma WindowAt<T>(values: seq<T>, kernel: nat)
    ensures var r := Window(values, kernel);
      && (forall i :: 0 <= i < |r| ==> r[i] == values[|values| - |r| + i])
      && (kernel >= 1 && |values| > 0 ==> r[|r| - 1] == values[|values| - 1])
  {
  }

  // ---------------------------------------------------------------------
  // Reductions over a window (numpy's max, min, mean, count_nonzero)
  // ---------------------------------------------------------------------

  function Max(s: seq<real>): real
    requires |s| > 0
  {
    if |s| == 1 then s[0]
    else
      var m := Max(s[..|s| - 1]);
      if s[|s| - 1] > m then s[|s| - 1] else m
  }

  function Min(s: seq<real>): real
    requires |s| > 0
  {
    if |s| == 1 then s[0]
    else
      var m := Min(s[..|s| - 1]);
      if s[|s| - 1] < m then s[|s| - 1] else m
  }

  function Sum(s: seq<real>): real
  {
    if s == [] then 0.0 else Sum(s[..|s| - 1]) + s[|s| - 1]
  }

  function Mean(s: seq<real>): real
    requires |s| > 0
  {
    Sum(s) / (|s| as real)
  }

  /** Number of failed (zero) samples in `s`. */
  function CountZeros(s: seq<real>): nat
  {
    if s == [] then 0
    else CountZeros(s[..|s| - 1]) + (if s[|s| - 1] == 0.0 then 1 else 0)
  }

  /** `Max` is the window's maximum: one of its samples, and no sample exceeds it. */
  lemma {:induction false} MaxIsMaximum(s: seq<real>)
    requires |s| > 0
    ensures Max(s) in s
    ensures forall i :: 0 <= i < |s| ==> s[i] <= Max(s)
  {
    if |s| > 1 {
      var p := s[..|s| - 1];
      MaxIsMaximum(p);
      assert forall i :: 0 <= i < |p| ==> s[i] == p[i];
    }
  }

  /** `Min` is the window's minimum: one of its samples, and no sample is below it. */
  lemma {:induction false} MinIsMinimum(s: seq<real>)
    requires |s| > 0
    ensures Min(s) in s
    ensures forall i :: 0 <= i < |s| ==> Min(s) <= s[i]
  {
    if |s| > 1 {
      var p := s[..|s| - 1];
      MinIsMinimum(p);
      assert forall i :: 0 <= i < |p| ==> s[i] == p[i];
    }
  }

  lemma MinAtMostMax(s: seq<real>)
    requires |s| > 0
    ensures Min(s) <= Max(s)
  {
    MinIsMinimum(s);
    MaxIsMaximum(s);
  }

  /** `CountZeros` is 0 exactly without failures and `|s|` exactly when every sample failed. */
  lemma {:induction false} CountZerosBounds(s: seq<real>)
    ensures CountZeros(s) <= |s|
    ensures CountZeros(s) == 0 <==> forall i :: 0 <= i < |s| ==> s[i] != 0.0
    ensures CountZeros(s) == |s| <==> forall i :: 0 <= i < |s| ==> s[i] == 0.0
  {
    if s != [] {
      var p := s[..|s| - 1];
      CountZerosBounds(p);
      assert forall i :: 0 <= i < |p| ==> s[i] == p[i];
    }
  }

  /** `CountZeros` is the multiplicity of the failure sentinel 0 in the window. */
  lemma {:induction false} CountZerosIsMultiplicity(s: seq<real>)
    ensures CountZeros(s) == multiset(s)[0.0]
  {
    if s != [] {
      var p := s[..|s| - 1];
      CountZerosIsMultiplicity(p);
      assert s == p + [s[|s| - 1]];
    }
  }

  /** `np.where(data != 0, data, fill)`: every failed sample replaced by `fill`. */
  function Mask(s: seq<real>, fill: real): (r: seq<real>)
    ensures |r| == |s|
    ensures forall i :: 0 <= i < |s| ==> r[i] == (if s[i] == 0.0 then fill else s[i])
  {
    seq(|s|, i requires 0 <= i < |s| => if s[i] == 0.0 then fill else s[i])
  }

  // ---------------------------------------------------------------------
  // The smoothing tuple
  // ---------------------------------------------------------------------

  /**
   * The sample set the avg and min are taken over: when the window holds a
   * failed sample, every failed sample is masked with the window's maximum
   * (taken before masking).
   */
  function Masked(w: seq<real>): (r: seq<real>)
    requires |w| > 0
    ensures |r| == |w|
  {
    if CountZeros(w) * ErrorWeight > 0 then Mask(w, Max(w)) else w
  }

  /**
   * Masking replaces exactly the failed samples by the window's maximum;
   * when no sample failed, skipping the mask changes nothing.
   */
  lemma MaskedAt(w: seq<real>)
    requires |w| > 0
    ensures |Masked(w)| == |w|
    ensures forall i :: 0 <= i < |w| ==> Masked(w)[i] == (if w[i] == 0.0 then Max(w) else w[i])
  {
    CountZerosBounds(w);
  }

  /**
   * One host's smoothing result for the window ending at the sample just
   * appended, with the error score counted element-wise (ten per failed
   * sample).
   */
  function Smooth(w: seq<Latency>): (r: Smoothed)
    requires |w| > 0
    ensures r.errors == ErrorWeight * multiset(w)[0.0]
  {
    CountZerosIsMultiplicity(w);
    var errors := CountZeros(w) * ErrorWeight;
    var dataMax := Max(w);
    var data := Masked(w);
    Smoothed(Mean(data), dataMax, dataMax - Min(data), errors)
  }

  /**
   * The smoothing tuple as src/pypingrecorder.py:124-131 computes it: `data`
   * is a Python list, so `data == 0` is the scalar `False`,
   * `np.count_nonzero(False)` is 0, the error score is always 0 and the
   * masking branch never runs; min and mean include the failed samples.
   */
  function SmoothAsWritten(w: seq<Latency>): (r: Smoothed)
    requires |w| > 0
    ensures r.errors == 0
  {
    var dataMax := Max(w);
    Smoothed(Mean(w), dataMax, dataMax - Min(w), 0)
  }

  // ---------------------------------------------------------------------
  // Lemmas
  // ---------------------------------------------------------------------

  lemma {:induction false} SumBounds(s: seq<real>, lo: real, hi: real)
    requires forall i :: 0 <= i < |s| ==> lo <= s[i] <= hi
    ensures (|s| as real) * lo <= Sum(s) <= (|s| as real) * hi
  {
    if s != [] {
      SumBounds(s[..|s| - 1], lo, hi);
    }
  }

  /** The mean of a non-empty window lies within any bounds of its samples. */
  lemma MeanWithin(s: seq<real>, lo: real, hi: real)
    requires |s| > 0
    requires forall i :: 0 <= i < |s| ==> lo <= s[i] <= hi
    ensures lo <= Mean(s) <= hi
  {
    var n := |s| as real;
    SumBounds(s, lo, hi);
    DivBetween(Sum(s), n, lo, hi);
  }

  /** In particular, between its minimum and maximum. */
  lemma MeanBetween(s: seq<real>)
    requires |s| > 0
    ensures Min(s) <= Mean(s) <= Max(s)
  {
    MinIsMinimum(s);
    MaxIsMaximum(s);
    MeanWithin(s, Min(s), Max(s));
  }

  lemma DivBetween(x: real, n: real, lo: real, hi: real)
    requires n > 0.0 && n * lo <= x <= n * hi
    ensures lo <= x / n <= hi
  {
    var q := x / n;
    assert x == n * q;
    assert n * (q - lo) >= 0.0;
    assert n * (hi - q) >= 0.0;
  }

  /** Masking with the window's own maximum leaves that maximum unchanged. */
  lemma MaskedMax(w: seq<real>)
    requires |w| > 0
    ensures Max(Masked(w)) == Max(w)
  {
    var m := Masked(w);
    MaskedAt(w);
    MaxIsMaximum(w);
    MaxIsMaximum(m);
    var k :| 0 <= k < |m| && m[k] == Max(m);
    var j :| 0 <= j < |w| && w[j] == Max(w);
    assert m[j] == Max(w);
  }

  /**
   * The error score is ten per failed sample: 0 exactly when no ping in
   * the window failed, `10 * |w|` exactly when all of them failed. The max
   * is taken before masking: a sample of the window that no sample exceeds.
   */
  lemma SmoothErrorScore(w: seq<Latency>)
    requires |w| > 0
    ensures var r := Smooth(w);
      && r.errors == ErrorWeight * multiset(w)[0.0]
      && r.errors % ErrorWeight == 0 && r.errors <= ErrorWeight * |w|
      && (r.errors == 0 <==> forall i :: 0 <= i < |w| ==> w[i] != 0.0)
      && (r.errors == ErrorWeight * |w| <==> forall i :: 0 <= i < |w| ==> w[i] == 0.0)
      && r.max in w && forall i :: 0 <= i < |w| ==> w[i] <= r.max
  {
    CountZerosBounds(w);
    MaxIsMaximum(w);
  }

  /**
   * For non-negative raw samples the smoothed values are ordered:
   * 0 <= min <= avg <= max and 0 <= jitter <= max, where min = max - jitter
   * is the minimum of the masked window: one of its samples, and no sample
   * of it is smaller.
   */
  lemma SmoothBounds(w: seq<Latency>)
    requires |w| > 0
    ensures var r := Smooth(w);
      && 0.0 <= r.max - r.jitter <= r.avg <= r.max
      && 0.0 <= r.jitter <= r.max
      && r.max - r.jitter in Masked(w)
      && forall i :: 0 <= i < |w| ==> r.max - r.jitter <= Masked(w)[i]
  {
    var m := Masked(w);
    MaskedAt(w);
    MaskedMax(w);
    MeanBetween(m);
    MaxIsMaximum(w);
    MinIsMinimum(m);
    var k :| 0 <= k < |m| && m[k] == Min(m);
    assert m[k] >= 0.0;
  }

  /**
   * The degenerate all-failed window: max 0, jitter 0, avg 0 and the full
   * error score of ten per sample.
   */
  lemma {:induction false} SmoothAllFailed(w: seq<Latency>)
    requires |w| > 0
    requires forall i :: 0 <= i < |w| ==> w[i] == 0.0
    ensures Smooth(w) == Smoothed(0.0, 0.0, 0.0, ErrorWeight * |w|)
  {
    var m := Masked(w);
    MaskedAt(w);
    MaxIsMaximum(w);
    CountZerosBounds(w);
    assert forall i :: 0 <= i < |m| ==> m[i] == 0.0;
    MinIsMinimum(m);
    SumBounds(m, 0.0, 0.0);
  }

  /**
   * Masking hides failures: if the window holds at least one successful
   * sample, the minimum behind the jitter (max - jitter) is a successful
   * sample of the window, never the 0 sentinel.
   */
  lemma SmoothMasksFailures(w: seq<Latency>)
    requires |w| > 0
    requires exists i :: 0 <= i < |w| && w[i] != 0.0
    ensures var r := Smooth(w); r.max - r.jitter in w && r.max - r.jitter > 0.0
  {
    var m := Masked(w);
    var i :| 0 <= i < |w| && w[i] != 0.0;
    MaskedAt(w);
    MaxIsMaximum(w);
    MinIsMinimum(m);
    var k :| 0 <= k < |m| && m[k] == Min(m);
    if w[k] == 0.0 {
      assert m[k] == Max(w);
    } else {
      assert m[k] == w[k];
    }
  }

  /**
   * Without a failed sample in the window, the intended and the as-written
   * tuples agree: the error-score defect only shows once a ping fails.
   */
  lemma SmoothAgreesWithoutFailures(w: seq<Latency>)
    requires |w| > 0
    requires forall i :: 0 <= i < |w| ==> w[i] != 0.0
    ensures Smooth(w) == SmoothAsWritten(w)
  {
    CountZerosBounds(w);
  }

  /** The worked example window and its masked form. */
  const ExampleWindow: seq<Latency> := [10.0, 0.0, 20.0, 0.0, 15.0]
  const ExampleMasked: seq<real> := [10.0, 20.0, 20.0, 20.0, 15.0]

  lemma ExampleCounts()
    ensures CountZeros(ExampleWindow) == 2
    ensures Max(ExampleWindow) == 20.0 && Min(ExampleWindow) == 0.0
  {
    var w := ExampleWindow;
    assert w[..4] == [10.0, 0.0, 20.0, 0.0];
    assert w[..4][..3] == [10.0, 0.0, 20.0];
    assert w[..4][..3][..2] == [10.0, 0.0];
    assert w[..4][..3][..2][..1] == [10.0];
    assert [10.0][..0] == [];
    assert CountZeros([10.0]) == 0;
    assert CountZeros([10.0, 0.0]) == 1;
    assert CountZeros([10.0, 0.0, 20.0]) == 1;
    assert CountZeros([10.0, 0.0, 20.0, 0.0]) == 2;
    MaxIsMaximum(w);
    MinIsMinimum(w);
  }

  lemma ExampleMaskedFacts()
    ensures Masked(ExampleWindow) == ExampleMasked
    ensures Min(ExampleMasked) == 10.0 && Sum(ExampleMasked) == 85.0
  {
    ExampleCounts();
    MaskedAt(ExampleWindow);
    var m := ExampleMasked;
    assert Masked(ExampleWindow) == m;
    MinIsMinimum(m);
    assert m[..4] == [10.0, 20.0, 20.0, 20.0];
    assert m[..4][..3] == [10.0, 20.0, 20.0];
    assert m[..4][..3][..2] == [10.0, 20.0];
    assert m[..4][..3][..2][..1] == [10.0];
    assert [10.0][..0] == [];
    assert Sum([10.0]) == 10.0;
    assert Sum([10.0, 20.0]) == 30.0;
    assert Sum([10.0, 20.0, 20.0]) == 50.0;
    assert Sum([10.0, 20.0, 20.0, 20.0]) == 70.0;
  }

  /**
   * The worked example: window [10, 0, 20, 0, 15] gives error score 20,
   * max 20 (before masking), masked window [10, 20, 20, 20, 15], avg 17 and
   * jitter 10.
   */
  lemma SmoothExample()
    ensures Smooth(ExampleWindow) == Smoothed(17.0, 20.0, 10.0, 20)
  {
    ExampleCounts();
    ExampleMaskedFacts();
    assert Mean(ExampleMasked) == 85.0 / 5.0;
  }

  /**
   * The same window as written in the source: error score 0, avg 9 and
   * jitter 20, because the failed samples count as 0 ms latencies.
   */
  lemma SmoothAsWrittenExample()
    ensures SmoothAsWritten(ExampleWindow) == Smoothed(9.0, 20.0, 20.0, 0)
  {
    ExampleCounts();
    var w := ExampleWindow;
    assert w[..4] == [10.0, 0.0, 20.0, 0.0];
    assert w[..4][..3] == [10.0, 0.0, 20.0];
    assert w[..4][..3][..2] == [10.0, 0.0];
    assert w[..4][..3][..2][..1] == [10.0];
    assert [10.0][..0] == [];
    assert Sum([10.0]) == 10.0;
    assert Sum([10.0, 0.0]) == 10.0;
    assert Sum([10.0, 0.0, 20.0]) == 30.0;
    assert Sum([10.0, 0.0, 20.0, 0.0]) == 30.0;
    assert Sum(w) == 45.0;
  }
}
