/**
 * The part of `numpy.histogram` the recorder's statistics rely on
 * (src/pypingrecorder.py:173-202), over exact reals: equal-width edges from
 * a range (or from the data's own minimum and maximum), a zero-width range
 * widened by half a unit on each side, half-open bins with a closed last
 * bin, and samples outside the outer edges not counted.
 */
module Histograms {
  import opened Smoothing

  /** Every histogram the recorder builds from a range has 50 bins. */
  const Bins: nat := 50

  ghost predicate Increasing(e: seq<real>)
  {
    forall i, j :: 0 <= i < j < |e| ==> e[i] < e[j]
  }

  /** The edges `lo + step * i` for `i` from 0 to `k`. */
  function Steps(lo: real, step: real, k: nat): (e: seq<real>)
    ensures |e| == k + 1 && e[0] == lo && e[k] == lo + step * (k as real)
  {
    if k == 0 then [lo] else Steps(lo, step, k - 1) + [lo + step * (k as real)]
  }

  lemma {:induction false} StepsAt(lo: real, step: real, k: nat, i: nat)
    requires i <= k
    ensures Steps(lo, step, k)[i] == lo + step * (i as real)
  {
    if i < k {
      StepsAt(lo, step, k - 1, i);
    }
  }

  /**
   * `numpy.linspace(lo, hi, n + 1)`: `n + 1` equally spaced edges from `lo`
   * to `hi`.
   */
  function Linspace(lo: real, hi: real, n: nat): (e: seq<real>)
    requires lo < hi && n > 0
    ensures |e| == n + 1 && e[0] == lo && e[n] == hi
  {
    Steps(lo, (hi - lo) / (n as real), n)
  }

  lemma StepsIncrease(lo: real, step: real, k: nat, i: nat, j: nat)
    requires step > 0.0 && i < j <= k
    ensures Steps(lo, step, k)[i] < Steps(lo, step, k)[j]
  {
    StepsAt(lo, step, k, i);
    StepsAt(lo, step, k, j);
    assert step * (j as real) - step * (i as real) == step * ((j - i) as real);
  }

  lemma PositiveQuotient(a: real, b: real)
    requires a > 0.0 && b > 0.0
    ensures a / b > 0.0
  {
  }

  /** The edges strictly increase, so no bin is empty or reversed. */
  lemma LinspaceIncreasing(lo: real, hi: real, n: nat)
    requires lo < hi && n > 0
    ensures Increasing(Linspace(lo, hi, n))
  {
    var step := (hi - lo) / (n as real);
    PositiveQuotient(hi - lo, n as real);
    var e := Steps(lo, step, n);
    assert Linspace(lo, hi, n) == e;
    forall i, j | 0 <= i < j < |e|
      ensures e[i] < e[j]
    {
      StepsIncrease(lo, step, n, i, j);
    }
  }

  /** The outer edges numpy uses for a range: a zero-width range is widened to width 1. */
  function OuterEdges(first: real, last: real): (r: (real, real))
    requires first <= last
    ensures r.0 < r.1 && r.0 <= first && last <= r.1
  {
    if first == last then (first - 0.5, last + 0.5) else (first, last)
  }

  /** `numpy.histogram(data, bins=n, range=(first, last))[1]`. */
  function RangeEdges(first: real, last: real, n: nat): (e: seq<real>)
    requires first <= last && n > 0
    ensures |e| == n + 1
    ensures e[0] <= first && last <= e[n]
    ensures first < last ==> e[0] == first && e[n] == last
    ensures first == last ==> e[0] == first - 0.5 && e[n] == last + 0.5
  {
    var (lo, hi) := OuterEdges(first, last);
    Linspace(lo, hi, n)
  }

  lemma RangeEdgesIncreasing(first: real, last: real, n: nat)
    requires first <= last && n > 0
    ensures Increasing(RangeEdges(first, last, n))
  {
    var (lo, hi) := OuterEdges(first, last);
    LinspaceIncreasing(lo, hi, n);
  }

  /**
   * `numpy.histogram(data, bins=n)[1]`: the range is the data's own minimum
   * and maximum, or (0, 1) when there is no data.
   */
  function DataEdges(data: seq<real>, n: nat): (e: seq<real>)
    requires n > 0
    ensures |e| == n + 1
  {
    if data == [] then Linspace(0.0, 1.0, n)
    else
      MinAtMostMax(data);
      RangeEdges(Min(data), Max(data), n)
  }

  /** Edges taken from the data increase and enclose every sample. */
  lemma DataEdgesEnclose(data: seq<real>, n: nat)
    requires n > 0
    ensures Increasing(DataEdges(data, n))
    ensures var e := DataEdges(data, n);
      forall i :: 0 <= i < |data| ==> e[0] <= data[i] <= e[n]
  {
    if data == [] {
      LinspaceIncreasing(0.0, 1.0, n);
    } else {
      MinIsMinimum(data);
      MaxIsMaximum(data);
      RangeEdgesIncreasing(Min(data), Max(data), n);
    }
  }

  /** Does `x` fall into the bin from `lo` to `hi` (closed on the right when `closed`)? */
  predicate InBin(x: real, lo: real, hi: real, closed: bool)
  {
    lo <= x && (x < hi || (closed && x == hi))
  }

  /** Number of samples of `data` that fall into one bin. */
  function CountIn(data: seq<real>, lo: real, hi: real, closed: bool): (c: nat)
    ensures c <= |data|
  {
    if data == [] then 0
    else CountIn(data[..|data| - 1], lo, hi, closed)
         + (if InBin(data[|data| - 1], lo, hi, closed) then 1 else 0)
  }

  /**
   * `numpy.histogram(data, bins=edges)[0]`: one count per bin; bins are
   * half-open except the last, which also takes samples equal to the last
   * edge.
   */
  function Histogram(data: seq<real>, edges: seq<real>): (h: seq<nat>)
    requires |edges| >= 2
    ensures |h| == |edges| - 1
    decreases |edges|
  {
    if |edges| == 2 then [CountIn(data, edges[0], edges[1], true)]
    else [CountIn(data, edges[0], edges[1], false)] + Histogram(data, edges[1..])
  }

  function SumNat(s: seq<nat>): nat
  {
    if s == [] then 0 else s[0] + SumNat(s[1..])
  }

  // ---------------------------------------------------------------------
  // Lemmas
  // ---------------------------------------------------------------------

  /**
   * Bin `i` counts the samples from `edges[i]` up to `edges[i + 1]`,
   * excluded except for the last bin.
   */
  lemma {:induction false} HistogramAt(data: seq<real>, edges: seq<real>, i: nat)
    requires |edges| >= 2 && i < |edges| - 1
    ensures Histogram(data, edges)[i] == CountIn(data, edges[i], edges[i + 1], i == |edges| - 2)
    decreases |edges|
  {
    if i > 0 {
      HistogramAt(data, edges[1..], i - 1);
    }
  }

  /** A bin can be split at any point in between into a half-open bin and the rest. */
  lemma {:induction false} CountInSplit(data: seq<real>, lo: real, mid: real, hi: real, closed: bool)
    requires lo <= mid <= hi
    ensures CountIn(data, lo, hi, closed)
         == CountIn(data, lo, mid, false) + CountIn(data, mid, hi, closed)
  {
    if data != [] {
      CountInSplit(data[..|data| - 1], lo, mid, hi, closed);
    }
  }

  /** If every sample lies within `[lo, hi]`, a closed bin over it counts them all. */
  lemma {:induction false} CountInAll(data: seq<real>, lo: real, hi: real)
    requires forall i :: 0 <= i < |data| ==> lo <= data[i] <= hi
    ensures CountIn(data, lo, hi, true) == |data|
  {
    if data != [] {
      CountInAll(data[..|data| - 1], lo, hi);
    }
  }

  /**
   * Over increasing edges a histogram neither loses nor double-counts a
   * sample: its counts add up to the number of samples between the first
   * and the last edge (both included).
   */
  lemma {:induction false} HistogramTotal(data: seq<real>, edges: seq<real>)
    requires |edges| >= 2 && Increasing(edges)
    ensures SumNat(Histogram(data, edges)) == CountIn(data, edges[0], edges[|edges| - 1], true)
    decreases |edges|
  {
    var h := Histogram(data, edges);
    if |edges| == 2 {
      assert h[1..] == [];
    } else {
      var rest := edges[1..];
      HistogramTotal(data, rest);
      assert h[1..] == Histogram(data, rest);
      CountInSplit(data, edges[0], edges[1], edges[|edges| - 1], true);
    }
  }

  /** Hence: when every sample lies within the outer edges, the counts add up to the sample count. */
  lemma HistogramCountsAll(data: seq<real>, edges: seq<real>)
    requires |edges| >= 2 && Increasing(edges)
    requires forall i :: 0 <= i < |data| ==> edges[0] <= data[i] <= edges[|edges| - 1]
    ensures SumNat(Histogram(data, edges)) == |data|
  {
    HistogramTotal(data, edges);
    CountInAll(data, edges[0], edges[|edges| - 1]);
  }

  /** A histogram of one sample counts it exactly when it lies within the outer edges. */
  lemma HistogramOfOne(x: real, edges: seq<real>)
    requires |edges| >= 2 && Increasing(edges)
    ensures SumNat(Histogram([x], edges)) == if edges[0] <= x <= edges[|edges| - 1] then 1 else 0
  {
    HistogramTotal([x], edges);
    assert [x][..0] == [];
  }
}
