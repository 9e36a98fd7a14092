/**
 * The throughput cadence of the recording loop
 * (src/pypingrecorder.py:87-90, 137-146): a tick counter, incremented at
 * the top of every iteration, that triggers a speed test and resets to 0
 * once it exceeds the number of ticks in one speed interval.
 */
module Cadence {

  /** speed_interval_minutes (30) * 60 / ping_interval_seconds (1). */
  const SpeedIntervalTicks: nat := 1800

  /** The incremented counter exceeds the interval: this iteration runs a speed test. */
  predicate SpeedDue(count: nat)
  {
    count + 1 > SpeedIntervalTicks
  }

  /** The counter at the end of an iteration that started with `count`. */
  function NextCount(count: nat): (c: nat)
    requires count <= SpeedIntervalTicks
    ensures c <= SpeedIntervalTicks
    ensures SpeedDue(count) <==> c == 0
  {
    if SpeedDue(count) then 0 else count + 1
  }

  /** The counter after `n` iterations of the loop, starting from 0. */
  function CountAfter(n: nat): (c: nat)
    ensures c <= SpeedIntervalTicks
  {
    if n == 0 then 0 else NextCount(CountAfter(n - 1))
  }

  /** How many speed samples `n` iterations append, starting from a counter of 0. */
  function SamplesAfter(n: nat): nat
  {
    if n == 0 then 0
    else SamplesAfter(n - 1) + (if SpeedDue(CountAfter(n - 1)) then 1 else 0)
  }

  /** Every iteration either advances the counter or resets it and appends one sample. */
  lemma {:induction false} CadenceSplit(n: nat)
    ensures n == (SpeedIntervalTicks + 1) * SamplesAfter(n) + CountAfter(n)
  {
    if n > 0 {
      CadenceSplit(n - 1);
    }
  }

  /**
   * As written, the test `time_count > 1800` first holds on iteration 1801,
   * so the counter runs modulo 1801 and `n` iterations append `n / 1801`
   * speed samples: one every 1801 latency ticks, not every 1800.
   */
  lemma CadenceAfter(n: nat)
    ensures CountAfter(n) == n % (SpeedIntervalTicks + 1)
    ensures SamplesAfter(n) == n / (SpeedIntervalTicks + 1)
  {
    CadenceSplit(n);
    DivModOf(n, SamplesAfter(n), CountAfter(n));
  }

  /** Quotient and remainder by 1801 are determined by any decomposition with a remainder below 1801. */
  lemma DivModOf(n: nat, q: nat, r: nat)
    requires n == (SpeedIntervalTicks + 1) * q + r && r <= SpeedIntervalTicks
    ensures n / (SpeedIntervalTicks + 1) == q && n % (SpeedIntervalTicks + 1) == r
  {
  }

  /** Iteration `n + 1` runs a speed test exactly when `n + 1` is a multiple of 1801. */
  lemma SpeedDueOn(n: nat)
    ensures SpeedDue(CountAfter(n)) <==> (n + 1) % (SpeedIntervalTicks + 1) == 0
  {
    CadenceSplit(n);
    var q, r := SamplesAfter(n), CountAfter(n);
    if r == SpeedIntervalTicks {
      DivModOf(n + 1, q + 1, 0);
    } else {
      DivModOf(n + 1, q, r + 1);
    }
  }
}
