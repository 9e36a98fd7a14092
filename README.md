# PingRecorder, modelled in Dafny

`src/pypingrecorder.py` is a small network monitor. A `PingRecorder` pings three hosts
(`google.com`, `example.com`, `openai.com`) once per second. On each tick it
appends the raw latency to a per-host history. It also appends a smoothed
tuple (average, maximum, jitter, error score) computed over the last ten
raw samples, and it runs a throughput test (download and upload in Mbps)
every 1801 ticks. Before each tick it drops entries older
than 240 hours from the front of every history. On demand,
`compute_statistics` builds histograms from a trailing window of the
history:

- 50 bins per host for the max, avg and jitter series, over one range
  `(0, rng_max)` shared by all hosts;
- 50 bins for download, over the download window's own range;
- the upload window, counted over the download edges.

The model has six modules:

| module | file | what it holds |
|---|---|---|
| `Smoothing` | `smoothing.dfy` | the per-tick smoothing of one window of raw samples: the intended tuple and the one the code computes |
| `Series` | `series.dfy` | the parallel-list histories, the retention pass as a function, one tick's append, and their invariants |
| `Cadence` | `cadence.dfy` | the tick counter that schedules throughput tests |
| `Histograms` | `histograms.dfy` | the part of `numpy.histogram` the statistics use, over exact reals |
| `Statistics` | `statistics.dfy` | the shared range maximum over all hosts' trailing windows |
| `Recorder` | `recorder.dfy` | the `PingRecorder` class: `Step` is one iteration of `record_data`; `ComputeStatistics` is `compute_statistics` |

Each method of the class is proved against a specification function. For
example, `Step` leaves `ping == TickAll(EvictAll(old(ping), Cutoff(now)), now, probe)`.
The lemmas then state what those functions guarantee:

- the retention pass only pops stale entries from the front;
- every stored tuple satisfies `0 <= avg <= max` and `0 <= jitter <= max`;
- every latency histogram counts every sample of its window;
- throughput tests run once every 1801 ticks.

## Model

| member | source | states |
|---|---|---|
| `Smoothing.TakeLast` | src/pypingrecorder.py:124 | `xs[-n:]` is `n` long when `0 < n <= len(xs)`, and as long as the whole list when `n == 0` (because `-0` slices from the start) or when `n` exceeds the length |
| `Smoothing.TakeLastAt` | src/pypingrecorder.py:124 | element `i` of `xs[-n:]` is element `len(xs) - len(result) + i` of `xs`, so the slice is the list's trailing part |
| `Smoothing.Window` | src/pypingrecorder.py:118-124 | the smoothing window is `min(len(values), 10)` long, and never longer than the raw list |
| `Smoothing.WindowAt` | src/pypingrecorder.py:118-124 | the window is the trailing part of the raw values, and its last element is the newest sample |
| `Smoothing.MaxIsMaximum` | src/pypingrecorder.py:126 | `np.max` of a non-empty window is one of its elements and no element exceeds it |
| `Smoothing.MinIsMinimum` | src/pypingrecorder.py:129 | `np.min` of a non-empty window is one of its elements and no element is below it |
| `Smoothing.CountZerosBounds` | src/pypingrecorder.py:125 | the failed-sample count is at most the window length; it is 0 exactly when no sample is 0, and the full length exactly when all are |
| `Smoothing.MeanBetween` | src/pypingrecorder.py:130 | the mean of a non-empty window lies between its minimum and its maximum |
| `Smoothing.Mask` | src/pypingrecorder.py:128 | `np.where(data != 0, data, fill)`: every 0 sample is replaced by `fill` and every other sample is kept, position by position |
| `Smoothing.MaskedAt` | src/pypingrecorder.py:125-128 | the masked window has the window's length; a failed sample becomes the window maximum if any sample failed, and every other sample is kept |
| `Smoothing.MaskedMax` | src/pypingrecorder.py:126-128 | masking with the window's own maximum leaves the maximum unchanged |
| `Smoothing.CountZerosIsMultiplicity` | src/pypingrecorder.py:125 | the failed-sample count is the number of occurrences of the sentinel 0 in the window |
| `Smoothing.Masked` | src/pypingrecorder.py:127-128 | the masked window is as long as the window (its contents are stated by `MaskedAt`) |
| `Smoothing.Smooth` | src/pypingrecorder.py:124-131 | the intended tuple: its error score is ten times the number of 0 samples in the window (its other fields are stated by the lemmas below) |
| `Smoothing.SmoothAsWritten` | src/pypingrecorder.py:124-131 | the tuple as the code computes it: the error score is 0 whatever the window holds |
| `Smoothing.SmoothErrorScore` | src/pypingrecorder.py:125-126 | the error score is exactly ten times the number of failed samples, so it is 0 iff no ping failed and `10 * len` iff all failed; max is an element of the window that no element exceeds |
| `Smoothing.SmoothBounds` | src/pypingrecorder.py:125-131 | for every non-empty window, `0 <= min <= avg <= max` and `0 <= jitter <= max`, where `min = max - jitter` is the minimum of the masked window: one of its samples, and no sample of it is smaller |
| `Smoothing.SmoothAllFailed` | src/pypingrecorder.py:125-131 | a window of only failed pings gives avg 0, max 0, jitter 0 and error score `10 * len` |
| `Smoothing.SmoothMasksFailures` | src/pypingrecorder.py:127-131 | if one ping in the window succeeded, the minimum behind the jitter is a successful sample (positive), never the 0 sentinel |
| `Smoothing.SmoothAgreesWithoutFailures` | src/pypingrecorder.py:124-131 | without a failed ping in the window, the corrected and the as-written smoothing give the same tuple |
| `Smoothing.SmoothExample` | src/pypingrecorder.py:124-131 | the corrected smoothing of `[10, 0, 20, 0, 15]` is avg 17, max 20, jitter 10, error score 20 |
| `Smoothing.SmoothAsWrittenExample` | src/pypingrecorder.py:124-131 | the smoothing as written, on the same window: avg 9, max 20, jitter 20, error score 0 |
| `Series.StaleCount` | src/pypingrecorder.py:97-103 | the number of entries the retention loop pops: everything before it is older than the cutoff, and the entry at it (if any) is not |
| `Series.PingSeries.Drop` | src/pypingrecorder.py:98-103 | popping `k` entries from all six lists keeps them of equal length, shortens them by `k`, and keeps stored tuples within bounds |
| `Series.PingSeries.Tick` | src/pypingrecorder.py:113-135 | one tick keeps the six lists of equal length, makes them one longer, and appends exactly `now` and the raw sample to the timestamp and value lists |
| `Series.EvictPing` | src/pypingrecorder.py:92-103 | the retention pass keeps a host history well formed and its stored tuples within bounds |
| `Series.EvictPingPopsStale` | src/pypingrecorder.py:92-103 | the pass removes a prefix of the history made only of stale entries, after which the history is empty or starts at or after the cutoff; a fresh or empty history is unchanged |
| `Series.SpeedSeries.Drop` | src/pypingrecorder.py:109-111 | popping `k` entries from the three throughput lists keeps them of equal length and shortens them by `k` |
| `Series.SpeedSeries.Append` | src/pypingrecorder.py:144-146 | a throughput sample keeps the three lists of equal length and makes them one longer |
| `Series.EvictSpeed` | src/pypingrecorder.py:104-111 | the retention pass keeps the throughput history well formed |
| `Series.EvictSpeedPopsStale` | src/pypingrecorder.py:104-111 | as for a host: only a stale prefix is removed, the result is empty or starts at or after the cutoff, and a fresh or empty history is unchanged |
| `Series.EvictSortedIsFilter` | src/pypingrecorder.py:92-103 | on a time-ordered history the pass is a filter: every dropped entry is older than the cutoff and every kept entry is not |
| `Series.EvictPingKeepsSorted` | src/pypingrecorder.py:92-103 | popping a stale prefix keeps a time-ordered history time-ordered |
| `Series.StaleCountIdempotent` | src/pypingrecorder.py:97-103 | after one pass, a second pass with the same cutoff pops nothing |
| `Series.EvictPingIdempotent` | src/pypingrecorder.py:92-103 | evicting twice with the same cutoff is evicting once |
| `Series.AppendKeepsBounds` | src/pypingrecorder.py:132-134 | appending a tuple within the bounds to lists within the bounds keeps them within the bounds |
| `Series.TickKeepsBounded` | src/pypingrecorder.py:113-135 | a tick keeps every stored tuple within `0 <= avg <= max` and `0 <= jitter <= max` |
| `Series.AppendKeepsSorted` | src/pypingrecorder.py:116 | appending a timestamp no earlier than every stored one keeps the list time-ordered |
| `Series.TickKeepsSorted` | src/pypingrecorder.py:113-116 | a tick stamped no earlier than the newest entry keeps the history time-ordered |
| `Series.TickAppendsSmoothed` | src/pypingrecorder.py:116-135 | the appended tuple is the smoothing of the trailing `min(len, 10)` raw values, which end with the new sample; the earlier tuples are unchanged |
| `Cadence.NextCount` | src/pypingrecorder.py:137-141 | the counter stays within `0..1800`, and it resets to 0 exactly on the iterations that run a throughput test |
| `Cadence.CountAfter` | src/pypingrecorder.py:87-141 | the counter after `n` iterations from 0 is at most 1800 |
| `Cadence.CadenceSplit` | src/pypingrecorder.py:87-146 | `n` iterations are `1801 * samples + counter`: each iteration either advances the counter or resets it and appends one sample |
| `Cadence.CadenceAfter` | src/pypingrecorder.py:87-146 | after `n` iterations the counter is `n mod 1801`, and `n div 1801` throughput samples have been appended |
| `Cadence.DivModOf` | src/pypingrecorder.py:137-141 | any decomposition `1801 * q + r` with `r <= 1800` fixes the quotient and the remainder by 1801 |
| `Cadence.SpeedDueOn` | src/pypingrecorder.py:140 | iteration `n + 1` runs a throughput test exactly when `n + 1` is a multiple of 1801 |
| `Statistics.RangeMax` | src/pypingrecorder.py:154-164 | the shared range starts from 0 and never goes below it |
| `Statistics.RangeMaxBounds` | src/pypingrecorder.py:154-164 | the shared range bounds every value of every host's window, and it is 0 or one of those values |
| `Statistics.RangeMaxIgnoresEmpty` | src/pypingrecorder.py:163 | a host with an empty window does not change the range |
| `Statistics.RangeMaxIsLeast` | src/pypingrecorder.py:154-164 | the range is the least bound that is at least 0 and at least every window value |
| `Statistics.RangeMaxExample` | src/pypingrecorder.py:154-164 | windows `[5, 10]` and `[20, 30]` share the range 30 |
| `Histograms.Steps` | src/pypingrecorder.py:173-175 | `k + 1` edges from `lo`, the last one `lo + step * k` |
| `Histograms.StepsAt` | src/pypingrecorder.py:173-175 | edge `i` is `lo + step * i` |
| `Histograms.Linspace` | src/pypingrecorder.py:173-175 | `n + 1` edges whose first is `lo` and last is `hi` |
| `Histograms.StepsIncrease` | src/pypingrecorder.py:173-175 | with a positive step, a later edge is strictly greater |
| `Histograms.LinspaceIncreasing` | src/pypingrecorder.py:173-175 | the edges strictly increase |
| `Histograms.OuterEdges` | src/pypingrecorder.py:173-197 | the outer edges enclose the range and are distinct: a zero-width range is widened by 0.5 on each side |
| `Histograms.RangeEdges` | src/pypingrecorder.py:173-175 | `bins=50, range=(first, last)` gives 51 edges from `first` to `last`, or from `first - 0.5` to `last + 0.5` when the range has zero width |
| `Histograms.RangeEdgesIncreasing` | src/pypingrecorder.py:173-175 | the edges built from a range strictly increase |
| `Histograms.DataEdges` | src/pypingrecorder.py:194-197 | `bins=50` without a range gives 51 edges |
| `Histograms.DataEdgesEnclose` | src/pypingrecorder.py:194-197 | edges built from the data's own minimum and maximum (from 0 to 1 when there is no data) strictly increase and enclose every sample |
| `Histograms.CountIn` | src/pypingrecorder.py:173-185 | a bin counts at most the number of samples |
| `Histograms.Histogram` | src/pypingrecorder.py:173-202 | there is one bin per pair of neighbouring edges |
| `Histograms.HistogramAt` | src/pypingrecorder.py:173-202 | bin `i` counts the samples in `[e_i, e_{i+1})`, or in `[e_i, e_{i+1}]` for the last bin |
| `Histograms.CountInSplit` | src/pypingrecorder.py:173-185 | splitting a bin at an inner edge splits its count |
| `Histograms.CountInAll` | src/pypingrecorder.py:173-185 | a closed bin that encloses every sample counts them all |
| `Histograms.HistogramTotal` | src/pypingrecorder.py:173-202 | over increasing edges, the bins together count exactly the samples between the outer edges |
| `Histograms.HistogramCountsAll` | src/pypingrecorder.py:173-202 | when the outer edges enclose every sample, the bins add up to the number of samples |
| `Histograms.HistogramOfOne` | src/pypingrecorder.py:198-202 | a single sample is counted once if it lies between the outer edges, and otherwise not at all |
| `Recorder.EvictAll` | src/pypingrecorder.py:92-103 | the retention pass on every host keeps every history well formed and within bounds |
| `Recorder.TickAll` | src/pypingrecorder.py:113-135 | one tick for every host keeps one history per host |
| `Recorder.EvictAllFrom` | src/pypingrecorder.py:92-103 | a sequence holding each host's evicted history is the whole-store pass |
| `Recorder.TickAllFrom` | src/pypingrecorder.py:113-135 | a sequence holding each host's ticked history is the whole-store tick |
| `Recorder.TickAllValid` | src/pypingrecorder.py:113-135 | a tick of every host keeps every history well formed and within bounds |
| `Recorder.StatsWinSize` | src/pypingrecorder.py:156-171 | the statistics window is `min(1800, len(value))` long |
| `Recorder.MaxWindows` | src/pypingrecorder.py:155-162 | one trailing max window per host |
| `Recorder.SharedRange` | src/pypingrecorder.py:154-164 | `rng_max` over the store is never negative (the bounds are stated by `Statistics.RangeMaxBounds` and `Statistics.RangeMaxIsLeast`) |
| `Recorder.HostHistos` | src/pypingrecorder.py:173-185 | a host's avg, max and jitter histograms each have one bin per pair of neighbouring edges |
| `Recorder.PingEdges` | src/pypingrecorder.py:173-175 | the latency edges are 51 edges over `(0, rng_max)` |
| `Recorder.SpeedEdges` | src/pypingrecorder.py:193-197 | the throughput edges are 51 edges over the download window's own range |
| `Recorder.MaxWindowWithinRange` | src/pypingrecorder.py:154-175 | every value of a host's trailing max window lies within `[0, rng_max]` |
| `Recorder.TakeLastBelow` | src/pypingrecorder.py:172-181 | trailing windows of the same length keep a pointwise bound `0 <= x <= y` |
| `Recorder.WindowsBelowMax` | src/pypingrecorder.py:172-185 | in a host's trailing windows, each avg and each jitter value lies between 0 and the max beside it |
| `Recorder.LatencyHistogramsCountAll` | src/pypingrecorder.py:165-185 | each host's max, avg and jitter histograms have 50 bins over the shared edges, and each counts every sample of its window |
| `Recorder.DownloadHistogramCountsAll` | src/pypingrecorder.py:187-197 | the download histogram counts every sample of its window; that window is one sample long, or the whole (empty) list when there is no throughput sample |
| `Recorder.UploadCountedOnlyNearDownload` | src/pypingrecorder.py:187-202 | with the one-sample window, the upload sample is counted exactly when it lies within 0.5 Mbps of the last download sample |
| `Recorder.LastSpeedWindows` | src/pypingrecorder.py:187-198 | the throughput windows hold the last download and the last upload sample |
| `Recorder.EvictAsWritten` | src/pypingrecorder.py:92-103 | the loop as written raises `IndexError` exactly when the history's head is stale; otherwise it leaves the history unchanged |
| `Recorder.StaleHeadRaises` | src/pypingrecorder.py:92-103 | for entries at 0 and at 240 h + 1 s, evicted at the later time, the loop as written raises, while the intended pass keeps the newer entry |
| `Recorder.PingRecorder.constructor` | src/pypingrecorder.py:24-54 | every host starts with empty series and empty histograms; the throughput series, the histograms and both edge lists start empty; the counter starts at 0 |
| `Recorder.PingRecorder.EvictHost` | src/pypingrecorder.py:92-103 | popping from the front while the (re-read) head is stale leaves host `k` with `EvictPing` of its history, and every other host unchanged |
| `Recorder.PingRecorder.EvictSpeedSeries` | src/pypingrecorder.py:104-111 | the same loop on the throughput series leaves `EvictSpeed` of it |
| `Recorder.PingRecorder.EvictHosts` | src/pypingrecorder.py:92-103 | the loop over hosts leaves `EvictAll` of the store |
| `Recorder.PingRecorder.TickHost` | src/pypingrecorder.py:114-135 | host `k`'s history becomes its `Tick` with the measured sample; the other hosts are unchanged |
| `Recorder.PingRecorder.TickHosts` | src/pypingrecorder.py:113-135 | the loop over hosts leaves `TickAll` of the store, each host ticked with its own sample |
| `Recorder.PingRecorder.SpeedCadence` | src/pypingrecorder.py:137-146 | the counter advances by `NextCount`, and one throughput sample is appended exactly when the test is due |
| `Recorder.PingRecorder.Step` | src/pypingrecorder.py:89-146 | one iteration: the store is evicted and then ticked, the throughput series is evicted and, on every 1801st iteration, extended, and the counter advances; all invariants are kept |
| `Recorder.PingRecorder.SharedRangeOfHosts` | src/pypingrecorder.py:154-164 | the first loop computes `SharedRange` of the store and changes nothing |
| `Recorder.PingRecorder.HistogramHosts` | src/pypingrecorder.py:165-185 | the second loop stores the edges over `(0, rng_max)` and, for each host, the three histograms over those edges |
| `Recorder.PingRecorder.HistogramSpeed` | src/pypingrecorder.py:187-202 | the throughput edges come from the download window; the download and upload histograms are computed over them |
| `Recorder.PingRecorder.ComputeStatistics` | src/pypingrecorder.py:150-202 | every histogram field and both edge lists are set from the series as above, and the series themselves are left alone |
| `Recorder.StatisticsIdempotent` | src/pypingrecorder.py:150-202 | a second `compute_statistics` with no recording in between reproduces every histogram and both edge lists (latency and throughput) of the first, and leaves the series and the counter unchanged |

## Left out

- `measure_ping` (src/pypingrecorder.py:56-71) runs the system `ping` command and parses its output. It is not modelled. Each tick takes a `probe: Host -> Latency` parameter instead, where 0 is the failure sentinel the source returns.
- `measure_speed` (src/pypingrecorder.py:73-80) is a network speed test. It is the `throughput` parameter of `Step`. A failing speed test raises in the source and ends `record_data`; the model only covers a test that returns.
- The clock is not modelled. Each `Step` gets one `now`, in whole seconds, used for every host. Timestamps are integers rather than formatted strings. The source reads `datetime.now()` anew for each host and inside every eviction test.
- `time.sleep` and the endless `while True` loop (lines 89 and 148) are not modelled. One iteration is `PingRecorder.Step`. The loop-local `time_count` becomes the field `timeCount`, and its increment at line 90 is folded into `SpeedCadence`, since nothing in between reads it.
- Floating point and numpy's rounding are not modelled. Latencies, averages and histogram edges are exact reals, so the model says nothing about a float value that numpy would place in a different bin because of rounding.
- `ping_data` is a dictionary keyed by host name. It is modelled as a sequence indexed by position in the fixed host list, in the dictionary's insertion order. Its three histogram lists form the separate field `pingHisto`.
- `src/pypingdashboard.py` (the presentation layer) is not part of this model.
- `speed_interval_minutes = 30` at one tick per second names an 1800-tick interval (src/pypingrecorder.py:137-139), but the test `time_count > 1800` after the increment (lines 90 and 140) fires every 1801 ticks. The model follows the code, and `Cadence.CadenceAfter` and `Cadence.SpeedDueOn` state the 1801-tick period.
- Series.EvictSortedIsFilter: holds for a time-ordered history only. A history stays time-ordered (`Series.TickKeepsSorted`, `Series.EvictPingKeepsSorted`) only while the clock never goes backwards. The source takes the time from `datetime.now()` and does not check this, so `PingRecorder.Valid` does not include it.
- Locking between the recorder and a concurrent reader is not modelled. The source has none.

## Findings

| source | as written | input that shows it | evidently intended | confidence | as-written member | corrected member |
|---|---|---|---|---|---|---|
| src/pypingrecorder.py:94-103, 105-111 | the oldest timestamp is read once before the retention loop. If it is stale, the loop pops every entry and then raises `IndexError` on the empty list. Nothing is popped while the head is fresh | a history stamped 0 and 864001, evicted at time 864001 (cutoff 1) | re-read the head on every iteration and stop at the first entry within 240 hours | not executed | `Recorder.EvictAsWritten`, `Recorder.StaleHeadRaises` | `Recorder.PingRecorder.EvictHost`, `Series.EvictPingPopsStale` |
| src/pypingrecorder.py:124-128 | `data` is a Python list, so `data == 0` is a single `False` and the error score is always 0. The masking branch never runs, and a failed ping counts as a 0 ms latency | window `[10, 0, 20, 0, 15]`: errors 0, avg 9, jitter 20 | compare element-wise: errors 20, failed samples masked to the max 20, avg 17, jitter 10 | not executed | `Smoothing.SmoothAsWritten`, `Smoothing.SmoothAsWrittenExample` | `Smoothing.SmoothErrorScore`, `Smoothing.SmoothExample` |
