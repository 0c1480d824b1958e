# Time-series buffer storage engine, modelled in Dafny

This project models the storage engine of the `collector` Go package: an
in-process buffer that samples named sources on a tick, keeps each source's
samples as a time-ordered series, drops samples older than a retention
interval, and compacts aged samples into one downsampled metric per bucket.

- `metrics.dfy` (module `Metrics`): `Metric<V>` with an integer nanosecond
  timestamp, a generic value and the `downsampled` flag; the `Sorted` series
  invariant; Go's truncating duration division.
- `retention.dfy` (module `Retention`): `RetentionCleaner` and `Cleanup`, the
  front-drop against the cutoff `now - interval`, with `now` a parameter.
- `compactor.dfy` (module `Compaction`): `Compactor` with its two windows; the
  backward scan for the boundary metric (`FindDownSamplingStart`), the backward
  walk that collects the sampling group (`FindNextSamplingGroup`), and `Reduce`,
  which gates on the expected bucket size and splices the group into one
  downsampled metric. A group is a position range `Span(lo, hi)`; the sampler
  is a function parameter `seq<V> -> V`.
- `int_collector.dfy` (module `MaxSampler`): `Int64MaxSampler.Reduce`, the
  running maximum that starts from 0.
- `collector.dfy` (module `Agents`): the agent registry (`NewAgent`, `Add`)
  and `Process`, one tick of one series (append, cleanup, compact when a
  sampler is bound) as a pure state transition on an immutable `Agent` value.
  The collected metric and `now` are parameters.
- `scenarios.dfy` (module `Scenarios`): the repository's compactor and retention
  test scenarios with fixed timestamps.

A Go panic is modelled as a precondition. `Compaction.ReduceDefined` is the
exact condition under which the source's `Reduce` returns. A non-empty series
needs a non-zero collection interval, because that interval is a divisor. It
also needs an expected bucket size of at least one or a non-empty group;
otherwise the source indexes the last element of an empty group.
`Agents.Registered` is the condition for `process` not to dereference a
missing storage.

Behaviour the proofs make explicit:
- `Int64MaxSampler.Reduce` starts its accumulator at 0. For all-negative
  input it returns 0, not the maximum its doc comment
  (int_collector.go:5) promises (`MaxSampler.ReduceOfNegatives`).
- `NewAgent` leaves both compaction windows at 0, so the expected bucket size
  is 0. Every tick of a series with a sampler then turns the fresh sample into
  a downsampled metric of its own (`Agents.DefaultWindowsDownsampleEachSample`).
- The compactor hands the group's values to the sampler newest first
  (compactor.go:77-80). For the max sampler the order does not matter
  (`MaxSampler.ReduceIgnoresOrder`).
- `NewAgent` and `Add` (collector.go:62-80) do not validate the compaction
  windows against the collection interval.

## Model

| member | source | states |
|---|---|---|
| Metrics.AppendSorted | collector.go:86 | appending a metric no older than the newest keeps a series sorted |
| Retention.Cleanup | retention.go:14-33 | the result is the suffix of the input starting at the first metric not strictly older than `now - interval`: every removed metric was strictly older than the cutoff, the remaining front is at or after it (so a metric exactly at the cutoff stays), an empty series stays empty |
| Retention.CleanupIdempotent | retention.go:21-32 | a second cleanup at the same `now` removes nothing |
| Retention.CleanupSorted | retention.go:21-32 | on a sorted series every remaining metric is at or after the cutoff and the result is sorted |
| Retention.CleanupIgnoresValuesAndFlags | retention.go:26-31 | two series with the same timestamps lose the same number of metrics whatever their values and `downsampled` flags |
| Compaction.ScanForBoundary | compactor.go:20-29 | the backward scan returns the newest index at or before the high-resolution end, or none when every scanned metric is newer |
| Compaction.FindDownSamplingStart | compactor.go:15-31 | returns the boundary metric (newest at or before `back - HighResolutionInterval`), and returns none exactly when every metric is still in the high-resolution window |
| Compaction.GroupStart | compactor.go:47-61 | the backward walk stops at the front, at a downsampled metric or at one older than `sampleEnd`; every metric it passes is raw and not older than `sampleEnd` |
| Compaction.FindNextSamplingGroup | compactor.go:34-63 | none exactly when nothing has left the high-resolution window; otherwise the unique longest contiguous run of raw metrics not older than `highResEnd - DownSamplingInterval` that ends at the boundary metric (possibly empty) |
| Compaction.NewestFirst | compactor.go:77-80 | the sampler receives every group value, in newest-first order |
| Compaction.Reduce | compactor.go:66-92 | unchanged for an empty series, when everything is high resolution, or when the group is smaller than `DownSamplingInterval / interval`; otherwise the group is replaced in place by one downsampled metric stamped with the oldest member's time and carrying the sampler's reduction, with everything before and after the group kept in order |
| Compaction.ReduceKeepsNewest | compactor.go:15-31 | with a positive high-resolution window the newest metric is never compacted and stays at the back |
| Compaction.ReducePreservesSorted | compactor.go:82-91 | compaction keeps a sorted series sorted |
| Compaction.ReduceIdempotent | compactor.go:47-91 | on a sorted series with an expected size of at least one, whatever the high-resolution window, a second `Reduce` without new data changes nothing |
| Compaction.DownsampleSingle | compactor.go:77-86 | a group of one becomes a downsampled metric with its own time and the sampler applied to its value alone |
| Compaction.ZeroWindowsDownsampleNewest | compactor.go:72-91 | with both windows zero, a raw newest metric strictly newer than its predecessor is compacted alone and marked downsampled, and nothing else changes |
| MaxSampler.MaxFrom | int_collector.go:10-15 | the fold's result is at least the accumulator and every input, and is the accumulator or one of the inputs |
| MaxSampler.Reduce | int_collector.go:8-17 | the result is non-negative, at least every input, and either 0 or one of the inputs (0 for empty input) |
| MaxSampler.ReduceCharacterized | int_collector.go:8-17 | those three properties determine the result uniquely |
| MaxSampler.ReduceIgnoresOrder | int_collector.go:10-15 | the result depends only on the multiset of inputs, not their order |
| MaxSampler.ReduceOfNegatives | int_collector.go:5-16 | for all-negative input the result is 0, greater than every input, so not their maximum |
| MaxSampler.ReduceTwoOne | compactor_test.go:63 | the reduction of values 2 and 1 is 2 |
| Agents.NewMetricStorage | collector.go:39-45 | a new storage holds an empty series bound to the given down-sampler (possibly none) |
| Agents.NewAgent | collector.go:62-73 | a new agent has empty registries, captures the retention interval in its cleaner, has both compaction windows at zero, and satisfies the registry and sortedness invariants |
| Agents.Add | collector.go:77-80 | registers the collector under the name, with a fresh empty series bound to the given sampler, discarding any previous series; every other name's storage is unchanged and the registry invariant is kept |
| Agents.Process | collector.go:82-94 | one tick replaces only the named series, by cleanup of the series with the collected metric appended, then compaction if a sampler is bound; other series, the sampler binding, the key sets and the configuration are unchanged |
| Agents.ProcessPreservesSorted | collector.go:86-91 | if every series is sorted and the collected metric is not older than the named series' newest, every series is still sorted after the tick |
| Agents.ProcessKeepsCollected | collector.go:86-91 | a collected metric within retention ends up as the newest metric of its series when the high-resolution window is positive |
| Agents.ProcessIgnoresRetentionField | collector.go:68-87 | the tick's cutoff comes from the cleaner captured at creation; changing the public `RetentionInterval` field has no effect |
| Agents.CleanedEndsWithCollected | collector.go:86-87 | after append and cleanup, a non-empty series ends with the collected metric preceded by the previous newest metric, and a collected metric within retention always survives |
| Agents.DefaultWindowsCanProcess | collector.go:69-90 | with the default zero windows and a non-zero interval, a tick with a raw sample never panics, whatever its timestamp |
| Agents.DefaultWindowsDownsampleEachSample | collector.go:69-90 | with the default zero windows and a sampler, the tick turns the fresh sample into a downsampled metric of its own |
| Scenarios.ExpectedSizeIsTwo | compactor_test.go:11-15 | 500 ms buckets at a 250 ms collection interval expect two samples |
| Scenarios.CompactEmpty | compactor_test.go:19-23 | compacting an empty series leaves it empty |
| Scenarios.CompactAllHighResolution | compactor_test.go:25-38 | two samples within the 500 ms window are left alone |
| Scenarios.CompactSamplingGroup | compactor_test.go:40-66 | with four samples 250 ms apart, one compaction: the length drops by one and the front holds 2, stamped at the oldest sample's time |
| Scenarios.CompactAfterResample | compactor_test.go:68-91 | with the oldest sample already downsampled, the group is too small and nothing changes |
| Scenarios.CleanupPartial | retention_test.go:13-27 | with a 2 ms retention, the older of two samples 1.1 ms apart is dropped 2.2 ms later |
| Scenarios.CleanupComplete | retention_test.go:29-42 | with a 1 ms retention, two back-to-back samples are both dropped 2.1 ms later |
| Scenarios.CleanupKeepsCutoff | retention.go:27 | a sample exactly at the cutoff is kept |

## Left out

- `Agent.Run` (collector.go:97-106): an endless timer loop that starts one goroutine per series on each tick. It is pure scheduling and concurrency. Only a single tick (`Process`) is modelled.
- The `sync.Mutex` of `MetricStorage`: `Process` is one atomic state transition, so there is no interleaving to model.
- `IntCollector.Collect` (int_collector.go:25-30): it reads the clock and runs a callback. The collected metric is a parameter of `Process`.
- The wall clock in `Cleanup` (retention.go:20): `now` is a parameter.
- examples/main.go: memory statistics, garbage collection, printing and an HTTP server are all I/O.
- `interface{}` values and type assertions: values have one generic type `V` per agent. The ignored failed assertion at retention.go:26, which would treat a non-metric element as a zero-time metric, cannot arise.
- `container/list` internals: a series is a `seq`, and the group is a position range instead of a slice of element pointers.
- Integer widths: times and durations are unbounded integers. The model does not cover overflow of `time.Time.Add` and of `Duration * -1` for extreme values, or Go's wrap-around of the int64 division `minInt64 / -1` in the expected-size computation.
- Collector failure, cancellation and per-name in-flight tracking: the source has none of these.
