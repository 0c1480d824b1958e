/** The agent: a registry of named series, each with its collector, optional
    sampler and metric storage, and the per-series pipeline that runs on every
    tick (append the collected metric, clean up, compact). The pipeline is one
    atomic state transition; the lock, the goroutines and the clock are outside
    the model, and the collected metric and `now` are parameters. */
module Agents {
  import opened Metrics
  import Retention
  import Compaction

  /** The metrics of one series and the sampler bound to it (None: no compaction). */
  datatype MetricStorage<!V> = MetricStorage(downSampler: Option<seq<V> -> V>, series: seq<Metric<V>>)

  /** `C` is the type of collectors; they are only stored, never run, here. */
  datatype Agent<C, !V> = Agent(
    interval: Duration,
    retentionInterval: Duration,
    collectors: map<string, C>,
    metrics: map<string, MetricStorage<V>>,
    retentionCleaner: Retention.RetentionCleaner,
    compactor: Compaction.Compactor)

  /** The registry invariant: every collector has a storage and vice versa. */
  predicate Consistent<C, V>(a: Agent<C, V>)
  {
    a.collectors.Keys == a.metrics.Keys
  }

  /** Every stored series is in timestamp order. */
  predicate AllSorted<C, V>(a: Agent<C, V>)
  {
    forall n :: n in a.metrics ==> Sorted(a.metrics[n].series)
  }

  predicate Registered<C, V>(a: Agent<C, V>, name: string)
  {
    name in a.collectors && name in a.metrics
  }

  /** A new storage: an empty series bound to the given sampler. */
  function NewMetricStorage<V>(d: Option<seq<V> -> V>): (st: MetricStorage<V>)
    ensures st.series == [] && st.downSampler == d
  {
    MetricStorage(d, [])
  }

  /** A fresh agent. The retention cleaner captures the retention interval now;
      both compaction windows start at zero. */
  function NewAgent<C, V>(interval: Duration, retentionInterval: Duration): (a: Agent<C, V>)
    ensures a.interval == interval && a.retentionInterval == retentionInterval
    ensures a.collectors == map[] && a.metrics == map[]
    ensures a.retentionCleaner.interval == retentionInterval
    ensures a.compactor.highResolutionInterval == 0 && a.compactor.downSamplingInterval == 0
    ensures Consistent(a) && AllSorted(a)
  {
    Agent(interval, retentionInterval, map[], map[],
          Retention.RetentionCleaner(retentionInterval),
          Compaction.Compactor(0, 0))
  }

  /** Registers (or re-registers) `name`: its collector is replaced and it gets a
      fresh, empty storage bound to `d`, discarding any earlier series. */
  function Add<C, V>(a: Agent<C, V>, name: string, c: C, d: Option<seq<V> -> V>): (a': Agent<C, V>)
    ensures Registered(a', name)
    ensures a'.collectors == a.collectors[name := c]
    ensures a'.metrics.Keys == a.metrics.Keys + {name}
    ensures a'.metrics[name].series == [] && a'.metrics[name].downSampler == d
    ensures forall n :: n in a.metrics && n != name ==> a'.metrics[n] == a.metrics[n]
    ensures a'.interval == a.interval && a'.retentionInterval == a.retentionInterval
    ensures a'.retentionCleaner == a.retentionCleaner && a'.compactor == a.compactor
    ensures Consistent(a) ==> Consistent(a')
    ensures AllSorted(a) ==> AllSorted(a')
  {
    a.(collectors := a.collectors[name := c],
       metrics := a.metrics[name := NewMetricStorage(d)])
  }

  /** The series after appending `collected` and applying the retention rule. */
  function Cleaned<C, V>(a: Agent<C, V>, name: string, collected: Metric<V>, now: Time): seq<Metric<V>>
    requires name in a.metrics
  {
    Retention.Cleanup(a.retentionCleaner, a.metrics[name].series + [collected], now)
  }

  /** The pipeline returns instead of panicking: compaction, when a sampler is
      bound, must be defined on the cleaned series. */
  predicate CanProcess<C, V>(a: Agent<C, V>, name: string, collected: Metric<V>, now: Time)
    requires name in a.metrics
  {
    a.metrics[name].downSampler.None?
    || Compaction.ReduceDefined(a.compactor, Cleaned(a, name, collected, now), a.interval)
  }

  /** One tick for one series: append the collected metric, drop expired
      metrics with the retention cleaner captured at creation, then compact if
      a sampler is bound. Only the named series changes. */
  function Process<C, V>(a: Agent<C, V>, name: string, collected: Metric<V>, now: Time): (a': Agent<C, V>)
    requires Registered(a, name)
    requires CanProcess(a, name, collected, now)
    ensures Registered(a', name)
    ensures a'.collectors == a.collectors && a'.metrics.Keys == a.metrics.Keys
    ensures a'.interval == a.interval && a'.retentionInterval == a.retentionInterval
    ensures a'.retentionCleaner == a.retentionCleaner && a'.compactor == a.compactor
    ensures a'.metrics[name].downSampler == a.metrics[name].downSampler
    ensures forall n :: n in a.metrics && n != name ==> a'.metrics[n] == a.metrics[n]
    ensures a.metrics[name].downSampler.None? ==>
              a'.metrics[name].series == Cleaned(a, name, collected, now)
    ensures a.metrics[name].downSampler.Some? ==>
              a'.metrics[name].series
              == Compaction.Reduce(a.compactor, Cleaned(a, name, collected, now), a.interval, a.metrics[name].downSampler.value)
    ensures Consistent(a) ==> Consistent(a')
  {
    var st := a.metrics[name];
    var cleaned := Cleaned(a, name, collected, now);
    var series := match st.downSampler
      case None => cleaned
      case Some(sampler) => Compaction.Reduce(a.compactor, cleaned, a.interval, sampler);
    a.(metrics := a.metrics[name := st.(series := series)])
  }

  /** A series stays sorted through a tick when the collected metric is not
      older than its newest metric. */
  lemma ProcessPreservesSorted<C, V>(a: Agent<C, V>, name: string, collected: Metric<V>, now: Time)
    requires Registered(a, name)
    requires CanProcess(a, name, collected, now)
    requires AllSorted(a)
    requires |a.metrics[name].series| == 0
             || a.metrics[name].series[|a.metrics[name].series| - 1].generatedAt <= collected.generatedAt
    ensures AllSorted(Process(a, name, collected, now))
  {
    var s := a.metrics[name].series;
    assert Sorted(s);
    AppendSorted(s, collected);
    Retention.CleanupSorted(a.retentionCleaner, s + [collected], now);
    var d := a.metrics[name].downSampler;
    if d.Some? {
      Compaction.ReducePreservesSorted(a.compactor, Cleaned(a, name, collected, now), a.interval, d.value);
    }
    var a' := Process(a, name, collected, now);
    assert Sorted(a'.metrics[name].series);
    forall n | n in a'.metrics
      ensures Sorted(a'.metrics[n].series)
    {
      if n != name {
        assert a'.metrics[n] == a.metrics[n];
      }
    }
  }

  /** The retention cutoff comes from the cleaner captured by `NewAgent`: a
      later write to the public `retentionInterval` field has no effect on a tick. */
  lemma ProcessIgnoresRetentionField<C, V>(a: Agent<C, V>, name: string, collected: Metric<V>, now: Time, ri: Duration)
    requires Registered(a, name)
    requires CanProcess(a, name, collected, now)
    ensures Process(a.(retentionInterval := ri), name, collected, now).metrics == Process(a, name, collected, now).metrics
  {
  }

  /** Cleanup keeps a suffix of the appended series: when anything is left its
      newest metric is the collected one, preceded by the old newest metric; and
      a collected metric within retention is always left. */
  lemma CleanedEndsWithCollected<C, V>(a: Agent<C, V>, name: string, collected: Metric<V>, now: Time)
    requires name in a.metrics
    ensures var s := a.metrics[name].series;
            var cleaned := Cleaned(a, name, collected, now);
            && (collected.generatedAt >= Retention.Cutoff(a.retentionCleaner, now) ==> |cleaned| > 0)
            && (|cleaned| > 0 ==> cleaned[|cleaned| - 1] == collected)
            && (|cleaned| > 1 ==> cleaned[|cleaned| - 2] == s[|s| - 1])
  {
    var s := a.metrics[name].series;
    var appended := s + [collected];
    var cleaned := Cleaned(a, name, collected, now);
    assert appended[|appended| - 1] == collected;
    if |cleaned| > 1 {
      assert cleaned[|cleaned| - 2] == appended[|appended| - 2];
    }
  }

  /** The newest sample survives its own tick: it is within retention when not
      older than the cutoff, and with a positive high-resolution window it is
      never compacted. */
  lemma ProcessKeepsCollected<C, V>(a: Agent<C, V>, name: string, collected: Metric<V>, now: Time)
    requires Registered(a, name)
    requires CanProcess(a, name, collected, now)
    requires collected.generatedAt >= Retention.Cutoff(a.retentionCleaner, now)
    requires a.compactor.highResolutionInterval > 0
    ensures |Process(a, name, collected, now).metrics[name].series| > 0
    ensures var s' := Process(a, name, collected, now).metrics[name].series; s'[|s'| - 1] == collected
  {
    CleanedEndsWithCollected(a, name, collected, now);
    var d := a.metrics[name].downSampler;
    if d.Some? {
      Compaction.ReduceKeepsNewest(a.compactor, Cleaned(a, name, collected, now), a.interval, d.value);
    }
  }

  /** With the windows `NewAgent` leaves in place (both zero) the expected bucket
      size is zero, but the fresh raw sample is always in the group, so a tick
      on a non-zero collection interval never panics. */
  lemma DefaultWindowsCanProcess<C, V>(a: Agent<C, V>, name: string, collected: Metric<V>, now: Time)
    requires Registered(a, name)
    requires a.compactor.highResolutionInterval == 0 && a.compactor.downSamplingInterval == 0
    requires a.interval != 0
    requires !collected.downsampled
    ensures CanProcess(a, name, collected, now)
  {
    CleanedEndsWithCollected(a, name, collected, now);
  }

  /** ... and the tick turns that fresh sample into a downsampled metric of its
      own (same time, the sampler applied to its value alone; see
      `Compaction.DownsampleSingle`). */
  lemma DefaultWindowsDownsampleEachSample<C, V>(a: Agent<C, V>, name: string, collected: Metric<V>, now: Time)
    requires Registered(a, name)
    requires a.compactor.highResolutionInterval == 0 && a.compactor.downSamplingInterval == 0
    requires a.interval != 0
    requires a.metrics[name].downSampler.Some?
    requires !collected.downsampled
    requires collected.generatedAt >= Retention.Cutoff(a.retentionCleaner, now)
    requires |a.metrics[name].series| == 0
             || a.metrics[name].series[|a.metrics[name].series| - 1].generatedAt < collected.generatedAt
    requires CanProcess(a, name, collected, now)
    ensures var s' := Process(a, name, collected, now).metrics[name].series;
            && |s'| > 0
            && s'[|s'| - 1] == Compaction.Downsample([collected], a.metrics[name].downSampler.value)
  {
    CleanedEndsWithCollected(a, name, collected, now);
    var cleaned := Cleaned(a, name, collected, now);
    Compaction.ZeroWindowsDownsampleNewest(a.compactor, cleaned, a.interval, a.metrics[name].downSampler.value);
  }
}
