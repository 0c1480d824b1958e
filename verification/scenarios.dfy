/** The scenarios of the repository's compactor and retention tests, restated
    with fixed timestamps (nanoseconds) and, for retention, a fixed `now`. */
module Scenarios {
  import opened Metrics
  import Retention
  import Compaction
  import MaxSampler

  const Millisecond: Duration := 1_000_000

  /** 2015-02-02 12:00:00 UTC. */
  const Noon: Time := 1_422_878_400 * 1_000_000_000

  /** The compactor configuration of the tests: 500 ms windows, 250 ms collection. */
  const TestCompactor := Compaction.Compactor(500 * Millisecond, 500 * Millisecond)
  const TestInterval: Duration := 250 * Millisecond

  function Raw(t: Time, v: MaxSampler.Int64): Metric<MaxSampler.Int64>
  {
    Metric(t, v, false)
  }

  /** Four raw samples 250 ms apart ending at noon, with values 1 to 4. */
  function FourSamples(): (s: seq<Metric<MaxSampler.Int64>>)
    ensures |s| == 4 && Sorted(s)
  {
    [Raw(Noon - 750 * Millisecond, 1), Raw(Noon - 500 * Millisecond, 2),
     Raw(Noon - 250 * Millisecond, 3), Raw(Noon, 4)]
  }

  lemma ExpectedSizeIsTwo()
    ensures Compaction.ExpectedSize(TestCompactor, TestInterval) == 2
  {
  }

  /** An empty series is left alone. */
  lemma CompactEmpty()
    ensures Compaction.Reduce(TestCompactor, [], TestInterval, MaxSampler.Reduce) == []
  {
  }

  /** Two samples still inside the high-resolution window are left alone. */
  lemma CompactAllHighResolution()
    ensures var s := [Raw(Noon - 250 * Millisecond, 0), Raw(Noon, 0)];
            Compaction.Reduce(TestCompactor, s, TestInterval, MaxSampler.Reduce) == s
  {
  }

  /** The two samples that left the window (values 1 and 2) form a complete
      bucket: exactly one compaction, the length drops by one, and the front is
      the downsampled metric holding 2, stamped with the older sample's time. */
  lemma CompactSamplingGroup()
    ensures var r := Compaction.Reduce(TestCompactor, FourSamples(), TestInterval, MaxSampler.Reduce);
            && |r| == 3
            && r[0] == Metric(Noon - 750 * Millisecond, 2, true)
            && r[1..] == FourSamples()[2..]
  {
  }

  /** The same samples with the oldest one already downsampled: the group is
      only the sample holding 2, below a complete bucket, so nothing changes. */
  lemma CompactAfterResample()
    ensures var s := [Metric(Noon - 750 * Millisecond, 1, true)] + FourSamples()[1..];
            Compaction.Reduce(TestCompactor, s, TestInterval, MaxSampler.Reduce) == s
  {
  }

  /** Two samples 1.1 ms apart, cleaned 2.2 ms after the first with a 2 ms
      retention: only the older one is dropped. */
  lemma CleanupPartial()
    ensures var s := [Raw(Noon, 1), Raw(Noon + 1_100_000, 1)];
            Retention.Cleanup(Retention.RetentionCleaner(2 * Millisecond), s, Noon + 2_200_000) == s[1..]
  {
  }

  /** Two samples taken back to back, cleaned 2.1 ms later with a 1 ms
      retention: both are dropped. */
  lemma CleanupComplete()
    ensures var s := [Raw(Noon, 1), Raw(Noon + 1_000, 1)];
            Retention.Cleanup(Retention.RetentionCleaner(Millisecond), s, Noon + 2_100_000) == []
  {
  }

  /** A sample exactly at the cutoff is kept. */
  lemma CleanupKeepsCutoff()
    ensures var s := [Raw(Noon, 1)];
            Retention.Cleanup(Retention.RetentionCleaner(Millisecond), s, Noon + Millisecond) == s
  {
  }
}
