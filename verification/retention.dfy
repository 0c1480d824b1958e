/** The retention rule: metrics that have aged past the retention interval are
    dropped from the front (oldest end) of a series. */
module Retention {
  import opened Metrics

  /** Keeps metrics for `interval` nanoseconds. */
  datatype RetentionCleaner = RetentionCleaner(interval: Duration)

  /** Metrics generated strictly before this instant are expired. */
  function Cutoff(rc: RetentionCleaner, now: Time): Time
  {
    now - rc.interval
  }

  /** Drops metrics from the front while the front one is strictly older than
      the cutoff, and stops at the first one that is not. The wall clock is the
      parameter `now`. The result is the suffix of `s` that starts at the first
      metric not older than the cutoff. */
  function Cleanup<V>(rc: RetentionCleaner, s: seq<Metric<V>>, now: Time): (r: seq<Metric<V>>)
    ensures |r| <= |s| && r == s[|s| - |r|..]
    ensures forall i :: 0 <= i < |s| - |r| ==> s[i].generatedAt < Cutoff(rc, now)
    ensures |r| > 0 ==> r[0].generatedAt >= Cutoff(rc, now)
    decreases |s|
  {
    if |s| == 0 then s
    else if s[0].generatedAt < Cutoff(rc, now) then Cleanup(rc, s[1..], now)
    else s
  }

  /** A second cleanup at the same instant removes nothing more. */
  lemma CleanupIdempotent<V>(rc: RetentionCleaner, s: seq<Metric<V>>, now: Time)
    ensures Cleanup(rc, Cleanup(rc, s, now), now) == Cleanup(rc, s, now)
  {
  }

  /** On a sorted series, everything that survives is within the retention
      window, and the survivors are still sorted. */
  lemma CleanupSorted<V>(rc: RetentionCleaner, s: seq<Metric<V>>, now: Time)
    requires Sorted(s)
    ensures Sorted(Cleanup(rc, s, now))
    ensures forall i :: 0 <= i < |Cleanup(rc, s, now)| ==> Cleanup(rc, s, now)[i].generatedAt >= Cutoff(rc, now)
  {
  }

  /** Only timestamps decide what is dropped: two series with the same
      timestamps lose the same number of metrics, whatever their values and
      `downsampled` flags. */
  lemma CleanupIgnoresValuesAndFlags<V, W>(rc: RetentionCleaner, s: seq<Metric<V>>, u: seq<Metric<W>>, now: Time)
    requires |s| == |u|
    requires forall i :: 0 <= i < |s| ==> s[i].generatedAt == u[i].generatedAt
    ensures |Cleanup(rc, s, now)| == |Cleanup(rc, u, now)|
  {
  }
}
