/** The compactor: once metrics have aged past the high-resolution window, the
    next complete bucket of raw metrics is replaced by a single downsampled
    metric. The source walks a linked list backwards from its newest element;
    here the walks are index scans over a sequence. */
module Compaction {
  import opened Metrics

  /** The two windows that drive compaction. */
  datatype Compactor = Compactor(highResolutionInterval: Duration, downSamplingInterval: Duration)

  /** Positions `lo .. hi - 1` of a series. The source gathers a sampling group
      newest first (from `hi - 1` down to `lo`); the span names the same metrics. */
  datatype Span = Span(lo: nat, hi: nat)

  /** Metrics at or before this instant have left the high-resolution window. */
  function HighResEnd<V>(c: Compactor, s: seq<Metric<V>>): Time
    requires |s| > 0
  {
    s[|s| - 1].generatedAt - c.highResolutionInterval
  }

  /** Metrics strictly before this instant belong to an earlier bucket. */
  function SampleEnd<V>(c: Compactor, s: seq<Metric<V>>): Time
    requires |s| > 0
  {
    HighResEnd(c, s) - c.downSamplingInterval
  }

  /** How many raw metrics a complete bucket holds, for a collection interval. */
  function ExpectedSize(c: Compactor, interval: Duration): int
    requires interval != 0
  {
    TruncDiv(c.downSamplingInterval, interval)
  }

  /** Every metric is still inside the high-resolution window. */
  predicate AllHighResolution<V>(c: Compactor, s: seq<Metric<V>>)
    requires |s| > 0
  {
    forall j :: 0 <= j < |s| ==> s[j].generatedAt > HighResEnd(c, s)
  }

  /** `b` is the newest metric that has left the high-resolution window. */
  predicate IsBoundary<V>(c: Compactor, s: seq<Metric<V>>, b: nat)
  {
    && b < |s|
    && s[b].generatedAt <= HighResEnd(c, s)
    && forall j :: b < j < |s| ==> s[j].generatedAt > HighResEnd(c, s)
  }

  /** A metric may join a sampling group: it is raw and not older than the bucket start. */
  predicate Eligible<V>(m: Metric<V>, sampleEnd: Time)
  {
    !m.downsampled && m.generatedAt >= sampleEnd
  }

  /** The sampling group: the longest run of eligible metrics that ends at the
      boundary metric. It is empty when the boundary metric itself is not eligible. */
  predicate IsSamplingGroup<V>(c: Compactor, s: seq<Metric<V>>, lo: nat, hi: nat)
  {
    && 0 < hi <= |s|
    && lo <= hi
    && IsBoundary(c, s, hi - 1)
    && (forall k :: lo <= k < hi ==> Eligible(s[k], SampleEnd(c, s)))
    && (lo == 0 || !Eligible(s[lo - 1], SampleEnd(c, s)))
  }

  /** Scans `s[i - 1]`, `s[i - 2]`, ... for the first metric at or before `highResEnd`. */
  function ScanForBoundary<V>(s: seq<Metric<V>>, highResEnd: Time, i: nat): (r: Option<nat>)
    requires i <= |s|
    ensures r.Some? ==> r.value < i && s[r.value].generatedAt <= highResEnd
    ensures r.Some? ==> forall j :: r.value < j < i ==> s[j].generatedAt > highResEnd
    ensures r.None? ==> forall j :: 0 <= j < i ==> s[j].generatedAt > highResEnd
    decreases i
  {
    if i == 0 then None
    else if s[i - 1].generatedAt <= highResEnd then Some(i - 1)
    else ScanForBoundary(s, highResEnd, i - 1)
  }

  /** Finds the boundary metric by walking back from the newest one; None when
      every metric is still inside the high-resolution window. */
  function FindDownSamplingStart<V>(c: Compactor, s: seq<Metric<V>>): (r: Option<nat>)
    requires |s| > 0
    ensures r.Some? ==> IsBoundary(c, s, r.value)
    ensures r.None? <==> AllHighResolution(c, s)
  {
    ScanForBoundary(s, HighResEnd(c, s), |s|)
  }

  /** Walks back from `s[hi - 1]` while metrics are eligible; returns where the run starts. */
  function GroupStart<V>(s: seq<Metric<V>>, sampleEnd: Time, hi: nat): (lo: nat)
    requires hi <= |s|
    ensures lo <= hi
    ensures forall k :: lo <= k < hi ==> Eligible(s[k], sampleEnd)
    ensures lo == 0 || !Eligible(s[lo - 1], sampleEnd)
    decreases hi
  {
    if hi == 0 || !Eligible(s[hi - 1], sampleEnd) then hi
    else GroupStart(s, sampleEnd, hi - 1)
  }

  /** The group to compact next: None when nothing has left the high-resolution
      window, otherwise the one sampling group of the series. */
  function FindNextSamplingGroup<V>(c: Compactor, s: seq<Metric<V>>): (r: Option<Span>)
    requires |s| > 0
    ensures r.None? <==> AllHighResolution(c, s)
    ensures r.Some? ==> IsSamplingGroup(c, s, r.value.lo, r.value.hi)
    ensures forall lo: nat, hi: nat :: IsSamplingGroup(c, s, lo, hi) ==> r == Some(Span(lo, hi))
  {
    match FindDownSamplingStart(c, s)
    case None => None
    case Some(b) =>
      Some(Span(GroupStart(s, SampleEnd(c, s), b + 1), b + 1))
  }

  /** Size of the group `Reduce` would look at (0 when there is none). */
  function GroupLen<V>(c: Compactor, s: seq<Metric<V>>): nat
  {
    if |s| == 0 then 0
    else match FindNextSamplingGroup(c, s)
      case None => 0
      case Some(g) => g.hi - g.lo
  }

  /** `Reduce` returns instead of panicking: a non-empty series needs a non-zero
      collection interval (it is a divisor), and an empty group is only safe
      when the expected bucket size is at least one (otherwise the source reads
      the last element of the empty group). */
  predicate ReduceDefined<V>(c: Compactor, s: seq<Metric<V>>, interval: Duration)
  {
    |s| == 0 || (interval != 0 && (ExpectedSize(c, interval) >= 1 || GroupLen(c, s) > 0))
  }

  /** The values of a group, newest first: the order the source hands them to the sampler. */
  function NewestFirst<V>(g: seq<Metric<V>>): (vs: seq<V>)
    ensures |vs| == |g|
    ensures forall i :: 0 <= i < |g| ==> vs[i] == g[|g| - 1 - i].value
  {
    if |g| == 0 then [] else [g[|g| - 1].value] + NewestFirst(g[..|g| - 1])
  }

  /** The metric that replaces a group: stamped with the oldest member's time,
      carrying the sampler's reduction, and marked as downsampled. */
  function Downsample<V>(g: seq<Metric<V>>, sampler: seq<V> -> V): Metric<V>
    requires |g| > 0
  {
    Metric(g[0].generatedAt, sampler(NewestFirst(g)), true)
  }

  /** One compaction step. Nothing changes for an empty series, for a series
      still entirely in the high-resolution window, or when the sampling group is
      smaller than a complete bucket; otherwise the group is spliced out and its
      downsampled metric put in its place. */
  function Reduce<V>(c: Compactor, s: seq<Metric<V>>, interval: Duration, sampler: seq<V> -> V): (r: seq<Metric<V>>)
    requires ReduceDefined(c, s, interval)
    ensures |s| == 0 ==> r == s
    ensures |s| > 0 && AllHighResolution(c, s) ==> r == s
    ensures forall lo: nat, hi: nat | IsSamplingGroup(c, s, lo, hi) && hi - lo < ExpectedSize(c, interval) ::
              r == s
    ensures forall lo: nat, hi: nat | IsSamplingGroup(c, s, lo, hi) && hi - lo >= ExpectedSize(c, interval) ::
              lo < hi && r == s[..lo] + [Downsample(s[lo..hi], sampler)] + s[hi..]
  {
    if |s| == 0 then s
    else
      var group := FindNextSamplingGroup(c, s);
      var size := if group.None? then 0 else group.value.hi - group.value.lo;
      if size < ExpectedSize(c, interval) then s
      else
        var lo, hi := group.value.lo, group.value.hi;
        s[..lo] + [Downsample(s[lo..hi], sampler)] + s[hi..]
  }

  /** With a positive high-resolution window the newest metric is never part of
      a group, so compaction keeps it at the back. */
  lemma ReduceKeepsNewest<V>(c: Compactor, s: seq<Metric<V>>, interval: Duration, sampler: seq<V> -> V)
    requires ReduceDefined(c, s, interval)
    requires c.highResolutionInterval > 0
    requires |s| > 0
    ensures |Reduce(c, s, interval, sampler)| > 0
    ensures Reduce(c, s, interval, sampler)[|Reduce(c, s, interval, sampler)| - 1] == s[|s| - 1]
  {
  }

  /** Compaction keeps a series in timestamp order. */
  lemma ReducePreservesSorted<V>(c: Compactor, s: seq<Metric<V>>, interval: Duration, sampler: seq<V> -> V)
    requires ReduceDefined(c, s, interval)
    requires Sorted(s)
    ensures Sorted(Reduce(c, s, interval, sampler))
  {
  }

  /** Compacting twice with no new data is the same as compacting once: after a
      reduction the boundary metric is the new downsampled metric (with a
      positive high-resolution window because everything after the group is
      newer than the boundary; otherwise because the group ended at the back),
      so the next group is empty and below a bucket of at least one. */
  lemma ReduceIdempotent<V>(c: Compactor, s: seq<Metric<V>>, interval: Duration, sampler: seq<V> -> V)
    requires Sorted(s)
    requires interval != 0 && ExpectedSize(c, interval) >= 1
    ensures ReduceDefined(c, Reduce(c, s, interval, sampler), interval)
    ensures Reduce(c, Reduce(c, s, interval, sampler), interval, sampler) == Reduce(c, s, interval, sampler)
  {
    var r := Reduce(c, s, interval, sampler);
    if |s| > 0 {
      var group := FindNextSamplingGroup(c, s);
      if group.Some? {
        var lo, hi := group.value.lo, group.value.hi;
        if hi - lo >= ExpectedSize(c, interval) {
          if c.highResolutionInterval > 0 {
            ReduceKeepsNewest(c, s, interval, sampler);
            forall j | lo < j < |r|
              ensures r[j].generatedAt > HighResEnd(c, r)
            {
              assert r[j] == s[j + (hi - lo) - 1];
            }
          } else {
            assert hi == |s|;
            assert |r| == lo + 1;
          }
          assert IsSamplingGroup(c, r, lo + 1, lo + 1);
        }
      }
    }
  }

  /** A group of one is downsampled to its own time and the sampler applied to
      its value alone. */
  lemma DownsampleSingle<V>(m: Metric<V>, sampler: seq<V> -> V)
    ensures Downsample([m], sampler) == Metric(m.generatedAt, sampler([m.value]), true)
  {
    assert NewestFirst([m]) == [m.value];
  }

  /** With both windows zero the expected bucket size is zero and the group is
      the newest metric alone (when it is raw and strictly newer than the one
      before it), so compaction marks it downsampled in place. */
  lemma ZeroWindowsDownsampleNewest<V>(c: Compactor, s: seq<Metric<V>>, interval: Duration, sampler: seq<V> -> V)
    requires c.highResolutionInterval == 0 && c.downSamplingInterval == 0
    requires |s| > 0
    requires interval != 0
    requires !s[|s| - 1].downsampled
    requires |s| == 1 || s[|s| - 2].generatedAt < s[|s| - 1].generatedAt
    ensures ReduceDefined(c, s, interval)
    ensures var r := Reduce(c, s, interval, sampler);
            && |r| == |s|
            && r[..|s| - 1] == s[..|s| - 1]
            && r[|s| - 1] == Downsample([s[|s| - 1]], sampler)
  {
  }
}
