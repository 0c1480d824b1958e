/** Values shared by every part of the time-series buffer: timestamps and
    durations, the Metric record, and the ordering invariant of a series. */
module Metrics {

  /** A point in time, in nanoseconds since the Unix epoch. */
  type Time = int

  /** A span of time in nanoseconds. Like a Go duration it may be negative. */
  type Duration = int

  datatype Option<+T> = None | Some(value: T)

  /** One sample. `downsampled` marks a metric that is itself the reduction of
      a group of earlier samples and must never be reduced again. */
  datatype Metric<V> = Metric(generatedAt: Time, value: V, downsampled: bool)

  /** A series is kept oldest first: timestamps never decrease from front to back. */
  predicate Sorted<V>(s: seq<Metric<V>>)
  {
    forall i, j :: 0 <= i < j < |s| ==> s[i].generatedAt <= s[j].generatedAt
  }

  function Abs(x: int): nat
  {
    if x < 0 then -x else x
  }

  /** Integer division rounding toward zero, which is what Go's `/` does on
      durations (Dafny's own `/` rounds toward negative infinity for a
      positive divisor). */
  function TruncDiv(a: int, b: int): (q: int)
    requires b != 0
    ensures Abs(q) == Abs(a) / Abs(b)
    ensures q < 0 ==> (a < 0) != (b < 0)
    ensures q > 0 ==> (a < 0) == (b < 0)
  {
    var m: int := NatDiv(Abs(a), Abs(b));
    if (a < 0) == (b < 0) then m else -m
  }

  /** Division of magnitudes, where the rounding directions agree. */
  function NatDiv(x: nat, y: nat): nat
    requires y > 0
  {
    x / y
  }

  /** Appending a metric no older than the newest one keeps a series sorted. */
  lemma AppendSorted<V>(s: seq<Metric<V>>, m: Metric<V>)
    requires Sorted(s)
    requires |s| == 0 || s[|s| - 1].generatedAt <= m.generatedAt
    ensures Sorted(s + [m])
  {
  }
}
