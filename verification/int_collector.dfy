/** The one concrete sampler: reduces int64 values to a running maximum that
    starts from zero. */
module MaxSampler {

  newtype Int64 = x: int | -0x8000_0000_0000_0000 <= x < 0x8000_0000_0000_0000

  /** Folds left to right, replacing the accumulator whenever a value exceeds it. */
  function MaxFrom(acc: Int64, ms: seq<Int64>): (r: Int64)
    ensures acc <= r
    ensures forall i :: 0 <= i < |ms| ==> ms[i] <= r
    ensures r == acc || r in ms
    decreases |ms|
  {
    if |ms| == 0 then acc
    else MaxFrom(if ms[0] > acc then ms[0] else acc, ms[1..])
  }

  /** The sampler's reduction. Because the accumulator starts at 0 the result
      is the largest of 0 and the inputs, which is not the maximum of an
      all-negative input. */
  function Reduce(ms: seq<Int64>): (r: Int64)
    ensures 0 <= r
    ensures forall i :: 0 <= i < |ms| ==> ms[i] <= r
    ensures r == 0 || r in ms
  {
    MaxFrom(0, ms)
  }

  /** The three properties of `Reduce` pin its result down: any value having
      them is the result. */
  lemma ReduceCharacterized(ms: seq<Int64>, r: Int64)
    requires 0 <= r
    requires forall i :: 0 <= i < |ms| ==> ms[i] <= r
    requires r == 0 || r in ms
    ensures r == Reduce(ms)
  {
  }

  /** The result does not depend on the order of the inputs, so handing the
      values over newest first (as the compactor does) is harmless. */
  lemma {:induction false} ReduceIgnoresOrder(ms: seq<Int64>, ns: seq<Int64>)
    requires multiset(ms) == multiset(ns)
    ensures Reduce(ms) == Reduce(ns)
  {
    var r := Reduce(ms);
    forall i | 0 <= i < |ns|
      ensures ns[i] <= r
    {
      assert ns[i] in multiset(ms);
    }
    if r != 0 {
      assert r in multiset(ns);
    }
    ReduceCharacterized(ns, r);
  }

  /** For an all-negative input the result is 0, which exceeds every input. */
  lemma ReduceOfNegatives(ms: seq<Int64>)
    requires forall i :: 0 <= i < |ms| ==> ms[i] < 0
    ensures Reduce(ms) == 0
    ensures forall i :: 0 <= i < |ms| ==> ms[i] < Reduce(ms)
  {
  }

  /** The reduction the compactor's example relies on. */
  lemma ReduceTwoOne()
    ensures Reduce([2, 1]) == 2
  {
  }
}
