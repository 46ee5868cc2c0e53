/**
 * Python's `min`, `max` and `sum` over a non-empty list of numbers, and the
 * mean `sum(xs) / len(xs)` the radar computes; pandas' `min`/`max`/`mean`
 * agree with them on the non-missing values of a column.
 */
module Stats {

  /** The smallest element. */
  function Min(s: seq<real>): (r: real)
    requires |s| > 0
    ensures r in s && forall i | 0 <= i < |s| :: r <= s[i]
  {
    if |s| == 1 then s[0]
    else
      var p := s[..|s| - 1];
      var m := Min(p);
      assert forall i | 0 <= i < |p| :: p[i] == s[i];
      assert m in s;
      if s[|s| - 1] < m then s[|s| - 1] else m
  }

  /** The largest element. */
  function Max(s: seq<real>): (r: real)
    requires |s| > 0
    ensures r in s && forall i | 0 <= i < |s| :: s[i] <= r
  {
    if |s| == 1 then s[0]
    else
      var p := s[..|s| - 1];
      var m := Max(p);
      assert forall i | 0 <= i < |p| :: p[i] == s[i];
      assert m in s;
      if s[|s| - 1] > m then s[|s| - 1] else m
  }

  /** The left-to-right sum. */
  function Sum(s: seq<real>): real {
    if s == [] then 0.0 else Sum(s[..|s| - 1]) + s[|s| - 1]
  }

  /** The arithmetic mean. */
  function Mean(s: seq<real>): real
    requires |s| > 0
  {
    Sum(s) / (|s| as real)
  }

  /** A sum of n terms that all lie in [lo, hi] lies in [n * lo, n * hi]. */
  lemma {:induction false} SumBounds(s: seq<real>, lo: real, hi: real)
    requires forall i | 0 <= i < |s| :: lo <= s[i] <= hi
    ensures (|s| as real) * lo <= Sum(s) <= (|s| as real) * hi
  {
    if s != [] {
      var p := s[..|s| - 1];
      assert forall i | 0 <= i < |p| :: p[i] == s[i];
      SumBounds(p, lo, hi);
    }
  }

  /** q = a / n lies in [lo, hi] when a lies in [n * lo, n * hi] and n > 0. */
  lemma DivBetween(a: real, n: real, lo: real, hi: real)
    requires n > 0.0 && n * lo <= a <= n * hi
    ensures lo <= a / n <= hi
  {
    assert (a / n) * n == a;
  }

  /** The mean of numbers that all lie in [lo, hi] lies in [lo, hi]. */
  lemma MeanBounds(s: seq<real>, lo: real, hi: real)
    requires |s| > 0 && forall i | 0 <= i < |s| :: lo <= s[i] <= hi
    ensures lo <= Mean(s) <= hi
  {
    SumBounds(s, lo, hi);
    DivBetween(Sum(s), |s| as real, lo, hi);
  }

  /** The mean lies between the minimum and the maximum. */
  lemma MeanBetween(s: seq<real>)
    requires |s| > 0
    ensures Min(s) <= Mean(s) <= Max(s)
  {
    MeanBounds(s, Min(s), Max(s));
  }

  /** When the minimum equals the maximum, the mean equals it too. */
  lemma MeanOfFlat(s: seq<real>)
    requires |s| > 0 && Min(s) == Max(s)
    ensures Mean(s) == Min(s)
  {
    MeanBounds(s, Min(s), Max(s));
  }
}
