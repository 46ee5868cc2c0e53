/**
 * `normalize_value`: the linear map of a value onto the 0-100 scale spanned
 * by a minimum and a maximum, with 50 for an empty range. The database variant
 * first coerces its three arguments with `float()` and returns 0 when one of
 * them cannot be coerced; the spreadsheet variant works on pandas floats,
 * where NaN propagates.
 */
module Percentile {
  import opened Wrappers
  import opened Cells

  /**
   * The map itself, on numbers: over a non-empty range the result p is the
   * percentage of the range that v lies above lo, so p% of (hi - lo) is v - lo.
   */
  function Normalize(v: real, lo: real, hi: real): (r: real)
    ensures hi == lo ==> r == 50.0
    ensures hi != lo ==> r * (hi - lo) == (v - lo) * 100.0
  {
    if hi == lo then 50.0
    else
      var d := hi - lo;
      assert ((v - lo) / d) * d == v - lo;
      (v - lo) / d * 100.0
  }

  /** Its inverse: the value that sits at percentile p of [lo, hi]. */
  function Denormalize(p: real, lo: real, hi: real): real {
    lo + p / 100.0 * (hi - lo)
  }

  /** An empty range gives 50, whatever the value. */
  lemma NormalizeDegenerate(v: real, w: real, lo: real, hi: real)
    requires lo == hi
    ensures Normalize(v, lo, hi) == 50.0 && Normalize(v, lo, hi) == Normalize(w, lo, hi)
  {
  }

  /** Division by a positive number keeps order and sign. */
  lemma DivPositive(a: real, b: real, d: real)
    requires d > 0.0
    ensures a < b <==> a / d < b / d
    ensures a == b <==> a / d == b / d
  {
    assert (a / d) * d == a && (b / d) * d == b;
    if a / d < b / d {
      assert (a / d) * d < (b / d) * d;
    }
    if a < b {
      assert a / d < b / d;
    }
  }

  /** Over a proper range the map is strictly increasing. */
  lemma NormalizeMonotone(v: real, w: real, lo: real, hi: real)
    requires lo < hi
    ensures v < w <==> Normalize(v, lo, hi) < Normalize(w, lo, hi)
    ensures v == w <==> Normalize(v, lo, hi) == Normalize(w, lo, hi)
  {
    DivPositive(v - lo, w - lo, hi - lo);
  }

  /**
   * Over a proper range the minimum maps to 0, the maximum to 100, a value
   * strictly inside to a percentile strictly inside, and the map stays in
   * [0, 100] exactly for the values in [lo, hi].
   */
  lemma NormalizeEndpoints(v: real, lo: real, hi: real)
    requires lo < hi
    ensures Normalize(lo, lo, hi) == 0.0 && Normalize(hi, lo, hi) == 100.0
    ensures lo < v < hi ==> 0.0 < Normalize(v, lo, hi) < 100.0
    ensures lo <= v <= hi <==> 0.0 <= Normalize(v, lo, hi) <= 100.0
  {
    NormalizeMonotone(lo, v, lo, hi);
    NormalizeMonotone(v, hi, lo, hi);
    assert (hi - lo) / (hi - lo) == 1.0;
  }

  /** Over a proper range, Denormalize undoes Normalize and the other way round. */
  lemma NormalizeInverse(v: real, p: real, lo: real, hi: real)
    requires lo < hi
    ensures Denormalize(Normalize(v, lo, hi), lo, hi) == v
    ensures Normalize(Denormalize(p, lo, hi), lo, hi) == p
  {
    var d := hi - lo;
    assert ((v - lo) / d) * d == v - lo;
    assert (p / 100.0 * d) / d == p / 100.0;
  }

  /**
   * The database variant: `float()` on each argument, 0 when any of them
   * fails, otherwise the map; coercible arguments with lo <= v <= hi give a
   * result in [0, 100].
   */
  function NormalizePg(v: Cell, lo: Cell, hi: Cell): (r: real)
    ensures Coerce(v).None? || Coerce(lo).None? || Coerce(hi).None? ==> r == 0.0
    ensures Coerce(v).Some? && Coerce(lo).Some? && Coerce(hi).Some? ==>
              r == Normalize(Coerce(v).value, Coerce(lo).value, Coerce(hi).value)
    ensures (Coerce(v).Some? && Coerce(lo).Some? && Coerce(hi).Some? &&
             Coerce(lo).value <= Coerce(v).value <= Coerce(hi).value) ==> 0.0 <= r <= 100.0
  {
    match (Coerce(v), Coerce(lo), Coerce(hi))
    case (Some(x), Some(a), Some(b)) =>
      if a <= x <= b then NormalizeBounded(x, a, b); Normalize(x, a, b) else Normalize(x, a, b)
    case _ => 0.0
  }

  /** The map is 0 exactly at the minimum of a non-empty range. */
  lemma NormalizeZero(x: real, a: real, b: real)
    ensures Normalize(x, a, b) == 0.0 <==> a != b && x == a
  {
    if a != b {
      var d := b - a;
      assert ((x - a) / d) * d == x - a;
    }
  }

  /**
   * The database variant returns 0 exactly when one argument cannot be
   * coerced or the value is the minimum of a non-empty range; in particular a
   * value that cannot be coerced gives 0 even where the range is empty and a
   * number would give 50.
   */
  lemma NormalizePgZero(v: Cell, lo: Cell, hi: Cell)
    ensures NormalizePg(v, lo, hi) == 0.0 <==>
              Coerce(v).None? || Coerce(lo).None? || Coerce(hi).None? ||
              (Coerce(lo) != Coerce(hi) && Coerce(v) == Coerce(lo))
    ensures Coerce(lo).Some? && Coerce(lo) == Coerce(hi) ==>
              NormalizePg(v, lo, hi) == if Coerce(v).Some? then 50.0 else 0.0
  {
    var cv, cl, ch := Coerce(v), Coerce(lo), Coerce(hi);
    if cv.Some? && cl.Some? && ch.Some? {
      NormalizeZero(cv.value, cl.value, ch.value);
    }
  }

  /** On numbers lo <= v <= hi the map lies in [0, 100], the degenerate range included. */
  lemma NormalizeBounded(x: real, a: real, b: real)
    requires a <= x <= b
    ensures 0.0 <= Normalize(x, a, b) <= 100.0
  {
    if a < b {
      NormalizeEndpoints(x, a, b);
    }
  }

  /**
   * The spreadsheet variant on pandas floats: `max_val == min_val` holds only
   * for two equal numbers (NaN equals nothing), and otherwise a NaN anywhere
   * makes the result NaN.
   */
  function NormalizeFloat(v: Float, lo: Float, hi: Float): (r: Float)
    ensures r.NaN? <==> (v.NaN? || lo.NaN? || hi.NaN?) && !(lo.Real? && hi.Real? && lo.value == hi.value)
    ensures v.Real? && lo.Real? && hi.Real? ==> r == Real(Normalize(v.value, lo.value, hi.value))
    ensures v.Real? && lo.Real? && hi.Real? && lo.value <= v.value <= hi.value ==> 0.0 <= r.value <= 100.0
  {
    if lo.Real? && hi.Real? && lo.value == hi.value then Real(50.0)
    else if v.NaN? || lo.NaN? || hi.NaN? then NaN
    else if lo.value <= v.value <= hi.value then
      NormalizeBounded(v.value, lo.value, hi.value);
      Real(Normalize(v.value, lo.value, hi.value))
    else Real(Normalize(v.value, lo.value, hi.value))
  }
}
