/**
 `scaleNodeSize`: the linear map from the observed volume range
 [minTransaction, maxTransaction] onto the node sizes [5, 20]. JavaScript
 numbers are modelled as reals; the division by the width of the range is
 the source's own, unguarded, so the model requires a non-empty range.
 */
module Scaling {

  const MinSize: real := 5.0
  const MaxSize: real := 20.0

  /**
   A JavaScript number, as far as the unguarded divisions of the page need it:
   a finite value, NaN, or an infinity of the given sign.
   */
  datatype JsNumber = Num(x: real) | NaN | Infinity(positive: bool)

  /**
   `a / b` on finite operands: a finite quotient exactly when the divisor is
   non-zero, the number that multiplied by `b` gives back `a`; for a zero
   divisor (+0) JavaScript gives NaN for 0 / 0 and +Infinity for a positive
   dividend.
   */
  function JsDivide(a: real, b: real): (r: JsNumber)
    ensures r.Num? <==> b != 0.0
    ensures r.Num? ==> r.x * b == a
    ensures b == 0.0 && a == 0.0 ==> r == NaN
    ensures b == 0.0 && a > 0.0 ==> r == Infinity(true)
  {
    if b != 0.0 then Num(a / b)
    else if a == 0.0 then NaN
    else Infinity(a > 0.0)
  }

  /** `scaleNodeSize(value)` with `lo` = minTransaction and `hi` = maxTransaction. */
  function ScaleNodeSize(value: real, lo: real, hi: real): (r: real)
    requires lo < hi
    ensures value == lo ==> r == MinSize
    ensures value == hi ==> r == MaxSize
    ensures lo <= value <= hi ==> MinSize <= r <= MaxSize
  {
    var t := (value - lo) / (hi - lo);
    UnitQuotient(value - lo, hi - lo);
    t * (MaxSize - MinSize) + MinSize
  }

  /** The fraction of the range a volume covers: 0 at the bottom, 1 at the top, in between inside. */
  lemma UnitQuotient(a: real, b: real)
    requires 0.0 < b
    ensures a == 0.0 ==> a / b == 0.0
    ensures a == b ==> a / b == 1.0
    ensures 0.0 <= a <= b ==> 0.0 <= a / b <= 1.0
  {
  }

  /** The scale is strictly increasing, so distinct volumes never get the same size. */
  lemma ScaleStrictlyIncreasing(v: real, w: real, lo: real, hi: real)
    requires lo < hi
    requires v < w
    ensures ScaleNodeSize(v, lo, hi) < ScaleNodeSize(w, lo, hi)
  {
    ScaleIsLinear(v, w, lo, hi);
    var p := (w - v) * (MaxSize - MinSize);
    PositiveQuotient(p, hi - lo);
  }

  lemma PositiveQuotient(p: real, d: real)
    requires p > 0.0 && d > 0.0
    ensures p / d > 0.0
  {
  }

  /**
   The scale is linear: the difference of two sizes is the difference of the
   volumes times the fixed slope (maxSize - minSize) / (max - min).
   */
  lemma ScaleIsLinear(v: real, w: real, lo: real, hi: real)
    requires lo < hi
    ensures ScaleNodeSize(w, lo, hi) - ScaleNodeSize(v, lo, hi) == (w - v) * (MaxSize - MinSize) / (hi - lo)
  {
    var d := hi - lo;
    calc {
      ScaleNodeSize(w, lo, hi) - ScaleNodeSize(v, lo, hi);
      ((w - lo) / d) * (MaxSize - MinSize) - ((v - lo) / d) * (MaxSize - MinSize);
      ((w - lo) / d - (v - lo) / d) * (MaxSize - MinSize);
      { assert (w - lo) / d - (v - lo) / d == (w - v) / d; }
      ((w - v) / d) * (MaxSize - MinSize);
    }
  }

  /**
   `scaleNodeSize` exactly as written, for every range including a degenerate
   one: a NaN or an infinity from the division stays one after `* 15 + 5`.
   */
  function ScaleNodeSizeAsWritten(value: real, lo: real, hi: real): (r: JsNumber)
    ensures lo < hi ==> r == Num(ScaleNodeSize(value, lo, hi))
    ensures lo == hi ==> !r.Num?
    ensures lo == hi == value ==> r == NaN
  {
    match JsDivide(value - lo, hi - lo)
    case Num(t) => Num(t * (MaxSize - MinSize) + MinSize)
    case NaN => NaN
    case Infinity(positive) => Infinity(positive)
  }

  /**
   A departure from the source: the intended degenerate-range policy, under
   which a range with min == max gives every node the maximum size
   instead of dividing zero by zero. Elsewhere it agrees with the source.
   */
  function GuardedScaleNodeSize(value: real, lo: real, hi: real): (r: real)
    requires lo <= hi
    ensures lo < hi ==> ScaleNodeSizeAsWritten(value, lo, hi) == Num(r)
    ensures lo == hi ==> r == MaxSize
    ensures lo <= value <= hi ==> MinSize <= r <= MaxSize
  {
    if lo == hi then MaxSize else ScaleNodeSize(value, lo, hi)
  }
}
