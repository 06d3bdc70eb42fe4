/**
 * The element-wise affine map both scalers apply to a column,
 *
 *     x  ↦  ((x - shift) * factor) / divisor + offset,
 *
 * with NaN passing through unchanged. TimeSeriesScalerMinMax uses
 * shift = min, factor = hi - lo, divisor = max - min, offset = lo;
 * TimeSeriesScalerMeanVariance uses shift = mean, factor = std,
 * divisor = the actual standard deviation (or 1), offset = mu.
 * The lemmas say how such a map moves the statistics of Stats.
 */
module Affine {
  import opened Stats

  datatype AffineMap = AffineMap(shift: real, factor: real, divisor: real, offset: real)

  /** How much the output grows per unit of input. */
  function Slope(a: AffineMap): real
    requires a.divisor != 0.0
  {
    a.factor / a.divisor
  }

  /** The formula itself, over plain numbers. */
  function MapValue(shift: real, factor: real, divisor: real, offset: real, x: real): real
    requires divisor != 0.0
  {
    ((x - shift) * factor) / divisor + offset
  }

  function Apply(a: AffineMap, x: real): real
    requires a.divisor != 0.0
  {
    MapValue(a.shift, a.factor, a.divisor, a.offset, x)
  }

  /** The map applied to every sample of a list of numbers. */
  function ApplyAll(a: AffineMap, xs: seq<real>): (ys: seq<real>)
    requires a.divisor != 0.0
    ensures |ys| == |xs|
    ensures forall k :: 0 <= k < |xs| ==> ys[k] == Apply(a, xs[k])
  {
    seq(|xs|, k requires 0 <= k < |xs| => Apply(a, xs[k]))
  }

  /** The map applied to a column: numbers are mapped, NaN stays NaN. */
  function ApplyColumn(a: AffineMap, col: seq<Value>): (out: seq<Value>)
    requires a.divisor != 0.0
    ensures |out| == |col|
    ensures forall j :: 0 <= j < |col| ==> (out[j].None? <==> col[j].None?)
    ensures forall j :: 0 <= j < |col| && col[j].Some? ==> out[j] == Some(Apply(a, col[j].value))
  {
    seq(|col|, j requires 0 <= j < |col| => if col[j].Some? then Some(Apply(a, col[j].value)) else None)
  }

  lemma QuotientOfProduct(u: real, f: real, dv: real)
    requires dv != 0.0
    ensures (u * f) / dv == u * (f / dv)
  {
    var q := f / dv;
    assert q * dv == f;
    assert u * f == (u * q) * dv;
  }

  /** The two documented examples of TimeSeriesScalerMinMax, with value_range = (1, 2), as maps. */
  lemma ValuesOfExamples()
    ensures Apply(AffineMap(0.0, 1.0, 6.0, 1.0), 0.0) == 1.0
    ensures Apply(AffineMap(0.0, 1.0, 6.0, 1.0), 3.0) == 1.5
    ensures Apply(AffineMap(0.0, 1.0, 6.0, 1.0), 6.0) == 2.0
    ensures Apply(AffineMap(3.0, 1.0, 3.0, 1.0), 3.0) == 1.0
    ensures Apply(AffineMap(3.0, 1.0, 3.0, 1.0), 6.0) == 2.0
  {
  }

  /** The shift itself is sent to the offset. */
  lemma ApplyAtShift(a: AffineMap)
    requires a.divisor != 0.0
    ensures Apply(a, a.shift) == a.offset
  {
  }

  /** The map is a straight line through (shift, offset) with gradient Slope(a). */
  lemma ApplyIsLine(a: AffineMap, x: real)
    requires a.divisor != 0.0
    ensures Apply(a, x) == (x - a.shift) * Slope(a) + a.offset
  {
    QuotientOfProduct(x - a.shift, a.factor, a.divisor);
  }

  lemma ApplyDifference(a: AffineMap, x: real, y: real)
    requires a.divisor != 0.0
    ensures Apply(a, y) - Apply(a, x) == (y - x) * Slope(a)
  {
    ApplyIsLine(a, x);
    ApplyIsLine(a, y);
  }

  lemma ProductNonNegative(u: real, c: real, p: real)
    requires p == u * c && u >= 0.0 && c > 0.0
    ensures p >= 0.0
  {
  }

  /** A map with positive slope preserves the order of samples. */
  lemma ApplyMonotone(a: AffineMap, x: real, y: real)
    requires a.divisor != 0.0 && Slope(a) > 0.0 && x <= y
    ensures Apply(a, x) <= Apply(a, y)
  {
    ApplyDifference(a, x, y);
    ProductNonNegative(y - x, Slope(a), Apply(a, y) - Apply(a, x));
  }

  lemma ApplyAllCons(a: AffineMap, x: real, xs: seq<real>)
    requires a.divisor != 0.0
    ensures ApplyAll(a, [x] + xs) == [Apply(a, x)] + ApplyAll(a, xs)
  {
  }

  lemma {:induction false} PresentOfApplyColumn(a: AffineMap, col: seq<Value>)
    requires a.divisor != 0.0
    ensures Present(ApplyColumn(a, col)) == ApplyAll(a, Present(col))
  {
    if col != [] {
      var out := ApplyColumn(a, col);
      assert out[1..] == ApplyColumn(a, col[1..]);
      PresentOfApplyColumn(a, col[1..]);
      var tail := Present(col[1..]);
      if col[0].Some? {
        assert Present(col) == [col[0].value] + tail;
        assert Present(out) == [Apply(a, col[0].value)] + Present(out[1..]);
        ApplyAllCons(a, col[0].value, tail);
      } else {
        assert Present(col) == tail;
        assert Present(out) == Present(out[1..]);
      }
    }
  }

  lemma {:induction false} SumOfApplyAll(a: AffineMap, xs: seq<real>)
    requires a.divisor != 0.0
    ensures Sum(ApplyAll(a, xs)) == (Sum(xs) - |xs| as real * a.shift) * Slope(a) + |xs| as real * a.offset
  {
    if xs != [] {
      var ys := ApplyAll(a, xs);
      assert ys[1..] == ApplyAll(a, xs[1..]);
      SumOfApplyAll(a, xs[1..]);
      ApplyIsLine(a, xs[0]);
      var n := |xs| as real;
      var c := Slope(a);
      var rest := Sum(xs[1..]);
      assert (xs[0] - a.shift) * c + (rest - (n - 1.0) * a.shift) * c == (xs[0] + rest - n * a.shift) * c;
    }
  }

  lemma AverageOfLine(sum: real, total: real, n: real, shift: real, c: real, offset: real, image: real)
    requires n > 0.0
    requires sum == (total - n * shift) * c + n * offset
    requires image == (total / n - shift) * c + offset
    ensures sum / n == image
  {
    var m := total / n;
    assert total == m * n;
    assert sum == ((m - shift) * c + offset) * n;
  }

  /** The mean of the mapped samples is the mapped mean. */
  lemma MeanOfApplyAll(a: AffineMap, xs: seq<real>)
    requires a.divisor != 0.0 && xs != []
    ensures Mean(ApplyAll(a, xs)) == Apply(a, Mean(xs))
  {
    SumOfApplyAll(a, xs);
    ApplyIsLine(a, Mean(xs));
    AverageOfLine(Sum(ApplyAll(a, xs)), Sum(xs), |xs| as real, a.shift, Slope(a), a.offset, Apply(a, Mean(xs)));
  }

  lemma SquareOfProduct(u: real, c: real)
    ensures Square(u * c) == Square(c) * Square(u)
  {
  }

  /** One squared deviation scales by the squared slope. */
  lemma ScaledDeviation(a: AffineMap, x: real, m: real)
    requires a.divisor != 0.0
    ensures Square(Apply(a, x) - Apply(a, m)) == Square(Slope(a)) * Square(x - m)
  {
    ApplyDifference(a, m, x);
    SquareOfProduct(x - m, Slope(a));
  }

  lemma Distribute(c: real, h: real, r: real)
    ensures c * h + c * r == c * (h + r)
  {
  }

  lemma {:induction false} SquaredDeviationsOfApplyAll(a: AffineMap, xs: seq<real>, m: real)
    requires a.divisor != 0.0
    ensures SquaredDeviations(ApplyAll(a, xs), Apply(a, m)) == Square(Slope(a)) * SquaredDeviations(xs, m)
  {
    if xs != [] {
      var ys := ApplyAll(a, xs);
      var am := Apply(a, m);
      var c2 := Square(Slope(a));
      assert ys[1..] == ApplyAll(a, xs[1..]);
      SquaredDeviationsOfApplyAll(a, xs[1..], m);
      ScaledDeviation(a, xs[0], m);
      var head := Square(xs[0] - m);
      var rest := SquaredDeviations(xs[1..], m);
      assert SquaredDeviations(ys, am) == Square(ys[0] - am) + SquaredDeviations(ys[1..], am);
      assert SquaredDeviations(ys, am) == c2 * head + c2 * rest;
      Distribute(c2, head, rest);
    }
  }

  /** The variance of the mapped samples is the variance scaled by the squared slope. */
  lemma VarianceOfApplyAll(a: AffineMap, xs: seq<real>)
    requires a.divisor != 0.0 && xs != []
    ensures Variance(ApplyAll(a, xs)) == Square(Slope(a)) * Variance(xs)
  {
    var n := |xs| as real;
    var ys := ApplyAll(a, xs);
    var c2 := Square(Slope(a));
    var s := SquaredDeviations(xs, Mean(xs));
    MeanOfApplyAll(a, xs);
    SquaredDeviationsOfApplyAll(a, xs, Mean(xs));
    assert SquaredDeviations(ys, Mean(ys)) == c2 * s;
    assert |ys| as real == n;
    QuotientOfProduct(c2, s, n);
    assert Variance(ys) == (c2 * s) / n;
    assert Variance(xs) == s / n;
  }

  /** With a positive slope the smallest sample is mapped to the smallest output. */
  lemma MinOfApplyAll(a: AffineMap, xs: seq<real>)
    requires a.divisor != 0.0 && Slope(a) > 0.0 && xs != []
    ensures MinOf(ApplyAll(a, xs)) == Apply(a, MinOf(xs))
  {
    var ys := ApplyAll(a, xs);
    var lo := MinOf(xs);
    var k :| 0 <= k < |xs| && xs[k] == lo;
    assert Apply(a, lo) in ys by { assert ys[k] == Apply(a, lo); }
    forall y | y in ys
      ensures Apply(a, lo) <= y
    {
      var j :| 0 <= j < |ys| && ys[j] == y;
      assert xs[j] in xs;
      ApplyMonotone(a, lo, xs[j]);
    }
    var m := MinOf(ys);
    var j :| 0 <= j < |ys| && ys[j] == m;
    assert xs[j] in xs;
    ApplyMonotone(a, lo, xs[j]);
  }

  /** With a positive slope the largest sample is mapped to the largest output. */
  lemma MaxOfApplyAll(a: AffineMap, xs: seq<real>)
    requires a.divisor != 0.0 && Slope(a) > 0.0 && xs != []
    ensures MaxOf(ApplyAll(a, xs)) == Apply(a, MaxOf(xs))
  {
    var ys := ApplyAll(a, xs);
    var hi := MaxOf(xs);
    var k :| 0 <= k < |xs| && xs[k] == hi;
    assert Apply(a, hi) in ys by { assert ys[k] == Apply(a, hi); }
    forall y | y in ys
      ensures y <= Apply(a, hi)
    {
      var j :| 0 <= j < |ys| && ys[j] == y;
      assert xs[j] in xs;
      ApplyMonotone(a, xs[j], hi);
    }
  }
}
