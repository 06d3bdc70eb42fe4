/**
 * TimeSeriesScalerMinMax: rescales every series, feature by feature, so that
 * its span becomes the target interval [lo, hi]. The minimum and maximum are
 * taken over the non-missing samples of that one series and feature; NaN
 * samples stay NaN.
 */
module MinMaxScaling {
  import opened Stats
  import opened Affine
  import opened Datasets

  /** A DeprecationWarning emitted while the legacy `min`/`max` parameters are read. */
  datatype Warning = MinDeprecated | MaxDeprecated

  /** The resolved target interval and the warnings emitted while resolving it. */
  datatype TargetRange = TargetRange(lo: real, hi: real, warnings: seq<Warning>)

  /**
   * The target interval: `value_range`, whose lower end is replaced by the
   * legacy `min` and whose upper end is replaced by the legacy `max` when
   * they are given; each override emits its warning, `min`'s first.
   */
  function ResolveRange(valueRange: (real, real), min: Option<real>, max: Option<real>): (r: TargetRange)
    ensures r.lo == if min.Some? then min.value else valueRange.0
    ensures r.hi == if max.Some? then max.value else valueRange.1
    ensures r.warnings == (if min.Some? then [MinDeprecated] else []) + (if max.Some? then [MaxDeprecated] else [])
  {
    var start := TargetRange(valueRange.0, valueRange.1, []);
    var afterMin := if min.Some? then TargetRange(min.value, start.hi, start.warnings + [MinDeprecated]) else start;
    if max.Some? then TargetRange(afterMin.lo, max.value, afterMin.warnings + [MaxDeprecated]) else afterMin
  }

  /** The column has present samples and they are not all equal: max - min != 0. */
  predicate HasSpan(col: seq<Value>): (b: bool)
    ensures b ==> NanMin(col).Some? && NanMax(col).Some? && NanMin(col).value < NanMax(col).value
    ensures forall j, k :: 0 <= j < |col| && 0 <= k < |col| && col[j].Some? && col[k].Some? && col[j] != col[k] ==> b
  {
    NanMin(col).Some? && NanMax(col).value != NanMin(col).value
  }

  /** x ↦ ((x - min) * (hi - lo)) / (max - min) + lo for one column. */
  function ScalingMap(col: seq<Value>, lo: real, hi: real): (a: AffineMap)
    requires HasSpan(col)
    ensures a.divisor != 0.0
  {
    var mn := NanMin(col).value;
    var mx := NanMax(col).value;
    AffineMap(mn, hi - lo, mx - mn, lo)
  }

  /**
   * One series' feature after min-max scaling. Without a span every sample
   * is NaN: a present sample equals the minimum, so the formula divides 0 by
   * 0, and a missing one is NaN anyway.
   */
  function MinMaxColumn(col: seq<Value>, lo: real, hi: real): (out: seq<Value>)
    ensures |out| == |col|
    ensures forall j :: 0 <= j < |col| && col[j].None? ==> out[j].None?
    ensures HasSpan(col) ==> forall j :: 0 <= j < |col| ==> (out[j].Some? <==> col[j].Some?)
    ensures !HasSpan(col) ==> forall j :: 0 <= j < |col| ==> out[j].None?
  {
    if HasSpan(col) then ApplyColumn(ScalingMap(col, lo, hi), col) else AllMissing(|col|)
  }

  /** The whole dataset after min-max scaling: every series and feature on its own. */
  function MinMaxScale(X: seq<Series>, s: Shape, lo: real, hi: real): (Y: seq<Series>)
    requires HasShape(X, s)
    ensures HasShape(Y, s)
    ensures forall i, j, di :: 0 <= i < s.n && 0 <= j < s.sz && 0 <= di < s.d ==>
              Y[i][j][di] == MinMaxColumn(Column(X[i], di), lo, hi)[j]
  {
    seq(s.n, i requires 0 <= i < s.n =>
      seq(s.sz, j requires 0 <= j < s.sz =>
        seq(s.d, di requires 0 <= di < s.d => MinMaxColumn(Column(X[i], di), lo, hi)[j])))
  }

  lemma CancelFactor(u: real, f: real)
    requires u != 0.0
    ensures (u * f) / u == f
  {
  }

  /** With a span and lo < hi the scaling map is increasing. */
  lemma ScalingMapIncreasing(col: seq<Value>, lo: real, hi: real)
    requires HasSpan(col) && lo < hi
    ensures Slope(ScalingMap(col, lo, hi)) > 0.0
  {
    var mn := NanMin(col).value;
    var mx := NanMax(col).value;
    assert mn <= mx by {
      var j :| 0 <= j < |col| && col[j] == Some(mx);
    }
    QuotientPositive(hi - lo, mx - mn);
  }

  lemma IntervalEnds(mn: real, mx: real, lo: real, hi: real)
    requires mn != mx
    ensures Apply(AffineMap(mn, hi - lo, mx - mn, lo), mn) == lo
    ensures Apply(AffineMap(mn, hi - lo, mx - mn, lo), mx) == hi
  {
    CancelFactor(mx - mn, hi - lo);
  }

  /** The minimum is mapped to lo and the maximum to hi. */
  lemma ScalingMapEnds(col: seq<Value>, lo: real, hi: real)
    requires HasSpan(col)
    ensures Apply(ScalingMap(col, lo, hi), NanMin(col).value) == lo
    ensures Apply(ScalingMap(col, lo, hi), NanMax(col).value) == hi
  {
    IntervalEnds(NanMin(col).value, NanMax(col).value, lo, hi);
  }

  /** A position holding the column's minimum becomes lo, one holding its maximum becomes hi. */
  lemma MinMaxExtremes(col: seq<Value>, lo: real, hi: real)
    requires HasSpan(col)
    ensures forall j :: 0 <= j < |col| && col[j] == NanMin(col) ==> MinMaxColumn(col, lo, hi)[j] == Some(lo)
    ensures forall j :: 0 <= j < |col| && col[j] == NanMax(col) ==> MinMaxColumn(col, lo, hi)[j] == Some(hi)
  {
    ScalingMapEnds(col, lo, hi);
  }

  /** Every non-missing output lies in [lo, hi]. */
  lemma MinMaxWithinRange(col: seq<Value>, lo: real, hi: real)
    requires lo < hi
    ensures forall j :: 0 <= j < |col| && MinMaxColumn(col, lo, hi)[j].Some? ==>
              lo <= MinMaxColumn(col, lo, hi)[j].value <= hi
  {
    if HasSpan(col) {
      var a := ScalingMap(col, lo, hi);
      ScalingMapIncreasing(col, lo, hi);
      ScalingMapEnds(col, lo, hi);
      forall j | 0 <= j < |col| && col[j].Some?
        ensures lo <= Apply(a, col[j].value) <= hi
      {
        ApplyMonotone(a, NanMin(col).value, col[j].value);
        ApplyMonotone(a, col[j].value, NanMax(col).value);
      }
    }
  }

  /** Scaling keeps the order of the samples. */
  lemma MinMaxPreservesOrder(col: seq<Value>, lo: real, hi: real, j: nat, k: nat)
    requires lo < hi && HasSpan(col)
    requires j < |col| && k < |col| && col[j].Some? && col[k].Some?
    requires col[j].value <= col[k].value
    ensures MinMaxColumn(col, lo, hi)[j].value <= MinMaxColumn(col, lo, hi)[k].value
  {
    ScalingMapIncreasing(col, lo, hi);
    ApplyMonotone(ScalingMap(col, lo, hi), col[j].value, col[k].value);
  }

  /** After scaling, the smallest output is exactly lo and the largest exactly hi. */
  lemma MinMaxOutputSpan(col: seq<Value>, lo: real, hi: real)
    requires lo < hi && HasSpan(col)
    ensures NanMin(MinMaxColumn(col, lo, hi)) == Some(lo)
    ensures NanMax(MinMaxColumn(col, lo, hi)) == Some(hi)
  {
    var a := ScalingMap(col, lo, hi);
    var xs := Present(col);
    ScalingMapIncreasing(col, lo, hi);
    ScalingMapEnds(col, lo, hi);
    PresentOfApplyColumn(a, col);
    MinOfApplyAll(a, xs);
    MaxOfApplyAll(a, xs);
  }

  lemma IntervalIdentity(lo: real, hi: real, y: real)
    requires lo != hi
    ensures Apply(AffineMap(lo, hi - lo, hi - lo, lo), y) == y
  {
    CancelFactor(hi - lo, y - lo);
    assert (y - lo) * (hi - lo) == (hi - lo) * (y - lo);
  }

  lemma {:induction false} ApplyColumnIdentity(a: AffineMap, col: seq<Value>)
    requires a.divisor != 0.0
    requires forall j :: 0 <= j < |col| && col[j].Some? ==> Apply(a, col[j].value) == col[j].value
    ensures ApplyColumn(a, col) == col
  {
  }

  /** A column already spanning exactly [lo, hi] is left as it is. */
  lemma ScaledColumnIsFixed(col: seq<Value>, lo: real, hi: real)
    requires lo < hi && NanMin(col) == Some(lo) && NanMax(col) == Some(hi)
    ensures MinMaxColumn(col, lo, hi) == col
  {
    var b := AffineMap(lo, hi - lo, hi - lo, lo);
    MinMaxColumnOfExtremes(col, lo, hi, lo, hi);
    forall j | 0 <= j < |col| && col[j].Some?
      ensures Apply(b, col[j].value) == col[j].value
    {
      IntervalIdentity(lo, hi, col[j].value);
    }
    ApplyColumnIdentity(b, col);
  }

  /** Scaling an already scaled column with the same interval changes nothing. */
  lemma MinMaxIdempotent(col: seq<Value>, lo: real, hi: real)
    requires lo < hi
    ensures MinMaxColumn(MinMaxColumn(col, lo, hi), lo, hi) == MinMaxColumn(col, lo, hi)
  {
    var once := MinMaxColumn(col, lo, hi);
    if HasSpan(col) {
      MinMaxOutputSpan(col, lo, hi);
      ScaledColumnIsFixed(once, lo, hi);
    } else {
      assert !HasSpan(once);
    }
  }

  /** With extremes mn != mx the column is mapped by the affine map those extremes select. */
  lemma MinMaxColumnOfExtremes(col: seq<Value>, lo: real, hi: real, mn: real, mx: real)
    requires NanMin(col) == Some(mn) && NanMax(col) == Some(mx) && mn != mx
    ensures MinMaxColumn(col, lo, hi) == ApplyColumn(AffineMap(mn, hi - lo, mx - mn, lo), col)
  {
    assert HasSpan(col);
    assert ScalingMap(col, lo, hi) == AffineMap(mn, hi - lo, mx - mn, lo);
  }

  /** value_range = (1, 2) on [0, 3, 6] gives [1, 1.5, 2]. */
  lemma DocExampleMinMax(col: seq<Value>)
    requires col == [Some(0.0), Some(3.0), Some(6.0)]
    ensures MinMaxColumn(col, 1.0, 2.0) == [Some(1.0), Some(1.5), Some(2.0)]
  {
    var a := AffineMap(0.0, 1.0, 6.0, 1.0);
    assert MinMaxColumn(col, 1.0, 2.0) == ApplyColumn(a, col) by {
      ExtremesOfExamples();
      MinMaxColumnOfExtremes(col, 1.0, 2.0, 0.0, 6.0);
    }
    assert ApplyColumn(a, col) == [Some(1.0), Some(1.5), Some(2.0)] by {
      ValuesOfExamples();
      ThreeSamples(ApplyColumn(a, col), Some(1.0), Some(1.5), Some(2.0));
    }
  }

  /** value_range = (1, 2) on [NaN, 3, 6] gives [NaN, 1, 2]: min and max come from the two present samples. */
  lemma DocExampleMinMaxMissing(col: seq<Value>)
    requires col == [None, Some(3.0), Some(6.0)]
    ensures MinMaxColumn(col, 1.0, 2.0) == [None, Some(1.0), Some(2.0)]
  {
    var a := AffineMap(3.0, 1.0, 3.0, 1.0);
    assert MinMaxColumn(col, 1.0, 2.0) == ApplyColumn(a, col) by {
      ExtremesOfExamples();
      MinMaxColumnOfExtremes(col, 1.0, 2.0, 3.0, 6.0);
    }
    assert ApplyColumn(a, col) == [None, Some(1.0), Some(2.0)] by {
      ValuesOfExamples();
      ThreeSamples(ApplyColumn(a, col), None, Some(1.0), Some(2.0));
    }
  }

  /** TimeSeriesScalerMinMax: a target interval, and the shape recorded by `Fit`. */
  class TimeSeriesScalerMinMax {
    const valueRange: (real, real)
    const min: Option<real>
    const max: Option<real>
    var fitDims: Option<Shape>

    constructor (valueRange: (real, real), min: Option<real>, max: Option<real>)
      ensures this.valueRange == valueRange && this.min == min && this.max == max
      ensures fitDims == None
    {
      this.valueRange := valueRange;
      this.min := min;
      this.max := max;
      fitDims := None;
    }

    /** Records the shape of the dataset and returns the scaler itself. */
    method Fit(X: seq<Series>, shape: Shape) returns (r: TimeSeriesScalerMinMax)
      requires HasShape(X, shape)
      modifies this
      ensures r == this && fitDims == Some(shape)
    {
      fitDims := Some(shape);
      r := this;
    }

    /**
     * Resolves and checks the target interval before looking at the data,
     * then checks the dataset against the fitted shape and scales it.
     */
    method Transform(X: seq<Series>, shape: Shape) returns (res: Result<seq<Series>>, warnings: seq<Warning>)
      requires HasShape(X, shape)
      ensures warnings == ResolveRange(valueRange, min, max).warnings
      ensures var r := ResolveRange(valueRange, min, max);
        r.lo >= r.hi ==> res == Err(InvalidValueRange(r.lo, r.hi))
      ensures var r := ResolveRange(valueRange, min, max);
        r.lo < r.hi && fitDims.None? ==> res == Err(NotFitted)
      ensures var r := ResolveRange(valueRange, min, max);
        r.lo < r.hi && fitDims.Some? && !CompatibleDims(fitDims.value, shape) ==>
          res == Err(DimensionMismatch(fitDims.value, shape))
      ensures var r := ResolveRange(valueRange, min, max);
        r.lo < r.hi && fitDims.Some? && CompatibleDims(fitDims.value, shape) ==>
          res == Ok(MinMaxScale(X, shape, r.lo, r.hi))
    {
      var range := ResolveRange(valueRange, min, max);
      warnings := range.warnings;
      if range.lo >= range.hi {
        return Err(InvalidValueRange(range.lo, range.hi)), warnings;
      }
      if fitDims.None? {
        return Err(NotFitted), warnings;
      }
      if !CompatibleDims(fitDims.value, shape) {
        return Err(DimensionMismatch(fitDims.value, shape)), warnings;
      }
      res := Ok(MinMaxScale(X, shape, range.lo, range.hi));
    }
  }
}
