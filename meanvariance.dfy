/**
 * TimeSeriesScalerMeanVariance: standardises every series, feature by
 * feature, to mean `mu` and standard deviation `std`, using the mean and the
 * (population) standard deviation of the non-missing samples of that one
 * series and feature. A standard deviation of 0 is replaced by 1 before it is
 * divided by. NaN samples stay NaN.
 *
 * The square root inside numpy.nanstd is a parameter `sqrt`; the lemmas that
 * need it to be a square root say so with IsSqrt.
 */
module MeanVarianceScaling {
  import opened Stats
  import opened Affine
  import opened Datasets

  /** `sqrt` returns a non-negative square root of every non-negative number. */
  ghost predicate IsSqrt(sqrt: real -> real)
  {
    forall v :: v >= 0.0 ==> sqrt(v) >= 0.0 && Square(sqrt(v)) == v
  }

  /** numpy.nanstd of a column's present samples: the root of the population variance. */
  function StdDev(xs: seq<real>, sqrt: real -> real): (sd: real)
    requires xs != []
    ensures IsSqrt(sqrt) ==> sd >= 0.0 && Square(sd) == Variance(xs)
  {
    sqrt(Variance(xs))
  }

  /** What the samples are divided by: the standard deviation, or 1 where it is 0. */
  function StdDivisor(xs: seq<real>, sqrt: real -> real): (s: real)
    requires xs != []
    ensures s != 0.0
    ensures s == 1.0 || s == StdDev(xs, sqrt)
    ensures StdDev(xs, sqrt) != 0.0 ==> s == StdDev(xs, sqrt)
  {
    var sd := StdDev(xs, sqrt);
    if sd == 0.0 then 1.0 else sd
  }

  /** x ↦ ((x - mean) * std) / divisor + mu for one column. */
  function StandardizingMap(xs: seq<real>, mu: real, std: real, sqrt: real -> real): (a: AffineMap)
    requires xs != []
    ensures a.divisor != 0.0
  {
    AffineMap(Mean(xs), std, StdDivisor(xs, sqrt), mu)
  }

  /**
   * One series' feature after standardisation. A column without any present
   * sample has a NaN mean, so every output is NaN.
   */
  function MeanVarianceColumn(col: seq<Value>, mu: real, std: real, sqrt: real -> real): (out: seq<Value>)
    ensures |out| == |col|
    ensures forall j :: 0 <= j < |col| ==> (out[j].None? <==> col[j].None?)
  {
    var xs := Present(col);
    if xs == [] then AllMissing(|col|) else ApplyColumn(StandardizingMap(xs, mu, std, sqrt), col)
  }

  /** The whole dataset after standardisation: every series and feature on its own. */
  function MeanVarianceScale(X: seq<Series>, s: Shape, mu: real, std: real, sqrt: real -> real): (Y: seq<Series>)
    requires HasShape(X, s)
    ensures HasShape(Y, s)
    ensures forall i, j, di :: 0 <= i < s.n && 0 <= j < s.sz && 0 <= di < s.d ==>
              Y[i][j][di] == MeanVarianceColumn(Column(X[i], di), mu, std, sqrt)[j]
  {
    seq(s.n, i requires 0 <= i < s.n =>
      seq(s.sz, j requires 0 <= j < s.sz =>
        seq(s.d, di requires 0 <= di < s.d => MeanVarianceColumn(Column(X[i], di), mu, std, sqrt)[j])))
  }

  /** The present outputs are the present inputs under the standardising map. */
  lemma PresentOfMeanVarianceColumn(col: seq<Value>, mu: real, std: real, sqrt: real -> real)
    requires Present(col) != []
    ensures Present(MeanVarianceColumn(col, mu, std, sqrt)) ==
            ApplyAll(StandardizingMap(Present(col), mu, std, sqrt), Present(col))
  {
    PresentOfApplyColumn(StandardizingMap(Present(col), mu, std, sqrt), col);
  }

  /** The mean of the non-missing outputs is mu, whatever `sqrt` computes. */
  lemma StandardizedMean(col: seq<Value>, mu: real, std: real, sqrt: real -> real)
    requires Present(col) != []
    ensures Present(MeanVarianceColumn(col, mu, std, sqrt)) != []
    ensures Mean(Present(MeanVarianceColumn(col, mu, std, sqrt))) == mu
  {
    var xs := Present(col);
    var a := StandardizingMap(xs, mu, std, sqrt);
    PresentOfMeanVarianceColumn(col, mu, std, sqrt);
    MeanOfApplyAll(a, xs);
    assert Apply(a, Mean(xs)) == mu;
  }

  /** The only non-negative number whose square is Square(s), for s >= 0, is s. */
  lemma SquareInjective(r: real, s: real)
    requires r >= 0.0 && s >= 0.0 && Square(r) == Square(s)
    ensures r == s
  {
    if r < s {
      ProductSign(s - r, s + r, Square(s) - Square(r));
    } else if s < r {
      ProductSign(r - s, r + s, Square(r) - Square(s));
    }
  }

  lemma SquareOfZero(d: real)
    requires Square(d) == 0.0
    ensures d == 0.0
  {
    if d != 0.0 {
      SquarePositive(d);
    }
  }

  /** With a true square root, the standard deviation is 0 exactly when all samples are equal. */
  lemma StdZeroIffConstant(xs: seq<real>, sqrt: real -> real)
    requires IsSqrt(sqrt) && xs != []
    ensures StdDev(xs, sqrt) == 0.0 <==> forall k :: 0 <= k < |xs| ==> xs[k] == xs[0]
  {
    var v := Variance(xs);
    VarianceZeroIffConstant(xs);
    if sqrt(v) == 0.0 {
      assert Square(sqrt(v)) == v;
    }
    if v == 0.0 {
      SquareOfZero(sqrt(v));
    }
  }

  /**
   * The zero-deviation guard: a column whose present samples are all equal
   * is divided by 1, and every one of its present samples becomes mu.
   */
  lemma ConstantColumnBecomesMu(col: seq<Value>, mu: real, std: real, sqrt: real -> real)
    requires IsSqrt(sqrt)
    requires Present(col) != []
    requires forall k :: 0 <= k < |Present(col)| ==> Present(col)[k] == Present(col)[0]
    ensures StdDivisor(Present(col), sqrt) == 1.0
    ensures forall j :: 0 <= j < |col| && col[j].Some? ==> MeanVarianceColumn(col, mu, std, sqrt)[j] == Some(mu)
  {
    var xs := Present(col);
    StdZeroIffConstant(xs, sqrt);
    MeanOfConstant(xs, xs[0]);
    var a := StandardizingMap(xs, mu, std, sqrt);
    assert MeanVarianceColumn(col, mu, std, sqrt) == ApplyColumn(a, col);
    forall j | 0 <= j < |col| && col[j].Some?
      ensures MeanVarianceColumn(col, mu, std, sqrt)[j] == Some(mu)
    {
      var k :| 0 <= k < |xs| && xs[k] == col[j].value;
      ApplyAtShift(a);
    }
  }

  lemma RatioSquare(std: real, sd: real, v: real, q: real)
    requires sd != 0.0 && Square(sd) == v && q == std / sd
    ensures Square(q) * v == Square(std)
  {
    assert q * sd == std;
    SquareOfProduct(q, sd);
  }

  /** Dividing by a deviation sd with sd² = Variance(xs) and multiplying by std gives variance std². */
  lemma DividedByDeviation(a: AffineMap, xs: seq<real>, std: real, sd: real)
    requires xs != [] && sd != 0.0 && a.divisor == sd && a.factor == std
    requires Square(sd) == Variance(xs)
    ensures Variance(ApplyAll(a, xs)) == Square(std)
  {
    VarianceOfApplyAll(a, xs);
    RatioSquare(std, sd, Variance(xs), Slope(a));
  }

  /**
   * With a true square root and present samples that are not all equal, the
   * non-missing outputs have variance std², hence standard deviation |std|.
   */
  lemma StandardizedVariance(col: seq<Value>, mu: real, std: real, sqrt: real -> real)
    requires IsSqrt(sqrt)
    requires Present(col) != []
    requires exists k :: 0 <= k < |Present(col)| && Present(col)[k] != Present(col)[0]
    ensures Present(MeanVarianceColumn(col, mu, std, sqrt)) != []
    ensures Variance(Present(MeanVarianceColumn(col, mu, std, sqrt))) == Square(std)
  {
    var xs := Present(col);
    var a := StandardizingMap(xs, mu, std, sqrt);
    PresentOfMeanVarianceColumn(col, mu, std, sqrt);
    StdZeroIffConstant(xs, sqrt);
    var sd := StdDev(xs, sqrt);
    assert sd != 0.0;
    assert a.divisor == sd;
    assert Present(MeanVarianceColumn(col, mu, std, sqrt)) == ApplyAll(a, xs);
    DividedByDeviation(a, xs, std, sd);
  }

  /** With a true square root and std >= 0, the outputs' standard deviation is std. */
  lemma StandardizedStd(col: seq<Value>, mu: real, std: real, sqrt: real -> real)
    requires IsSqrt(sqrt) && std >= 0.0
    requires Present(col) != []
    requires exists k :: 0 <= k < |Present(col)| && Present(col)[k] != Present(col)[0]
    ensures Present(MeanVarianceColumn(col, mu, std, sqrt)) != []
    ensures StdDev(Present(MeanVarianceColumn(col, mu, std, sqrt)), sqrt) == std
  {
    StandardizedVariance(col, mu, std, sqrt);
    var r := StdDev(Present(MeanVarianceColumn(col, mu, std, sqrt)), sqrt);
    SquareInjective(r, std);
  }

  /** With a true square root and std > 0 the order of the samples is kept. */
  lemma MeanVariancePreservesOrder(col: seq<Value>, mu: real, std: real, sqrt: real -> real, j: nat, k: nat)
    requires IsSqrt(sqrt) && std > 0.0
    requires j < |col| && k < |col| && col[j].Some? && col[k].Some?
    requires col[j].value <= col[k].value
    ensures MeanVarianceColumn(col, mu, std, sqrt)[j].value <= MeanVarianceColumn(col, mu, std, sqrt)[k].value
  {
    var xs := Present(col);
    assert xs != [];
    var a := StandardizingMap(xs, mu, std, sqrt);
    assert a.divisor > 0.0;
    QuotientPositive(std, a.divisor);
    ApplyMonotone(a, col[j].value, col[k].value);
  }

  /** mu = 0, std = 1 on [NaN, 3, 6] gives [NaN, -1, 1]. */
  lemma DocExampleMeanVarianceMissing(col: seq<Value>, sqrt: real -> real)
    requires IsSqrt(sqrt)
    requires col == [None, Some(3.0), Some(6.0)]
    ensures MeanVarianceColumn(col, 0.0, 1.0, sqrt) == [None, Some(-1.0), Some(1.0)]
  {
    var xs := [3.0, 6.0];
    assert Present(col) == xs by { PresentOfExamples(); }
    assert Mean(xs) == 4.5 by {
      assert Sum(xs) == 9.0 by { assert xs[1..] == [6.0]; }
    }
    assert Variance(xs) == 2.25 by {
      assert Square(3.0 - 4.5) == 2.25;
      assert Square(6.0 - 4.5) == 2.25;
      assert SquaredDeviations(xs, 4.5) == 4.5 by { assert xs[1..] == [6.0]; }
    }
    var sd := StdDev(xs, sqrt);
    assert sd == 1.5 by {
      assert Square(sd) == 2.25;
      SquareInjective(sd, 1.5);
    }
    var a := StandardizingMap(xs, 0.0, 1.0, sqrt);
    assert a == AffineMap(4.5, 1.0, 1.5, 0.0);
    StandardizedValuesOfExample();
    ThreeSamples(MeanVarianceColumn(col, 0.0, 1.0, sqrt), None, Some(-1.0), Some(1.0));
  }

  lemma StandardizedValuesOfExample()
    ensures Apply(AffineMap(4.5, 1.0, 1.5, 0.0), 3.0) == -1.0
    ensures Apply(AffineMap(4.5, 1.0, 1.5, 0.0), 6.0) == 1.0
  {
  }

  /** The sample mean and population variance of [0, 3, 6]. */
  lemma StatisticsOfExample(xs: seq<real>)
    requires xs == [0.0, 3.0, 6.0]
    ensures Mean(xs) == 3.0 && Variance(xs) == 6.0
  {
    var tail, last := xs[1..], xs[1..][1..];
    assert tail == [3.0, 6.0] && last == [6.0] && last[1..] == [];
    assert Sum(last) == 6.0;
    assert Sum(tail) == 9.0;
    assert Sum(xs) == 9.0;
    assert Mean(xs) == 3.0;
    assert SquaredDeviations(last, 3.0) == 9.0 by { assert Square(6.0 - 3.0) == 9.0; }
    assert SquaredDeviations(tail, 3.0) == 9.0 by { assert Square(3.0 - 3.0) == 0.0; }
    assert SquaredDeviations(xs, 3.0) == 18.0 by { assert Square(0.0 - 3.0) == 9.0; }
  }

  /** [0, 3, 6] shifted by its mean 3 and divided by sd, with sd² = 6. */
  lemma StandardizedColumnOfExample(col: seq<Value>, sd: real, s: real)
    requires col == [Some(0.0), Some(3.0), Some(6.0)]
    requires sd > 0.0 && Square(sd) == 6.0 && s == 3.0 / sd
    ensures s > 0.0 && Square(s) == 1.5
    ensures ApplyColumn(AffineMap(3.0, 1.0, sd, 0.0), col) == [Some(-s), Some(0.0), Some(s)]
  {
    var out := ApplyColumn(AffineMap(3.0, 1.0, sd, 0.0), col);
    ExampleSpread(sd, s);
    ThreeSamples(out, Some(-s), Some(0.0), Some(s));
  }

  /**
   * mu = 0, std = 1 on [0, 3, 6] gives [-s, 0, s] with s² = 1.5, the
   * documented 1.22474487.
   */
  lemma DocExampleMeanVariance(col: seq<Value>, sqrt: real -> real)
    requires IsSqrt(sqrt)
    requires col == [Some(0.0), Some(3.0), Some(6.0)]
    ensures |MeanVarianceColumn(col, 0.0, 1.0, sqrt)| == 3
    ensures MeanVarianceColumn(col, 0.0, 1.0, sqrt)[1] == Some(0.0)
    ensures MeanVarianceColumn(col, 0.0, 1.0, sqrt)[0] == Some(-MeanVarianceColumn(col, 0.0, 1.0, sqrt)[2].value)
    ensures MeanVarianceColumn(col, 0.0, 1.0, sqrt)[2].value > 0.0
    ensures Square(MeanVarianceColumn(col, 0.0, 1.0, sqrt)[2].value) == 1.5
  {
    var xs := Present(col);
    assert xs == [0.0, 3.0, 6.0] by { PresentOfExamples(); }
    StatisticsOfExample(xs);
    var sd := StdDev(xs, sqrt);
    assert Square(sd) == 6.0 && sd >= 0.0;
    var a := StandardizingMap(xs, 0.0, 1.0, sqrt);
    assert a == AffineMap(3.0, 1.0, sd, 0.0);
    var s := 3.0 / sd;
    StandardizedColumnOfExample(col, sd, s);
  }

  lemma ExampleSpread(sd: real, s: real)
    requires sd > 0.0 && Square(sd) == 6.0 && s == 3.0 / sd
    ensures s > 0.0 && Square(s) == 1.5
    ensures MapValue(3.0, 1.0, sd, 0.0, 0.0) == -s
    ensures MapValue(3.0, 1.0, sd, 0.0, 3.0) == 0.0
    ensures MapValue(3.0, 1.0, sd, 0.0, 6.0) == s
  {
    QuotientPositive(3.0, sd);
    RatioSquare(3.0, sd, 6.0, s);
    assert Square(3.0) == 9.0;
  }

  /** numpy.nanstd of one column: None (NaN) when no sample is present. */
  function NanStd(col: seq<Value>, sqrt: real -> real): (r: Value)
    ensures r.None? <==> Present(col) == []
    ensures r.Some? ==> r.value == StdDev(Present(col), sqrt)
  {
    var xs := Present(col);
    if xs == [] then None else Some(StdDev(xs, sqrt))
  }

  /** The zero guard on one entry of the deviation table: an exact 0 becomes 1. */
  function ZeroGuard(v: Value): (r: Value)
    ensures r.None? <==> v.None?
    ensures r.Some? ==> r.value != 0.0
    ensures v.Some? && v.value != 0.0 ==> r == v
  {
    if v == Some(0.0) then Some(1.0) else v
  }

  /** The guarded nanstd of a column with present samples is the divisor StdDivisor chooses. */
  lemma GuardedStdIsDivisor(col: seq<Value>, sqrt: real -> real)
    requires Present(col) != []
    ensures ZeroGuard(NanStd(col, sqrt)) == Some(StdDivisor(Present(col), sqrt))
  {
  }

  /** One column standardised with its mean and a divisor read from the deviation table. */
  function StandardizeWith(col: seq<Value>, mu: real, std: real, divisor: Value): (out: seq<Value>)
    requires Present(col) != [] ==> divisor.Some? && divisor.value != 0.0
    ensures |out| == |col|
    ensures forall j :: 0 <= j < |col| ==> (out[j].None? <==> col[j].None?)
  {
    var xs := Present(col);
    if xs == [] then AllMissing(|col|) else ApplyColumn(AffineMap(Mean(xs), std, divisor.value, mu), col)
  }

  /** Dividing by the guarded table entry is exactly MeanVarianceColumn. */
  lemma StandardizeWithGuardedStd(col: seq<Value>, mu: real, std: real, sqrt: real -> real)
    ensures StandardizeWith(col, mu, std, ZeroGuard(NanStd(col, sqrt))) == MeanVarianceColumn(col, mu, std, sqrt)
  {
    if Present(col) != [] {
      GuardedStdIsDivisor(col, sqrt);
    }
  }

  /** Entry i, di of a table holds a usable divisor for feature di of series i. */
  predicate DivisorsFor(X: seq<Series>, s: Shape, divisors: seq<seq<Value>>)
    requires HasShape(X, s)
  {
    && |divisors| == s.n
    && forall i :: 0 <= i < s.n ==>
         && |divisors[i]| == s.d
         && forall di :: 0 <= di < s.d && Present(Column(X[i], di)) != [] ==>
              divisors[i][di].Some? && divisors[i][di].value != 0.0
  }

  /** The whole-array expression of the transform, with the divisors taken from a table. */
  function StandardizeAll(X: seq<Series>, s: Shape, mu: real, std: real, divisors: seq<seq<Value>>): (Y: seq<Series>)
    requires HasShape(X, s) && DivisorsFor(X, s, divisors)
    ensures HasShape(Y, s)
    ensures forall i, j, di :: 0 <= i < s.n && 0 <= j < s.sz && 0 <= di < s.d ==>
              Y[i][j][di] == StandardizeWith(Column(X[i], di), mu, std, divisors[i][di])[j]
  {
    seq(s.n, i requires 0 <= i < s.n =>
      seq(s.sz, j requires 0 <= j < s.sz =>
        seq(s.d, di requires 0 <= di < s.d => StandardizeWith(Column(X[i], di), mu, std, divisors[i][di])[j])))
  }

  /** The contents of a two-dimensional array, row by row. */
  function Rows(t: array2<Value>): (rows: seq<seq<Value>>)
    reads t
    ensures |rows| == t.Length0
    ensures forall i :: 0 <= i < t.Length0 ==> |rows[i]| == t.Length1
    ensures forall i, di :: 0 <= i < t.Length0 && 0 <= di < t.Length1 ==> rows[i][di] == t[i, di]
  {
    seq(t.Length0, i requires 0 <= i < t.Length0 reads t =>
      seq(t.Length1, di requires 0 <= di < t.Length1 reads t => t[i, di]))
  }

  /** std_t before the guard: numpy.nanstd of every series and feature, one row per series. */
  method StdTable(X: seq<Series>, s: Shape, sqrt: real -> real) returns (t: array2<Value>)
    requires HasShape(X, s)
    ensures fresh(t)
    ensures t.Length0 == s.n && t.Length1 == s.d
    ensures forall i, di :: 0 <= i < s.n && 0 <= di < s.d ==> t[i, di] == NanStd(Column(X[i], di), sqrt)
  {
    t := new Value[s.n, s.d]((i, di) => if 0 <= i < s.n && 0 <= di < s.d then NanStd(Column(X[i], di), sqrt) else None);
  }

  /** The guard applied in place: every entry equal to 0 is overwritten with 1, the others are kept. */
  method MaskZeroStd(t: array2<Value>)
    modifies t
    ensures forall i, di :: 0 <= i < t.Length0 && 0 <= di < t.Length1 ==> t[i, di] == ZeroGuard(old(t[i, di]))
  {
    forall i, di | 0 <= i < t.Length0 && 0 <= di < t.Length1 && t[i, di] == Some(0.0) {
      t[i, di] := Some(1.0);
    }
  }

  /** TimeSeriesScalerMeanVariance: the target mean and deviation, and the shape recorded by `Fit`. */
  class TimeSeriesScalerMeanVariance {
    const mu: real
    const std: real
    var fitDims: Option<Shape>

    constructor (mu: real, std: real)
      ensures this.mu == mu && this.std == std && fitDims == None
    {
      this.mu := mu;
      this.std := std;
      fitDims := None;
    }

    /** Records the shape of the dataset and returns the scaler itself. */
    method Fit(X: seq<Series>, shape: Shape) returns (r: TimeSeriesScalerMeanVariance)
      requires HasShape(X, shape)
      modifies this
      ensures r == this && fitDims == Some(shape)
    {
      fitDims := Some(shape);
      r := this;
    }

    /**
     * Checks the dataset against the fitted shape, builds the deviation table,
     * guards its zeros in place and standardises every series and feature.
     */
    method Transform(X: seq<Series>, shape: Shape, sqrt: real -> real) returns (res: Result<seq<Series>>)
      requires HasShape(X, shape)
      ensures fitDims.None? ==> res == Err(NotFitted)
      ensures fitDims.Some? && !CompatibleDims(fitDims.value, shape) ==>
                res == Err(DimensionMismatch(fitDims.value, shape))
      ensures fitDims.Some? && CompatibleDims(fitDims.value, shape) ==>
                res == Ok(MeanVarianceScale(X, shape, mu, std, sqrt))
    {
      if fitDims.None? {
        return Err(NotFitted);
      }
      if !CompatibleDims(fitDims.value, shape) {
        return Err(DimensionMismatch(fitDims.value, shape));
      }
      var stdT := StdTable(X, shape, sqrt);
      MaskZeroStd(stdT);
      var divisors := Rows(stdT);
      var Y := StandardizeAll(X, shape, mu, std, divisors);
      forall i, di | 0 <= i < shape.n && 0 <= di < shape.d
        ensures StandardizeWith(Column(X[i], di), mu, std, divisors[i][di]) == MeanVarianceColumn(Column(X[i], di), mu, std, sqrt)
      {
        StandardizeWithGuardedStd(Column(X[i], di), mu, std, sqrt);
      }
      SameCells(Y, MeanVarianceScale(X, shape, mu, std, sqrt), shape);
      res := Ok(Y);
    }
  }
}
