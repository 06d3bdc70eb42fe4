/**
 * Missing-value aware statistics over one column of a time series (one series,
 * one feature, all time steps). A sample is `Some(x)` for a number and `None`
 * where the dataset holds NaN, either a missing observation or the padding
 * after a short series. Like numpy's nan-aggregations, every statistic here
 * skips the `None` samples.
 */
module Stats {

  datatype Option<+T> = None | Some(value: T)

  /** One sample of a time series: a number, or None for NaN. */
  type Value = Option<real>

  /** The non-missing samples of a column, in order. */
  function Present(col: seq<Value>): (xs: seq<real>)
    ensures |xs| <= |col|
    ensures forall j :: 0 <= j < |col| && col[j].Some? ==> col[j].value in xs
    ensures forall x :: x in xs ==> Some(x) in col
    ensures xs == [] <==> forall j :: 0 <= j < |col| ==> col[j].None?
  {
    if col == [] then []
    else if col[0].Some? then [col[0].value] + Present(col[1..])
    else Present(col[1..])
  }

  /** Filtering distributes over concatenation, so each sample is kept once per occurrence, in order. */
  lemma {:induction false} PresentOfConcat(a: seq<Value>, b: seq<Value>)
    ensures Present(a + b) == Present(a) + Present(b)
  {
    if a != [] {
      assert (a + b)[1..] == a[1..] + b;
      assert (a + b)[0] == a[0];
      PresentOfConcat(a[1..], b);
      if a[0].Some? {
        assert Present(a + b) == [a[0].value] + Present(a[1..] + b);
        assert Present(a) == [a[0].value] + Present(a[1..]);
      } else {
        assert Present(a + b) == Present(a[1..] + b);
        assert Present(a) == Present(a[1..]);
      }
    } else {
      assert a + b == b;
    }
  }

  /** A single sample is kept exactly when it is present. */
  lemma PresentOfSingle(v: Value)
    ensures Present([v]) == if v.Some? then [v.value] else []
  {
    assert [v][1..] == [];
  }

  /** A column of three samples is the sequence of those samples. */
  lemma ThreeSamples(s: seq<Value>, u: Value, v: Value, w: Value)
    requires |s| == 3 && s[0] == u && s[1] == v && s[2] == w
    ensures s == [u, v, w]
  {
  }

  /** A column of `n` NaNs. */
  function AllMissing(n: nat): (col: seq<Value>)
    ensures |col| == n && Present(col) == []
  {
    seq(n, _ => None)
  }

  function Sum(xs: seq<real>): real
  {
    if xs == [] then 0.0 else xs[0] + Sum(xs[1..])
  }

  function Mean(xs: seq<real>): real
    requires xs != []
  {
    Sum(xs) / |xs| as real
  }

  /**
   * d * d. Kept behind a function so that the solver treats a square as one
   * term instead of expanding it into a polynomial.
   */
  function Square(d: real): (s: real)
    ensures s >= 0.0
  {
    if d < 0.0 then ProductSign(d, d, d * d); d * d else d * d
  }

  lemma ProductSign(a: real, b: real, p: real)
    requires p == a * b
    ensures a > 0.0 && b > 0.0 ==> p > 0.0
    ensures a < 0.0 && b < 0.0 ==> p > 0.0
  {
    if a < 0.0 && b < 0.0 {
      assert p == (-a) * (-b);
    }
  }

  lemma SquarePositive(d: real)
    requires d != 0.0
    ensures Square(d) > 0.0
  {
    ProductSign(d, d, Square(d));
  }

  /** The sum of the squared distances of the samples from `m`. */
  function SquaredDeviations(xs: seq<real>, m: real): (r: real)
    ensures r >= 0.0
  {
    if xs == [] then 0.0 else Square(xs[0] - m) + SquaredDeviations(xs[1..], m)
  }

  /** The population variance (divisor n, numpy's default ddof = 0). */
  function Variance(xs: seq<real>): (v: real)
    requires xs != []
    ensures v >= 0.0
  {
    var n := |xs| as real;
    var v := SquaredDeviations(xs, Mean(xs)) / n;
    assert v * n == SquaredDeviations(xs, Mean(xs));
    v
  }

  function MinOf(xs: seq<real>): (m: real)
    requires xs != []
    ensures m in xs
    ensures forall x :: x in xs ==> m <= x
  {
    if |xs| == 1 then xs[0]
    else
      assert forall x :: x in xs ==> x == xs[0] || x in xs[1..];
      var rest := MinOf(xs[1..]);
      if xs[0] <= rest then xs[0] else rest
  }

  function MaxOf(xs: seq<real>): (m: real)
    requires xs != []
    ensures m in xs
    ensures forall x :: x in xs ==> x <= m
  {
    if |xs| == 1 then xs[0]
    else
      assert forall x :: x in xs ==> x == xs[0] || x in xs[1..];
      var rest := MaxOf(xs[1..]);
      if xs[0] >= rest then xs[0] else rest
  }

  /** numpy.nanmin over one column: None (NaN) when no sample is present. */
  function NanMin(col: seq<Value>): (r: Option<real>)
    ensures r.None? <==> forall j :: 0 <= j < |col| ==> col[j].None?
    ensures r.Some? ==> Some(r.value) in col
    ensures r.Some? ==> forall j :: 0 <= j < |col| && col[j].Some? ==> r.value <= col[j].value
  {
    var xs := Present(col);
    if xs == [] then None else Some(MinOf(xs))
  }

  /** numpy.nanmax over one column: None (NaN) when no sample is present. */
  function NanMax(col: seq<Value>): (r: Option<real>)
    ensures r.None? <==> forall j :: 0 <= j < |col| ==> col[j].None?
    ensures r.Some? ==> Some(r.value) in col
    ensures r.Some? ==> forall j :: 0 <= j < |col| && col[j].Some? ==> col[j].value <= r.value
  {
    var xs := Present(col);
    if xs == [] then None else Some(MaxOf(xs))
  }

  /** If every sample lies in [lo, hi], the sum lies in [n * lo, n * hi]. */
  lemma {:induction false} SumBounds(xs: seq<real>, lo: real, hi: real)
    requires forall x :: x in xs ==> lo <= x <= hi
    ensures |xs| as real * lo <= Sum(xs) <= |xs| as real * hi
  {
    if xs != [] {
      assert forall x :: x in xs[1..] ==> x in xs;
      SumBounds(xs[1..], lo, hi);
      var m := (|xs| - 1) as real;
      assert |xs[1..]| as real == m;
      assert xs[0] in xs;
      assert |xs| as real * lo == lo + m * lo;
      assert |xs| as real * hi == hi + m * hi;
    }
  }

  lemma DivisionBounds(s: real, n: real, lo: real, hi: real)
    requires n > 0.0 && n * lo <= s <= n * hi
    ensures lo <= s / n <= hi
  {
    var q := s / n;
    assert q * n == s;
  }

  lemma QuotientPositive(a: real, n: real)
    requires a > 0.0 && n > 0.0
    ensures a / n > 0.0
  {
  }

  /** The mean lies between the smallest and the largest sample. */
  lemma MeanBetweenExtremes(xs: seq<real>)
    requires xs != []
    ensures MinOf(xs) <= Mean(xs) <= MaxOf(xs)
  {
    var n := |xs| as real;
    SumBounds(xs, MinOf(xs), MaxOf(xs));
    DivisionBounds(Sum(xs), n, MinOf(xs), MaxOf(xs));
  }

  lemma {:induction false} SumOfConstant(xs: seq<real>, c: real)
    requires forall k :: 0 <= k < |xs| ==> xs[k] == c
    ensures Sum(xs) == |xs| as real * c
  {
    if xs != [] {
      SumOfConstant(xs[1..], c);
    }
  }

  lemma CancelCount(s: real, n: real, c: real)
    requires n > 0.0 && s == n * c
    ensures s / n == c
  {
  }

  /** The mean of equal samples is their common value. */
  lemma MeanOfConstant(xs: seq<real>, c: real)
    requires xs != []
    requires forall k :: 0 <= k < |xs| ==> xs[k] == c
    ensures Mean(xs) == c
  {
    SumOfConstant(xs, c);
    CancelCount(Sum(xs), |xs| as real, c);
  }

  lemma {:induction false} SquaredDeviationsOfConstant(xs: seq<real>, c: real)
    requires forall k :: 0 <= k < |xs| ==> xs[k] == c
    ensures SquaredDeviations(xs, c) == 0.0
  {
    if xs != [] {
      SquaredDeviationsOfConstant(xs[1..], c);
    }
  }

  /** A sample away from `m` makes the squared deviations from `m` positive. */
  lemma {:induction false} SquaredDeviationsPositive(xs: seq<real>, m: real, k: nat)
    requires k < |xs| && xs[k] != m
    ensures SquaredDeviations(xs, m) > 0.0
  {
    if k == 0 {
      SquarePositive(xs[0] - m);
    } else {
      SquaredDeviationsPositive(xs[1..], m, k - 1);
    }
  }

  /** The present samples of the two columns the documented examples use. */
  lemma PresentOfExamples()
    ensures Present([Some(0.0), Some(3.0), Some(6.0)]) == [0.0, 3.0, 6.0]
    ensures Present([None, Some(3.0), Some(6.0)]) == [3.0, 6.0]
  {
    var full: seq<Value> := [Some(0.0), Some(3.0), Some(6.0)];
    var gap: seq<Value> := [None, Some(3.0), Some(6.0)];
    assert full[1..][1..] == gap[1..][1..] == [Some(6.0)];
    assert |full[1..][1..][1..]| == 0;
  }

  /** The extremes of the two example columns. */
  lemma ExtremesOfExamples()
    ensures NanMin([Some(0.0), Some(3.0), Some(6.0)]) == Some(0.0)
    ensures NanMax([Some(0.0), Some(3.0), Some(6.0)]) == Some(6.0)
    ensures NanMin([None, Some(3.0), Some(6.0)]) == Some(3.0)
    ensures NanMax([None, Some(3.0), Some(6.0)]) == Some(6.0)
  {
    PresentOfExamples();
    assert [0.0, 3.0, 6.0][1..] == [3.0, 6.0];
    assert [3.0, 6.0][1..] == [6.0];
  }

  /** The population variance is zero exactly when all samples are equal. */
  lemma VarianceZeroIffConstant(xs: seq<real>)
    requires xs != []
    ensures Variance(xs) == 0.0 <==> forall k :: 0 <= k < |xs| ==> xs[k] == xs[0]
  {
    var n := |xs| as real;
    if forall k :: 0 <= k < |xs| ==> xs[k] == xs[0] {
      MeanOfConstant(xs, xs[0]);
      SquaredDeviationsOfConstant(xs, xs[0]);
    }
    if k :| 0 <= k < |xs| && xs[k] != xs[0] {
      var far := if xs[k] != Mean(xs) then k else 0;
      SquaredDeviationsPositive(xs, Mean(xs), far);
      QuotientPositive(SquaredDeviations(xs, Mean(xs)), n);
    }
  }
}
