/**
 * TimeSeriesResampler: brings every series of a dataset to exactly `sz` time
 * steps. With sz == 1 each feature collapses to its missing-ignoring mean;
 * otherwise each feature is linearly interpolated ("slinear") from the
 * series' valid steps, placed evenly on [0, 1], at `sz` evenly spaced query
 * points of [0, 1].
 */
module Resampling {
  import opened Stats
  import opened Datasets

  /** numpy.linspace(0, 1, n)[k]: n evenly spaced points from 0 to 1, just 0 when n == 1. */
  function Grid(k: nat, n: nat): (g: real)
    ensures k < n ==> 0.0 <= g <= 1.0
  {
    if n <= 1 then 0.0
    else
      var g := k as real / (n - 1) as real;
      if k < n then FractionBetween(k as real, (n - 1) as real); g else g
  }

  lemma FractionBetween(num: real, den: real)
    requires 0.0 <= num <= den && den > 0.0
    ensures 0.0 <= num / den <= 1.0
  {
    var q := num / den;
    assert q * den == num;
  }

  lemma QuotientIncreasing(a: real, b: real, d: real)
    requires a < b && d > 0.0
    ensures a / d < b / d
  {
    var p := a / d;
    var q := b / d;
    assert p * d == a && q * d == b;
    assert (q - p) * d == b - a;
  }

  /** The grid runs from 0 to 1 ... */
  lemma GridEnds(n: nat)
    requires n >= 2
    ensures Grid(0, n) == 0.0 && Grid(n - 1, n) == 1.0
  {
  }

  /** ... and is strictly increasing, so distinct knots never coincide. */
  lemma GridIncreasing(j: nat, k: nat, n: nat)
    requires n >= 2 && j < k
    ensures Grid(j, n) < Grid(k, n)
  {
    QuotientIncreasing(j as real, k as real, (n - 1) as real);
  }

  lemma GridOrder(j: nat, k: nat, n: nat)
    requires n >= 2
    ensures j <= k ==> Grid(j, n) <= Grid(k, n)
    ensures Grid(j, n) == Grid(k, n) ==> j == k
  {
    if j < k {
      GridIncreasing(j, k, n);
    } else if k < j {
      GridIncreasing(k, j, n);
    }
  }

  /**
   * The segment [Grid(s), Grid(s + 1)] an interval search starting at k
   * picks for x: the first s with x < Grid(s + 1), the last segment when
   * there is none.
   */
  function SegmentFrom(n: nat, x: real, k: nat): (s: nat)
    requires 2 <= n && k <= n - 2
    ensures k <= s <= n - 2
    ensures x < Grid(s + 1, n) || s == n - 2
    ensures Grid(k, n) <= x ==> Grid(s, n) <= x
    decreases n - k
  {
    if k == n - 2 || x < Grid(k + 1, n) then k else SegmentFrom(n, x, k + 1)
  }

  /** The segment holding x: t_s <= x < t_{s+1}, the last segment being closed. */
  function Segment(n: nat, x: real): (s: nat)
    requires 2 <= n && 0.0 <= x <= 1.0
    ensures s <= n - 2
    ensures Grid(s, n) <= x <= Grid(s + 1, n)
  {
    GridEnds(n);
    GridOrder(n - 1, n - 1, n);
    SegmentFrom(n, x, 0)
  }

  /** How far x lies along segment k, 0 at its left knot and 1 at its right one. */
  function Weight(n: nat, k: nat, x: real): (w: real)
    requires 2 <= n && k <= n - 2
    ensures Grid(k, n) <= x <= Grid(k + 1, n) ==> 0.0 <= w <= 1.0
  {
    GridIncreasing(k, k + 1, n);
    var num := x - Grid(k, n);
    var den := Grid(k + 1, n) - Grid(k, n);
    if 0.0 <= num <= den then FractionBetween(num, den); num / den else num / den
  }

  /** The point a fraction w of the way from a to b. */
  function Lerp(a: real, b: real, w: real): real
  {
    (1.0 - w) * a + w * b
  }

  lemma ScaledBetween(w: real, d: real, p: real)
    requires 0.0 <= w <= 1.0 && p == w * d
    ensures d >= 0.0 ==> 0.0 <= p <= d
    ensures d <= 0.0 ==> d <= p <= 0.0
  {
    assert d - p == (1.0 - w) * d;
  }

  /** A point between a and b lies between them. */
  lemma LerpBetween(a: real, b: real, w: real)
    requires 0.0 <= w <= 1.0
    ensures a <= b ==> a <= Lerp(a, b, w) <= b
    ensures b <= a ==> b <= Lerp(a, b, w) <= a
  {
    ScaledBetween(w, b - a, Lerp(a, b, w) - a);
  }

  /**
   * The piecewise-linear interpolant through (Grid(k, |ys|), ys[k]),
   * evaluated at x in [0, 1].
   */
  function Interpolate(ys: seq<real>, x: real): (r: real)
    requires |ys| >= 2 && 0.0 <= x <= 1.0
    ensures MinOf(ys) <= r <= MaxOf(ys)
  {
    var k := Segment(|ys|, x);
    var w := Weight(|ys|, k, x);
    LerpBetween(ys[k], ys[k + 1], w);
    assert ys[k] in ys && ys[k + 1] in ys;
    Lerp(ys[k], ys[k + 1], w)
  }

  lemma WeightAtKnots(n: nat, k: nat)
    requires 2 <= n && k <= n - 2
    ensures Weight(n, k, Grid(k, n)) == 0.0
    ensures Weight(n, k, Grid(k + 1, n)) == 1.0
  {
    GridIncreasing(k, k + 1, n);
  }

  /**
   * On every segment, whichever one the interval search picks, the
   * interpolant is the straight line between the segment's two samples.
   */
  lemma InterpolateOnSegment(ys: seq<real>, k: nat, x: real)
    requires |ys| >= 2 && k <= |ys| - 2
    requires Grid(k, |ys|) <= x <= Grid(k + 1, |ys|)
    ensures 0.0 <= x <= 1.0
    ensures Interpolate(ys, x) == Lerp(ys[k], ys[k + 1], Weight(|ys|, k, x))
  {
    var n := |ys|;
    var s := Segment(n, x);
    // The search stops at the first segment whose right knot lies beyond x,
    // so it never stops before k.
    GridOrder(s + 1, k, n);
    if k < s {
      GridOrder(k + 1, s, n);
      assert s == k + 1;
      WeightAtKnots(n, s);
      WeightAtKnots(n, k);
    }
  }

  /** At a knot the interpolant reproduces the sample. */
  lemma InterpolateAtKnot(ys: seq<real>, k: nat)
    requires |ys| >= 2 && k < |ys|
    ensures 0.0 <= Grid(k, |ys|) <= 1.0
    ensures Interpolate(ys, Grid(k, |ys|)) == ys[k]
  {
    var n := |ys|;
    GridIncreasing(0, 1, n);
    if k <= n - 2 {
      GridIncreasing(k, k + 1, n);
      InterpolateOnSegment(ys, k, Grid(k, n));
      WeightAtKnots(n, k);
    } else {
      GridIncreasing(n - 2, n - 1, n);
      InterpolateOnSegment(ys, n - 2, Grid(n - 1, n));
      WeightAtKnots(n, n - 2);
    }
  }

  /** `ys` resampled to `sz` evenly spaced points of [0, 1]. */
  function ResampleColumn(ys: seq<real>, sz: nat): (r: seq<real>)
    requires |ys| >= 2
    ensures |r| == sz
  {
    seq(sz, j requires 0 <= j < sz => Interpolate(ys, Grid(j, sz)))
  }

  /** Resampling to the same number of points changes nothing. */
  lemma ResampleSameSize(ys: seq<real>)
    requires |ys| >= 2
    ensures ResampleColumn(ys, |ys|) == ys
  {
    forall k | 0 <= k < |ys|
      ensures ResampleColumn(ys, |ys|)[k] == ys[k]
    {
      InterpolateAtKnot(ys, k);
    }
  }

  /** The first output is the first sample and, for sz >= 2, the last output is the last sample. */
  lemma ResampleEndpoints(ys: seq<real>, sz: nat)
    requires |ys| >= 2 && sz >= 1
    ensures ResampleColumn(ys, sz)[0] == ys[0]
    ensures sz >= 2 ==> ResampleColumn(ys, sz)[sz - 1] == ys[|ys| - 1]
  {
    GridEnds(|ys|);
    InterpolateAtKnot(ys, 0);
    InterpolateAtKnot(ys, |ys| - 1);
    if sz >= 2 {
      GridEnds(sz);
    }
  }

  /**
   * Every output lies between the two samples that bracket its query point,
   * hence between the smallest and the largest sample.
   */
  lemma ResampleBracketed(ys: seq<real>, sz: nat, j: nat)
    requires |ys| >= 2 && j < sz
    ensures var x := Grid(j, sz);
            var k := Segment(|ys|, x);
            && Grid(k, |ys|) <= x <= Grid(k + 1, |ys|)
            && (ys[k] <= ys[k + 1] ==> ys[k] <= ResampleColumn(ys, sz)[j] <= ys[k + 1])
            && (ys[k + 1] <= ys[k] ==> ys[k + 1] <= ResampleColumn(ys, sz)[j] <= ys[k])
    ensures MinOf(ys) <= ResampleColumn(ys, sz)[j] <= MaxOf(ys)
  {
    var x := Grid(j, sz);
    var k := Segment(|ys|, x);
    LerpBetween(ys[k], ys[k + 1], Weight(|ys|, k, x));
    assert ys[k] in ys && ys[k + 1] in ys;
  }

  /** Only samples before `len` are read, and each of them is present. */
  predicate PresentPrefix(col: seq<Value>, len: nat)
  {
    len <= |col| && forall j :: 0 <= j < len ==> col[j].Some?
  }

  /** The first `len` samples of a column, as numbers. */
  function Prefix(col: seq<Value>, len: nat): (ys: seq<real>)
    requires PresentPrefix(col, len)
    ensures |ys| == len
    ensures forall j :: 0 <= j < len ==> col[j] == Some(ys[j])
  {
    seq(len, j requires 0 <= j < len => col[j].value)
  }

  /** The padding after `len` never changes a prefix. */
  lemma PrefixIgnoresPadding(col: seq<Value>, other: seq<Value>, len: nat)
    requires PresentPrefix(col, len) && len <= |other|
    requires col[..len] == other[..len]
    ensures PresentPrefix(other, len)
    ensures Prefix(col, len) == Prefix(other, len)
  {
    forall j | 0 <= j < len
      ensures col[j] == other[j]
    {
      assert col[..len][j] == other[..len][j];
    }
  }

  /** check_equal_size over the series' valid lengths: all the same. */
  predicate EqualSize(lengths: seq<nat>)
  {
    forall i :: 0 <= i < |lengths| ==> lengths[i] == lengths[0]
  }

  /**
   * The number of steps series i is interpolated from: the dataset's length
   * t when all series have the same valid length, its own otherwise.
   */
  function ValidLength(lengths: seq<nat>, t: nat, i: nat): (len: nat)
    requires i < |lengths|
    ensures EqualSize(lengths) ==> len == t
    ensures !EqualSize(lengths) || t == lengths[0] ==> len == lengths[i]
  {
    if EqualSize(lengths) then t else lengths[i]
  }

  /** Series x can be interpolated from its first len steps: at least two, none missing. */
  predicate Interpolable(x: Series, len: nat, d: nat)
  {
    && 2 <= len <= |x|
    && forall j, di :: 0 <= j < len && 0 <= di < d ==> di < |x[j]| && x[j][di].Some?
  }

  /** Feature di of series x, resampled from its first len steps to sz points. */
  function ResampledFeature(x: Series, len: nat, d: nat, di: nat, sz: nat): (r: seq<real>)
    requires Interpolable(x, len, d) && di < d && HasFeature(x, di)
    ensures |r| == sz
  {
    ResampleColumn(Prefix(Column(x, di), len), sz)
  }

  /** numpy.nanmean of one column: None (NaN) when no sample is present. */
  function NanMean(col: seq<Value>): (r: Option<real>)
    ensures r.None? <==> forall j :: 0 <= j < |col| ==> col[j].None?
    ensures r.Some? ==> NanMin(col).value <= r.value <= NanMax(col).value
  {
    var xs := Present(col);
    if xs == [] then None
    else
      MeanBetweenExtremes(xs);
      Some(Mean(xs))
  }

  /** The documented example: [0, 3, 6] resampled to 5 points is [0, 1.5, 3, 4.5, 6]. */
  lemma DocExampleResample(ys: seq<real>)
    requires ys == [0.0, 3.0, 6.0]
    ensures ResampleColumn(ys, 5) == [0.0, 1.5, 3.0, 4.5, 6.0]
  {
    var r := ResampleColumn(ys, 5);
    ResampleEndpoints(ys, 5);
    assert r[2] == 3.0 by {
      assert Grid(2, 5) == Grid(1, 3);
      InterpolateAtKnot(ys, 1);
    }
    assert r[1] == 1.5 by {
      assert Grid(0, 3) <= Grid(1, 5) <= Grid(1, 3);
      InterpolateOnSegment(ys, 0, Grid(1, 5));
      assert Weight(3, 0, Grid(1, 5)) == 0.5;
    }
    assert r[3] == 4.5 by {
      assert Grid(1, 3) <= Grid(3, 5) <= Grid(2, 3);
      InterpolateOnSegment(ys, 1, Grid(3, 5));
      assert Weight(3, 1, Grid(3, 5)) == 0.5;
    }
  }

  /** TimeSeriesResampler: the target size. */
  class TimeSeriesResampler {
    const sz: nat

    constructor (sz: nat)
      ensures this.sz == sz
    {
      this.sz := sz;
    }

    /** Nothing to learn: returns the resampler itself. */
    method Fit(X: seq<Series>) returns (r: TimeSeriesResampler)
      ensures r == this
    {
      r := this;
    }

    /** Every series becomes sz steps each holding, per feature, the series' missing-ignoring mean. */
    method TransformUnitSz(X: seq<Series>, s: Shape) returns (out: array3<Value>)
      requires HasShape(X, s)
      ensures fresh(out)
      ensures out.Length0 == s.n && out.Length1 == sz && out.Length2 == s.d
      ensures forall i, j, di :: 0 <= i < s.n && 0 <= j < sz && 0 <= di < s.d ==>
                out[i, j, di] == NanMean(Column(X[i], di))
    {
      out := new Value[s.n, sz, s.d]((_, _, _) => None);
      for i := 0 to s.n
        invariant forall i', j, di :: 0 <= i' < i && 0 <= j < sz && 0 <= di < s.d ==>
                    out[i', j, di] == NanMean(Column(X[i'], di))
      {
        forall j, di | 0 <= j < sz && 0 <= di < s.d {
          out[i, j, di] := NanMean(Column(X[i], di));
        }
      }
    }

    /**
     * Resamples every series to sz steps: with sz == 1 through
     * TransformUnitSz, otherwise by interpolating each feature from the
     * series' valid steps.
     */
    method Transform(X: seq<Series>, s: Shape, lengths: seq<nat>) returns (out: array3<Value>)
      requires HasShape(X, s) && |lengths| == s.n
      requires sz != 1 ==> forall i :: 0 <= i < s.n ==> Interpolable(X[i], ValidLength(lengths, s.sz, i), s.d)
      ensures fresh(out)
      ensures out.Length0 == s.n && out.Length1 == sz && out.Length2 == s.d
      ensures sz == 1 ==> forall i, j, di :: 0 <= i < s.n && 0 <= j < sz && 0 <= di < s.d ==>
                out[i, j, di] == NanMean(Column(X[i], di))
      ensures sz != 1 ==> forall i, j, di :: 0 <= i < s.n && 0 <= j < sz && 0 <= di < s.d ==>
                out[i, j, di] == Some(ResampledFeature(X[i], ValidLength(lengths, s.sz, i), s.d, di, sz)[j])
    {
      if sz == 1 {
        out := TransformUnitSz(X, s);
        return;
      }
      var len := s.sz;
      var equalSize := EqualSize(lengths);
      out := new Value[s.n, sz, s.d]((_, _, _) => None);
      for i := 0 to s.n
        invariant equalSize ==> len == s.sz
        invariant forall i', j, di :: 0 <= i' < i && 0 <= j < sz && 0 <= di < s.d ==>
                    out[i', j, di] == Some(ResampledFeature(X[i'], ValidLength(lengths, s.sz, i'), s.d, di, sz)[j])
      {
        if !equalSize {
          len := lengths[i];
        }
        assert len == ValidLength(lengths, s.sz, i);
        FillSeries(out, i, X[i], len, s.d);
      }
    }
  }

  /** Writes series x, resampled feature by feature from its first len steps, into row i of out. */
  method FillSeries(out: array3<Value>, i: nat, x: Series, len: nat, d: nat)
    requires i < out.Length0 && out.Length2 == d
    requires Interpolable(x, len, d) && forall di :: 0 <= di < d ==> HasFeature(x, di)
    modifies out
    ensures forall i', j, di :: 0 <= i' < out.Length0 && 0 <= j < out.Length1 && 0 <= di < d ==>
              out[i', j, di] == if i' == i then Some(ResampledFeature(x, len, d, di, out.Length1)[j])
                                else old(out[i', j, di])
  {
    for di := 0 to d
      invariant forall i', j, di' :: 0 <= i' < out.Length0 && 0 <= j < out.Length1 && 0 <= di' < d ==>
                  out[i', j, di'] == if i' == i && di' < di then Some(ResampledFeature(x, len, d, di', out.Length1)[j])
                                     else old(out[i', j, di'])
    {
      FillFeature(out, i, di, ResampledFeature(x, len, d, di, out.Length1));
    }
  }

  /** Writes the values f into feature di of row i of out, one per step. */
  method FillFeature(out: array3<Value>, i: nat, di: nat, f: seq<real>)
    requires i < out.Length0 && di < out.Length2 && |f| == out.Length1
    modifies out
    ensures forall i', j, di' :: 0 <= i' < out.Length0 && 0 <= j < out.Length1 && 0 <= di' < out.Length2 ==>
              out[i', j, di'] == if i' == i && di' == di then Some(f[j]) else old(out[i', j, di'])
  {
    forall j | 0 <= j < out.Length1 {
      out[i, j, di] := Some(f[j]);
    }
  }
}
