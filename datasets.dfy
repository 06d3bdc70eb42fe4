/**
 * The canonical time series dataset all three transforms consume: a
 * rectangular (series x time step x feature) array whose short series are
 * padded with NaN, the shape recorded when a scaler is fitted, and the errors
 * a transform can raise.
 */
module Datasets {
  import opened Stats

  /** One time step: a value per feature. */
  type Step = seq<Value>

  /** One time series: its time steps, padding included. */
  type Series = seq<Step>

  /** The shape (n_ts, sz, d) of a canonical dataset. */
  datatype Shape = Shape(n: nat, sz: nat, d: nat)

  datatype Error =
    | InvalidValueRange(lo: real, hi: real)      // ValueError quoting the offending range
    | NotFitted                                  // transform before fit: no recorded shape
    | DimensionMismatch(fitted: Shape, given: Shape)

  datatype Result<T> = Ok(value: T) | Err(error: Error)

  predicate HasShape(X: seq<Series>, s: Shape)
  {
    && |X| == s.n
    && forall i :: 0 <= i < |X| ==>
         |X[i]| == s.sz && forall j :: 0 <= j < |X[i]| ==> |X[i][j]| == s.d
  }

  predicate HasFeature(x: Series, di: nat)
  {
    forall j :: 0 <= j < |x| ==> di < |x[j]|
  }

  /** Feature `di` of series `x` across all its time steps. */
  function Column(x: Series, di: nat): (col: seq<Value>)
    requires HasFeature(x, di)
    ensures |col| == |x|
    ensures forall j :: 0 <= j < |x| ==> col[j] == x[j][di]
  {
    seq(|x|, j requires 0 <= j < |x| => x[j][di])
  }

  /** Two datasets of the same shape that agree on every cell are the same dataset. */
  lemma SameCells(X: seq<Series>, Y: seq<Series>, s: Shape)
    requires HasShape(X, s) && HasShape(Y, s)
    requires forall i, j, di :: 0 <= i < s.n && 0 <= j < s.sz && 0 <= di < s.d ==> X[i][j][di] == Y[i][j][di]
    ensures X == Y
  {
    forall i | 0 <= i < s.n
      ensures X[i] == Y[i]
    {
      forall j | 0 <= j < s.sz
        ensures X[i][j] == Y[i][j]
      {
      }
    }
  }

  /**
   * The shape check a scaler makes at transform time against the shape it
   * recorded at fit time: the number of features must agree.
   */
  predicate CompatibleDims(fitted: Shape, given: Shape)
  {
    fitted.d == given.d
  }
}
