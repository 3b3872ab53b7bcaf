/** The vectorized bivariate scores of `liana/method/sp/_bivariate_funs.py`:
    `_vectorized_correlations`, `_vectorized_wcosine` and
    `_vectorized_jaccard`. Each takes spot-by-pair matrices `xMat`, `yMat`
    and a spot-by-spot proximity matrix `dist`, and returns a pair-by-spot
    matrix. Written per cell, a matrix product with `dist.A.T` is a weighted
    sum over spots: the weight of spot `k` in cell `(j, i)` is `dist[i][k]`,
    and `x_mat ** 2 .dot(weight.T)` instead weighs spot `k` by `dist[k][i]`. */
module Vectorized {
  import opened Wrappers
  import opened Numerics
  import opened Ranks
  import opened Bivariate
  import opened MaskedCoex

  /** Denominator products below this are treated as 0. */
  const MinDenominator: real := 0.000001

  /** `np.finfo(np.float32).eps`, `2^-23`. */
  const Eps: real := 1.0 / 8388608.0

  /** Row `i` of `dist`, the weights of cell column `i`. */
  function Row(dist: Matrix, i: nat): seq<real>
    requires i < |dist|
  {
    dist[i]
  }

  // ---------------------------------------------------------------------
  // _vectorized_correlations

  /** `n1 - n2`: `(x y).w * sum(w) - (x.w) (y.w)`. */
  function VecNumerator(x: seq<real>, y: seq<real>, w: seq<real>, W: real): real
    requires |x| == |y| == |w|
  {
    Sum(Mul(Mul(x, y), w)) * W - Sum(Mul(x, w)) * Sum(Mul(y, w))
  }

  /** `denominator_x`: `sum(w) (x^2).w - (x.w)^2`. */
  function VecSpread(x: seq<real>, w: seq<real>, W: real): real
    requires |x| == |w|
  {
    W * Sum(Mul(Square(x), w)) - Sum(Mul(x, w)) * Sum(Mul(x, w))
  }

  /** One cell of `_vectorized_correlations` on (possibly ranked) values:
      the denominator product is set to 0 below `MinDenominator`, its
      square root divides the numerator where it is not 0, and the result
      is clipped to `[-1, 1]`. */
  function CorrelationCell(x: seq<real>, y: seq<real>, w: seq<real>, W: real, sqrt: real -> real): (r: real)
    requires |x| == |y| == |w| && IsSqrt(sqrt)
    ensures -1.0 <= r <= 1.0
  {
    var den := DenominatorOf(VecSpread(x, w, W), VecSpread(y, w, W));
    var root := sqrt(if den < MinDenominator then 0.0 else den);
    Clip(if root == 0.0 then 0.0 else Quotient(VecNumerator(x, y, w, W), root), -1.0, 1.0)
  }

  lemma {:induction false} MulCommutes(a: seq<real>, b: seq<real>)
    requires |a| == |b|
    ensures Mul(a, b) == Mul(b, a)
  {
    assert forall k :: 0 <= k < |a| ==> Mul(a, b)[k] == Mul(b, a)[k];
  }

  lemma {:induction false} TripleTerm(x: real, y: real, w: real)
    ensures (x * y) * w == (w * x) * y
  {
  }

  lemma {:induction false} TripleCommutes(x: seq<real>, y: seq<real>, w: seq<real>)
    requires |x| == |y| == |w|
    ensures Mul(Mul(x, y), w) == Mul(Mul(w, x), y)
  {
    forall k | 0 <= k < |x| ensures Mul(Mul(x, y), w)[k] == Mul(Mul(w, x), y)[k] {
      TripleTerm(x[k], y[k], w[k]);
    }
  }

  /** The vectorized moments are the moments of `_wcorr`, only multiplied
      in another order. */
  lemma {:induction false} VecMoments(x: seq<real>, y: seq<real>, w: seq<real>, W: real)
    requires |x| == |y| == |w|
    ensures VecNumerator(x, y, w, W) == Numerator(x, y, w, W)
    ensures VecSpread(x, w, W) == Spread(x, w, W)
    ensures VecSpread(y, w, W) == Spread(y, w, W)
  {
    MulCommutes(x, w);
    MulCommutes(y, w);
    MulCommutes(Square(x), w);
    MulCommutes(Square(y), w);
    TripleCommutes(x, y, w);
  }

  /** A denominator product below `MinDenominator` yields 0. */
  lemma {:induction false} SmallDenominator(x: seq<real>, y: seq<real>, w: seq<real>, W: real, sqrt: real -> real)
    requires |x| == |y| == |w| && IsSqrt(sqrt)
    requires Denominator(x, y, w, W) < MinDenominator
    ensures CorrelationCell(x, y, w, W, sqrt) == 0.0
  {
    VecMoments(x, y, w, W);
    SqrtPositive(sqrt, 0.0);
  }

  /** A spot whose proximity row is all zero scores 0. */
  lemma {:induction false} ZeroRowCorrelation(x: seq<real>, y: seq<real>, w: seq<real>, sqrt: real -> real)
    requires |x| == |y| == |w| && IsSqrt(sqrt)
    requires forall k :: 0 <= k < |w| ==> w[k] == 0.0
    ensures CorrelationCell(x, y, w, Sum(w), sqrt) == 0.0
  {
    SumOfZeros(w);
    ZeroWeightSum(w, x);
    ZeroWeightSum(w, Square(x));
    assert Spread(x, w, Sum(w)) == 0.0;
    SmallDenominator(x, y, w, Sum(w), sqrt);
  }

  /** With non-negative weights and a denominator product of at least
      `MinDenominator`, the vectorized cell is the weighted Pearson
      correlation of `_wcorr`: the threshold and the clipping change
      nothing. */
  lemma {:induction false} CorrelationCellAgrees(x: seq<real>, y: seq<real>, w: seq<real>, sqrt: real -> real)
    requires |x| == |y| == |w|
    requires NonNegativeVec(w) && IsSqrt(sqrt)
    requires Denominator(x, y, w, Sum(w)) >= MinDenominator
    ensures CorrelationCell(x, y, w, Sum(w), sqrt) == Correlation(x, y, w, Sum(w), sqrt)
  {
    var W := Sum(w);
    VecMoments(x, y, w, W);
    CorrelationBound(x, y, w, W, sqrt);
    var den := Denominator(x, y, w, W);
    SqrtPositive(sqrt, den);
    PearsonBound(x, y, w, W);
    assert Correlation(x, y, w, W, sqrt)
        == (if Numerator(x, y, w, W) == 0.0 then 0.0 else Quotient(Numerator(x, y, w, W), sqrt(den)));
  }

  /** Pearson values, or their average ranks for Spearman. */
  function RankedIf(v: seq<real>, spearman: bool): (r: seq<real>)
    ensures |r| == |v|
  {
    if spearman then AverageRanks(v) else v
  }

  /** `_vectorized_correlations(x_mat, y_mat, dist, method)`: a pair-by-spot
      matrix of clipped weighted correlations, or a `ValueError` for a
      method other than "pearson" and "spearman". */
  function VectorizedCorrelations(xMat: Matrix, yMat: Matrix, dist: Matrix, spotN: nat, xyN: nat,
                                  corrMethod: string, sqrt: real -> real): (r: Result<Matrix>)
    requires IsMatrix(xMat, spotN, xyN) && IsMatrix(yMat, spotN, xyN) && IsMatrix(dist, spotN, spotN)
    requires IsSqrt(sqrt)
    ensures r.Err? <==> corrMethod != "pearson" && corrMethod != "spearman"
    ensures r.Err? ==> r.error == ValueError("method must be one of 'pearson', 'spearman'")
    ensures r.Ok? ==> IsMatrix(r.value, xyN, spotN)
    ensures r.Ok? ==> forall j, i :: 0 <= j < xyN && 0 <= i < spotN ==> -1.0 <= r.value[j][i] <= 1.0
  {
    if corrMethod != "pearson" && corrMethod != "spearman" then
      Err(ValueError("method must be one of 'pearson', 'spearman'"))
    else
      var spearman := corrMethod == "spearman";
      var m := seq(xyN, j requires 0 <= j < xyN =>
        seq(spotN, i requires 0 <= i < spotN =>
          CorrelationCell(RankedIf(Col(xMat, j), spearman), RankedIf(Col(yMat, j), spearman),
                          Row(dist, i), Sum(Row(dist, i)), sqrt)));
      assert forall j, i :: 0 <= j < xyN && 0 <= i < spotN ==> -1.0 <= m[j][i] <= 1.0 by {
        forall j, i | 0 <= j < xyN && 0 <= i < spotN ensures -1.0 <= m[j][i] <= 1.0 {
          assert m[j][i] == CorrelationCell(RankedIf(Col(xMat, j), spearman), RankedIf(Col(yMat, j), spearman),
                                            Row(dist, i), Sum(Row(dist, i)), sqrt);
        }
      }
      Ok(m)
  }

  /** In the Pearson case, cell `(j, i)` of the vectorized matrix is cell
      `(i, j)` of `_masked_coexpressions` with threshold 0, whenever the
      denominator product reaches `MinDenominator`. */
  lemma {:induction false} VectorizedMatchesMasked(xMat: Matrix, yMat: Matrix, dist: Matrix, spotN: nat, xyN: nat,
                                                   sqrt: real -> real, i: nat, j: nat)
    requires IsMatrix(xMat, spotN, xyN) && IsMatrix(yMat, spotN, xyN) && IsMatrix(dist, spotN, spotN)
    requires NonNegative(dist) && IsSqrt(sqrt) && i < spotN && j < xyN
    requires Denominator(Col(xMat, j), Col(yMat, j), dist[i], Sum(dist[i])) >= MinDenominator
    ensures Cell(xMat, yMat, dist, i, j, 0.0, 0, sqrt)
            == Ok(VectorizedCorrelations(xMat, yMat, dist, spotN, xyN, "pearson", sqrt).value[j][i])
  {
    var x, y, w := Col(xMat, j), Col(yMat, j), dist[i];
    assert NonNegativeVec(w);
    CorrelationCellAgrees(x, y, w, sqrt);
    MaskedPearsonFull(x, y, w, sqrt);
  }

  /** A spot whose proximity row is all zero gets 0 for every pair. */
  lemma {:induction false} VectorizedZeroRow(xMat: Matrix, yMat: Matrix, dist: Matrix, spotN: nat, xyN: nat,
                                             corrMethod: string, sqrt: real -> real, i: nat)
    requires IsMatrix(xMat, spotN, xyN) && IsMatrix(yMat, spotN, xyN) && IsMatrix(dist, spotN, spotN)
    requires IsSqrt(sqrt) && i < spotN
    requires corrMethod == "pearson" || corrMethod == "spearman"
    requires forall k :: 0 <= k < spotN ==> dist[i][k] == 0.0
    ensures forall j :: 0 <= j < xyN ==>
              VectorizedCorrelations(xMat, yMat, dist, spotN, xyN, corrMethod, sqrt).value[j][i] == 0.0
  {
    var spearman := corrMethod == "spearman";
    forall j | 0 <= j < xyN
      ensures VectorizedCorrelations(xMat, yMat, dist, spotN, xyN, corrMethod, sqrt).value[j][i] == 0.0
    {
      ZeroRowCorrelation(RankedIf(Col(xMat, j), spearman), RankedIf(Col(yMat, j), spearman), Row(dist, i), sqrt);
    }
  }

  // ---------------------------------------------------------------------
  // _vectorized_wcosine

  /** `x_dot * y_dot + eps`, with the squared values weighted by `wt`. */
  function CosineDenominator(x: seq<real>, y: seq<real>, wt: seq<real>): real
    requires |x| == |y| == |wt|
  {
    DenominatorOf(Sum(Mul(Square(x), wt)), Sum(Mul(Square(y), wt))) + Eps
  }

  /** With non-negative weights the cosine denominator is at least `eps`. */
  lemma {:induction false} CosineDenominatorPositive(x: seq<real>, y: seq<real>, wt: seq<real>)
    requires |x| == |y| == |wt| && NonNegativeVec(wt)
    ensures CosineDenominator(x, y, wt) >= Eps
  {
    SquareNonNegative(x);
    SquareNonNegative(y);
    MulNonNegative(Square(x), wt);
    MulNonNegative(Square(y), wt);
    SumNonNegative(Mul(Square(x), wt));
    SumNonNegative(Mul(Square(y), wt));
    ProductNonNegative(Sum(Mul(Square(x), wt)), Sum(Mul(Square(y), wt)));
  }

  /** One cell of `_vectorized_wcosine`: the `w`-weighted dot product of
      `x` and `y` over the square root of the denominator. */
  function CosineCell(x: seq<real>, y: seq<real>, w: seq<real>, wt: seq<real>, sqrt: real -> real): real
    requires |x| == |y| == |w| == |wt|
    requires NonNegativeVec(wt) && IsSqrt(sqrt)
  {
    var den := CosineDenominator(x, y, wt);
    CosineDenominatorPositive(x, y, wt);
    SqrtPositive(sqrt, den);
    Quotient(Sum(Mul(Mul(x, y), w)), sqrt(den))
  }

  /** Non-negative values and weights give a non-negative cosine. */
  lemma {:induction false} CosineNonNegative(x: seq<real>, y: seq<real>, w: seq<real>, wt: seq<real>, sqrt: real -> real)
    requires |x| == |y| == |w| == |wt|
    requires NonNegativeVec(wt) && IsSqrt(sqrt)
    requires NonNegativeVec(x) && NonNegativeVec(y) && NonNegativeVec(w)
    ensures CosineCell(x, y, w, wt, sqrt) >= 0.0
  {
    var den := CosineDenominator(x, y, wt);
    CosineDenominatorPositive(x, y, wt);
    SqrtPositive(sqrt, den);
    MulNonNegative(x, y);
    MulNonNegative(Mul(x, y), w);
    SumNonNegative(Mul(Mul(x, y), w));
    FractionBound(Sum(Mul(Mul(x, y), w)), sqrt(den));
  }

  /** The cosine is symmetric in the two values. */
  lemma {:induction false} CosineSymmetric(x: seq<real>, y: seq<real>, w: seq<real>, wt: seq<real>, sqrt: real -> real)
    requires |x| == |y| == |w| == |wt|
    requires NonNegativeVec(wt) && IsSqrt(sqrt)
    ensures CosineCell(x, y, w, wt, sqrt) == CosineCell(y, x, w, wt, sqrt)
  {
    MulCommutes(x, y);
    assert CosineDenominator(x, y, wt) == CosineDenominator(y, x, wt);
  }

  /** The weighted Cauchy-Schwarz inequality in the operand order of
      `_vectorized_wcosine`. */
  lemma {:induction false} CosineCauchySchwarz(x: seq<real>, y: seq<real>, w: seq<real>)
    requires |x| == |y| == |w| && NonNegativeVec(w)
    ensures Det(Sum(Mul(Square(x), w)), Sum(Mul(Mul(x, y), w)), Sum(Mul(Square(y), w))) >= 0.0
  {
    WeightedCauchySchwarz(w, x, y);
    MulCommutes(Square(x), w);
    MulCommutes(Square(y), w);
    TripleCommutes(x, y, w);
  }

  /** When both products use the same non-negative weights (a symmetric
      proximity matrix), the weighted Cauchy-Schwarz inequality and the
      added `eps` keep the cosine strictly inside `(-1, 1)`. */
  lemma {:induction false} CosineBound(x: seq<real>, y: seq<real>, w: seq<real>, sqrt: real -> real)
    requires |x| == |y| == |w|
    requires NonNegativeVec(w) && IsSqrt(sqrt)
    ensures -1.0 < CosineCell(x, y, w, w, sqrt) < 1.0
  {
    var n := Sum(Mul(Mul(x, y), w));
    var sx, sy := Sum(Mul(Square(x), w)), Sum(Mul(Square(y), w));
    var den := CosineDenominator(x, y, w);
    CosineDenominatorPositive(x, y, w);
    CosineCauchySchwarz(x, y, w);
    SqrtPositive(sqrt, den);
    var s := sqrt(den);
    BelowDenominator(n, sx, sy, s);
    RatioStrictBound(n, s);
  }

  lemma {:induction false} BelowDenominator(n: real, sx: real, sy: real, s: real)
    requires Det(sx, n, sy) >= 0.0 && s * s == DenominatorOf(sx, sy) + Eps
    ensures n * n < s * s
  {
  }

  /** `_vectorized_wcosine(x_mat, y_mat, dist)`: cell `(j, i)` weighs the
      dot product by row `i` of `dist` and the squared norms by column `i`. */
  function VectorizedWCosine(xMat: Matrix, yMat: Matrix, dist: Matrix, spotN: nat, xyN: nat, sqrt: real -> real): (r: Matrix)
    requires IsMatrix(xMat, spotN, xyN) && IsMatrix(yMat, spotN, xyN) && IsMatrix(dist, spotN, spotN)
    requires NonNegative(dist) && IsSqrt(sqrt)
    ensures IsMatrix(r, xyN, spotN)
  {
    seq(xyN, j requires 0 <= j < xyN =>
      seq(spotN, i requires 0 <= i < spotN =>
        assert NonNegativeVec(Col(dist, i));
        CosineCell(Col(xMat, j), Col(yMat, j), Row(dist, i), Col(dist, i), sqrt)))
  }

  /** With a symmetric non-negative proximity matrix every cosine lies
      strictly inside `(-1, 1)`, and with non-negative expression it is
      non-negative. */
  lemma {:induction false} VectorizedWCosineBound(xMat: Matrix, yMat: Matrix, dist: Matrix, spotN: nat, xyN: nat,
                                                  sqrt: real -> real, i: nat, j: nat)
    requires IsMatrix(xMat, spotN, xyN) && IsMatrix(yMat, spotN, xyN) && IsMatrix(dist, spotN, spotN)
    requires NonNegative(dist) && IsSqrt(sqrt) && i < spotN && j < xyN
    ensures Symmetric(dist) ==> -1.0 < VectorizedWCosine(xMat, yMat, dist, spotN, xyN, sqrt)[j][i] < 1.0
    ensures NonNegative(xMat) && NonNegative(yMat) ==> VectorizedWCosine(xMat, yMat, dist, spotN, xyN, sqrt)[j][i] >= 0.0
  {
    var x, y := Col(xMat, j), Col(yMat, j);
    assert NonNegativeVec(Col(dist, i));
    assert NonNegativeVec(dist[i]);
    if Symmetric(dist) {
      assert Col(dist, i) == dist[i];
      CosineBound(x, y, dist[i], sqrt);
    }
    if NonNegative(xMat) && NonNegative(yMat) {
      assert NonNegativeVec(x) && NonNegativeVec(y);
      CosineNonNegative(x, y, dist[i], Col(dist, i), sqrt);
    }
  }

  // ---------------------------------------------------------------------
  // _vectorized_jaccard

  /** `v > 0` as 0/1 values. */
  function Binarize(v: seq<real>): (b: seq<real>)
    ensures |b| == |v|
  {
    seq(|v|, k requires 0 <= k < |v| => if v[k] > 0.0 then 1.0 else 0.0)
  }

  /** Element-wise `np.minimum`, on 0/1 values the intersection. */
  function MinVec(a: seq<real>, b: seq<real>): (r: seq<real>)
    requires |a| == |b|
    ensures |r| == |a|
  {
    seq(|a|, k requires 0 <= k < |a| => Min(a[k], b[k]))
  }

  /** Element-wise `np.maximum`, on 0/1 values the union. */
  function MaxVec(a: seq<real>, b: seq<real>): (r: seq<real>)
    requires |a| == |b|
    ensures |r| == |a|
  {
    seq(|a|, k requires 0 <= k < |a| => Max(a[k], b[k]))
  }

  /** Weighted count of the spots where either value is present, plus `eps`. */
  function JaccardDenominator(x: seq<real>, y: seq<real>, w: seq<real>): real
    requires |x| == |y| == |w|
  {
    Sum(Mul(MaxVec(Binarize(x), Binarize(y)), w)) + Eps
  }

  /** Weighted count of the spots where both values are present. */
  function JaccardNumerator(x: seq<real>, y: seq<real>, w: seq<real>): real
    requires |x| == |y| == |w|
  {
    Sum(Mul(MinVec(Binarize(x), Binarize(y)), w))
  }

  /** With non-negative weights the intersection count lies between 0 and
      the union count, so the denominator is at least `eps`. */
  lemma {:induction false} JaccardCounts(x: seq<real>, y: seq<real>, w: seq<real>)
    requires |x| == |y| == |w| && NonNegativeVec(w)
    ensures 0.0 <= JaccardNumerator(x, y, w) < JaccardDenominator(x, y, w)
    ensures JaccardDenominator(x, y, w) >= Eps
  {
    var lo, hi := MinVec(Binarize(x), Binarize(y)), MaxVec(Binarize(x), Binarize(y));
    assert NonNegativeVec(lo);
    MulNonNegative(lo, w);
    SumNonNegative(Mul(lo, w));
    forall k | 0 <= k < |w| ensures Mul(lo, w)[k] <= Mul(hi, w)[k] {
      WeightedLe(lo[k], hi[k], w[k]);
    }
    SumMonotone(Mul(lo, w), Mul(hi, w));
  }

  lemma {:induction false} WeightedLe(a: real, b: real, w: real)
    requires a <= b && w >= 0.0
    ensures a * w <= b * w
  {
    ProductNonNegative(b - a, w);
  }

  /** One cell of `_vectorized_jaccard`. */
  function JaccardCell(x: seq<real>, y: seq<real>, w: seq<real>): real
    requires |x| == |y| == |w| && NonNegativeVec(w)
  {
    JaccardCounts(x, y, w);
    Quotient(JaccardNumerator(x, y, w), JaccardDenominator(x, y, w))
  }

  /** With non-negative weights every Jaccard value lies in `[0, 1)`. */
  lemma {:induction false} JaccardRange(x: seq<real>, y: seq<real>, w: seq<real>)
    requires |x| == |y| == |w| && NonNegativeVec(w)
    ensures 0.0 <= JaccardCell(x, y, w) < 1.0
  {
    JaccardCounts(x, y, w);
    FractionBound(JaccardNumerator(x, y, w), JaccardDenominator(x, y, w));
  }

  /** Values that are never present together give 0. */
  lemma {:induction false} JaccardDisjoint(x: seq<real>, y: seq<real>, w: seq<real>)
    requires |x| == |y| == |w| && NonNegativeVec(w)
    requires forall k :: 0 <= k < |x| ==> x[k] <= 0.0 || y[k] <= 0.0
    ensures JaccardCell(x, y, w) == 0.0
  {
    var lo := MinVec(Binarize(x), Binarize(y));
    forall k | 0 <= k < |x| ensures Mul(lo, w)[k] == 0.0 {
      assert lo[k] == 0.0;
    }
    SumOfZeros(Mul(lo, w));
    JaccardCounts(x, y, w);
    assert JaccardNumerator(x, y, w) == 0.0;
  }

  /** The Jaccard value is symmetric in the two values. */
  lemma {:induction false} JaccardSymmetric(x: seq<real>, y: seq<real>, w: seq<real>)
    requires |x| == |y| == |w| && NonNegativeVec(w)
    ensures JaccardCell(x, y, w) == JaccardCell(y, x, w)
  {
    assert MinVec(Binarize(x), Binarize(y)) == MinVec(Binarize(y), Binarize(x));
    assert MaxVec(Binarize(x), Binarize(y)) == MaxVec(Binarize(y), Binarize(x));
  }

  /** `_vectorized_jaccard(x_mat, y_mat, dist)`: cell `(j, i)` compares the
      presence of pair `j`'s two values, weighted by row `i` of `dist`. */
  function VectorizedJaccard(xMat: Matrix, yMat: Matrix, dist: Matrix, spotN: nat, xyN: nat): (r: Matrix)
    requires IsMatrix(xMat, spotN, xyN) && IsMatrix(yMat, spotN, xyN) && IsMatrix(dist, spotN, spotN)
    requires NonNegative(dist)
    ensures IsMatrix(r, xyN, spotN)
  {
    seq(xyN, j requires 0 <= j < xyN =>
      seq(spotN, i requires 0 <= i < spotN =>
        assert NonNegativeVec(Row(dist, i));
        JaccardCell(Col(xMat, j), Col(yMat, j), Row(dist, i))))
  }

  /** Every Jaccard value lies in `[0, 1)`. */
  lemma {:induction false} VectorizedJaccardRange(xMat: Matrix, yMat: Matrix, dist: Matrix, spotN: nat, xyN: nat, i: nat, j: nat)
    requires IsMatrix(xMat, spotN, xyN) && IsMatrix(yMat, spotN, xyN) && IsMatrix(dist, spotN, spotN)
    requires NonNegative(dist) && i < spotN && j < xyN
    ensures 0.0 <= VectorizedJaccard(xMat, yMat, dist, spotN, xyN)[j][i] < 1.0
  {
    assert NonNegativeVec(Row(dist, i));
    JaccardRange(Col(xMat, j), Col(yMat, j), Row(dist, i));
  }
}
