/** The weighted bivariate scores of liana's spatial methods
    (`liana/method/sp/_bivariate_funs.py`): weighted Pearson and Spearman
    correlations, computed spot by spot over a neighbourhood mask or all at
    once as matrix products, a weighted cosine similarity and a weighted
    Jaccard index. */
module Bivariate {
  import opened Wrappers
  import opened Numerics
  import opened Ranks

  /** `denominator_x` of `_wcorr`: `wsum * sum(w x^2) - (sum w x)^2`,
      `wsum^2` times the weighted variance of `x`. */
  function Spread(x: seq<real>, w: seq<real>, W: real): real
    requires |x| == |w|
  {
    Det(Sum(Mul(w, Square(x))), Sum(Mul(w, x)), W)
  }

  /** `W Sxy - Sx Sy` from the total weight and the moments. */
  function NumeratorOf(W: real, Sxy: real, Sx: real, Sy: real): real {
    W * Sxy - Sx * Sy
  }

  /** `numerator` of `_wcorr`: `wsum * sum(w x y) - (sum w x)(sum w y)`,
      `wsum^2` times the weighted covariance of `x` and `y`. */
  function Numerator(x: seq<real>, y: seq<real>, w: seq<real>, W: real): real
    requires |x| == |y| == |w|
  {
    NumeratorOf(W, Sum(Mul(Mul(w, x), y)), Sum(Mul(w, x)), Sum(Mul(w, y)))
  }

  /** The vector `a x - b y`. */
  function Combine(x: seq<real>, y: seq<real>, a: real, b: real): (z: seq<real>)
    requires |x| == |y|
    ensures |z| == |x|
  {
    seq(|x|, k requires 0 <= k < |x| => a * x[k] - b * y[k])
  }

  lemma {:induction false} FirstMomentTerm(w: real, x: real, y: real, z: real, wx: real, wy: real, wz: real, a: real, b: real)
    requires z == a * x - b * y && wx == w * x && wy == w * y && wz == w * z
    ensures wz == Comb(a, -b, 0.0, wx, wy, wx)
  {
  }

  lemma {:induction false} SecondMomentTerm(w: real, x: real, y: real, z: real, a: real, b: real)
    requires z == a * x - b * y
    ensures w * (z * z) == Quad(a, b, w * (x * x), (w * x) * y, w * (y * y))
  {
    assert z * z == (a * a) * (x * x) - 2.0 * a * b * (x * y) + (b * b) * (y * y);
    assert w * (z * z) == (a * a) * (w * (x * x)) + (-2.0 * a * b) * ((w * x) * y) + (b * b) * (w * (y * y));
  }

  lemma {:induction false} FirstMomentTerms(x: seq<real>, y: seq<real>, w: seq<real>, a: real, b: real)
    requires |x| == |y| == |w|
    ensures forall k :: 0 <= k < |w| ==>
              Mul(w, Combine(x, y, a, b))[k] == Comb(a, -b, 0.0, Mul(w, x)[k], Mul(w, y)[k], Mul(w, x)[k])
  {
    var z := Combine(x, y, a, b);
    forall k | 0 <= k < |w|
      ensures Mul(w, z)[k] == Comb(a, -b, 0.0, Mul(w, x)[k], Mul(w, y)[k], Mul(w, x)[k])
    {
      FirstMomentTerm(w[k], x[k], y[k], z[k], Mul(w, x)[k], Mul(w, y)[k], Mul(w, z)[k], a, b);
    }
  }

  lemma {:induction false} SecondMomentAt(x: seq<real>, y: seq<real>, w: seq<real>, a: real, b: real, k: nat)
    requires |x| == |y| == |w| && k < |w|
    ensures Mul(w, Square(Combine(x, y, a, b)))[k]
            == Quad(a, b, Mul(w, Square(x))[k], Mul(Mul(w, x), y)[k], Mul(w, Square(y))[k])
  {
    SecondMomentTerm(w[k], x[k], y[k], Combine(x, y, a, b)[k], a, b);
  }

  lemma {:induction false} SecondMomentTerms(x: seq<real>, y: seq<real>, w: seq<real>, a: real, b: real)
    requires |x| == |y| == |w|
    ensures forall k :: 0 <= k < |w| ==>
              Mul(w, Square(Combine(x, y, a, b)))[k]
              == Quad(a, b, Mul(w, Square(x))[k], Mul(Mul(w, x), y)[k], Mul(w, Square(y))[k])
  {
    forall k | 0 <= k < |w|
      ensures Mul(w, Square(Combine(x, y, a, b)))[k]
              == Quad(a, b, Mul(w, Square(x))[k], Mul(Mul(w, x), y)[k], Mul(w, Square(y))[k])
    {
      SecondMomentAt(x, y, w, a, b, k);
    }
  }

  /** The weighted first moment of `a x - b y` combines those of `x` and `y`. */
  lemma {:induction false} CombinationFirstMoment(x: seq<real>, y: seq<real>, w: seq<real>, a: real, b: real)
    requires |x| == |y| == |w|
    ensures Sum(Mul(w, Combine(x, y, a, b)))
            == Comb(a, -b, 0.0, Sum(Mul(w, x)), Sum(Mul(w, y)), Sum(Mul(w, x)))
  {
    FirstMomentTerms(x, y, w, a, b);
    SumLinear(Mul(w, Combine(x, y, a, b)), Mul(w, x), Mul(w, y), Mul(w, x), a, -b, 0.0);
  }

  /** The weighted second moment of `a x - b y` is a quadratic form in the
      second moments of `x` and `y`. */
  lemma {:induction false} CombinationSecondMoment(x: seq<real>, y: seq<real>, w: seq<real>, a: real, b: real)
    requires |x| == |y| == |w|
    ensures Sum(Mul(w, Square(Combine(x, y, a, b))))
            == Quad(a, b, Sum(Mul(w, Square(x))), Sum(Mul(Mul(w, x), y)), Sum(Mul(w, Square(y))))
  {
    SecondMomentTerms(x, y, w, a, b);
    SumLinear(Mul(w, Square(Combine(x, y, a, b))), Mul(w, Square(x)), Mul(Mul(w, x), y), Mul(w, Square(y)),
              a * a, -2.0 * a * b, b * b);
  }

  lemma {:induction false} SpreadIdentity(W: real, Sx: real, Sy: real, Sxx: real, Sxy: real, Syy: real,
                                          Sz: real, Szz: real, a: real, b: real)
    requires Sz == Comb(a, -b, 0.0, Sx, Sy, Sx)
    requires Szz == Quad(a, b, Sxx, Sxy, Syy)
    ensures Det(Szz, Sz, W) == Quad(a, b, Det(Sxx, Sx, W), NumeratorOf(W, Sxy, Sx, Sy), Det(Syy, Sy, W))
  {
    assert Sz == a * Sx - b * Sy;
    assert Sz * Sz == (a * a) * (Sx * Sx) - 2.0 * a * b * (Sx * Sy) + (b * b) * (Sy * Sy);
  }

  /** The spread of `a x - b y` is the quadratic form at `(a, b)` whose
      coefficients are the spreads of `x`, `y` and their numerator. */
  lemma {:induction false} SpreadOfCombination(x: seq<real>, y: seq<real>, w: seq<real>, W: real, a: real, b: real)
    requires |x| == |y| == |w|
    ensures Spread(Combine(x, y, a, b), w, W)
            == Quad(a, b, Spread(x, w, W), Numerator(x, y, w, W), Spread(y, w, W))
  {
    CombinationFirstMoment(x, y, w, a, b);
    CombinationSecondMoment(x, y, w, a, b);
    SpreadIdentity(W, Sum(Mul(w, x)), Sum(Mul(w, y)), Sum(Mul(w, Square(x))), Sum(Mul(Mul(w, x), y)),
                   Sum(Mul(w, Square(y))), Sum(Mul(w, Combine(x, y, a, b))),
                   Sum(Mul(w, Square(Combine(x, y, a, b)))), a, b);
  }

  /** The weighted Pearson inequality behind `|_wcorr| <= 1`: with
      non-negative weights both spreads are non-negative and the squared
      numerator is at most their product. */
  lemma {:induction false} SpreadForm(x: seq<real>, y: seq<real>, w: seq<real>, W: real)
    requires |x| == |y| == |w|
    requires NonNegativeVec(w) && W == Sum(w)
    ensures Psd(Spread(x, w, W), Numerator(x, y, w, W), Spread(y, w, W))
  {
    forall a, b ensures QuadForm(Spread(x, w, W), Numerator(x, y, w, W), Spread(y, w, W), a, b) {
      SpreadOfCombination(x, y, w, W, a, b);
      WeightedVariance(w, Combine(x, y, a, b), W);
    }
  }

  /** The weighted Pearson inequality behind `|_wcorr| <= 1`: with
      non-negative weights both spreads are non-negative and the squared
      numerator is at most their product. */
  lemma {:induction false} PearsonBound(x: seq<real>, y: seq<real>, w: seq<real>, W: real)
    requires |x| == |y| == |w|
    requires NonNegativeVec(w) && W == Sum(w)
    ensures Spread(x, w, W) >= 0.0 && Spread(y, w, W) >= 0.0
    ensures Det(Spread(x, w, W), Numerator(x, y, w, W), Spread(y, w, W)) >= 0.0
  {
    SpreadForm(x, y, w, W);
    PsdBound(Spread(x, w, W), Numerator(x, y, w, W), Spread(y, w, W));
  }

  /** `denominator` of `_wcorr`: the product of the two spreads. */
  function Denominator(x: seq<real>, y: seq<real>, w: seq<real>, W: real): real
    requires |x| == |y| == |w|
  {
    DenominatorOf(Spread(x, w, W), Spread(y, w, W))
  }

  function DenominatorOf(sx: real, sy: real): real {
    sx * sy
  }

  /** The final step of `_wcorr` from the numerator and the two spreads: 0
      when the numerator or the denominator is 0, otherwise the numerator
      over the square root of the denominator. */
  function Ratio(num: real, sx: real, sy: real, sqrt: real -> real): real
    requires sx >= 0.0 && sy >= 0.0 && IsSqrt(sqrt)
  {
    var den := DenominatorOf(sx, sy);
    if den == 0.0 || num == 0.0 then 0.0
    else
      SqrtPositive(sqrt, den);
      Quotient(num, sqrt(den))
  }

  /** With `num^2 <= sx sy`, the ratio lies in `[-1, 1]`, is 0 exactly when
      the numerator or the denominator is, and otherwise has the sign of
      the numerator. */
  lemma {:induction false} RatioRange(num: real, sx: real, sy: real, sqrt: real -> real)
    requires sx >= 0.0 && sy >= 0.0 && IsSqrt(sqrt)
    requires Det(sx, num, sy) >= 0.0
    ensures -1.0 <= Ratio(num, sx, sy, sqrt) <= 1.0
    ensures Ratio(num, sx, sy, sqrt) == 0.0 <==> num == 0.0 || DenominatorOf(sx, sy) == 0.0
    ensures Ratio(num, sx, sy, sqrt) > 0.0 <==> num > 0.0 && DenominatorOf(sx, sy) != 0.0
  {
    var den := DenominatorOf(sx, sy);
    if den != 0.0 && num != 0.0 {
      assert num * num <= den;
      SqrtPositive(sqrt, den);
      RatioBound(num, sqrt(den));
      PositiveQuotient(num, sqrt(den));
    }
  }

  /** The weighted Pearson formula of `_wcorr` on the given values. */
  function Correlation(x: seq<real>, y: seq<real>, w: seq<real>, W: real, sqrt: real -> real): real
    requires |x| == |y| == |w|
    requires NonNegativeVec(w) && W == Sum(w) && IsSqrt(sqrt)
  {
    PearsonBound(x, y, w, W);
    Ratio(Numerator(x, y, w, W), Spread(x, w, W), Spread(y, w, W), sqrt)
  }

  /** `_wcorr(x, y, w, wsum, rank)`: with `rank` set, both vectors are first
      replaced by their `argsort().argsort()` ranks (Spearman). */
  function WCorr(x: seq<real>, y: seq<real>, w: seq<real>, wsum: real, rank: bool, sqrt: real -> real): real
    requires |x| == |y| == |w|
    requires NonNegativeVec(w) && wsum == Sum(w) && IsSqrt(sqrt)
  {
    if rank then Correlation(OrdinalRanks(x), OrdinalRanks(y), w, wsum, sqrt)
    else Correlation(x, y, w, wsum, sqrt)
  }

  /** With non-negative weights and `wsum` their total, the weighted
      correlation lies in `[-1, 1]`. */
  lemma {:induction false} CorrelationBound(x: seq<real>, y: seq<real>, w: seq<real>, W: real, sqrt: real -> real)
    requires |x| == |y| == |w|
    requires NonNegativeVec(w) && W == Sum(w) && IsSqrt(sqrt)
    ensures -1.0 <= Correlation(x, y, w, W, sqrt) <= 1.0
  {
    PearsonBound(x, y, w, W);
    RatioRange(Numerator(x, y, w, W), Spread(x, w, W), Spread(y, w, W), sqrt);
  }

  /** The correlation is 0 exactly when the numerator or the denominator
      is, and otherwise has the numerator's sign. */
  lemma {:induction false} CorrelationSign(x: seq<real>, y: seq<real>, w: seq<real>, W: real, sqrt: real -> real)
    requires |x| == |y| == |w|
    requires NonNegativeVec(w) && W == Sum(w) && IsSqrt(sqrt)
    ensures Correlation(x, y, w, W, sqrt) == 0.0
            <==> Numerator(x, y, w, W) == 0.0 || Denominator(x, y, w, W) == 0.0
    ensures Correlation(x, y, w, W, sqrt) > 0.0 <==> Numerator(x, y, w, W) > 0.0 && Denominator(x, y, w, W) != 0.0
  {
    PearsonBound(x, y, w, W);
    RatioRange(Numerator(x, y, w, W), Spread(x, w, W), Spread(y, w, W), sqrt);
  }

  lemma {:induction false} PositiveQuotient(n: real, s: real)
    requires s > 0.0 && n != 0.0
    ensures Quotient(n, s) != 0.0 && (Quotient(n, s) > 0.0 <==> n > 0.0)
  {
    var q := n / s;
    assert n == q * s;
  }

  /** `_wcoex`: method 0 is Pearson, method 1 is Spearman, any other
      method is an error. */
  function WCoex(x: seq<real>, y: seq<real>, w: seq<real>, wsum: real, mode: int, sqrt: real -> real): (r: Result<real>)
    requires |x| == |y| == |w|
    requires NonNegativeVec(w) && wsum == Sum(w) && IsSqrt(sqrt)
    ensures r.Err? <==> mode != 0 && mode != 1
    ensures r.Err? ==> r.error == ValueError("method not supported")
  {
    if mode == 0 then Ok(WCorr(x, y, w, wsum, false, sqrt))
    else if mode == 1 then Ok(WCorr(x, y, w, wsum, true, sqrt))
    else Err(ValueError("method not supported"))
  }

  /** Both Pearson and Spearman scores lie in `[-1, 1]`; Spearman is the
      Pearson formula on rank vectors, each a permutation of `0 .. n-1`. */
  lemma {:induction false} WCoexBound(x: seq<real>, y: seq<real>, w: seq<real>, wsum: real, mode: int, sqrt: real -> real)
    requires |x| == |y| == |w|
    requires NonNegativeVec(w) && wsum == Sum(w) && IsSqrt(sqrt)
    ensures WCoex(x, y, w, wsum, mode, sqrt).Ok? ==> -1.0 <= WCoex(x, y, w, wsum, mode, sqrt).value <= 1.0
    ensures mode == 1 ==> WCoex(x, y, w, wsum, mode, sqrt)
                            == Ok(Correlation(OrdinalRanks(x), OrdinalRanks(y), w, wsum, sqrt))
  {
    if mode == 0 {
      CorrelationBound(x, y, w, wsum, sqrt);
    } else if mode == 1 {
      CorrelationBound(OrdinalRanks(x), OrdinalRanks(y), w, wsum, sqrt);
    }
  }

  /** `sum(s) == a * sum(p)` when `s` is `p` scaled by `a`. */
  lemma {:induction false} SumScale(s: seq<real>, p: seq<real>, a: real)
    requires |s| == |p|
    requires forall k :: 0 <= k < |s| ==> s[k] == a * p[k]
    ensures Sum(s) == a * Sum(p)
  {
    forall k | 0 <= k < |s| ensures s[k] == Comb(a, 0.0, 0.0, p[k], p[k], p[k]) {
    }
    SumLinear(s, p, p, p, a, 0.0, 0.0);
  }

  /** The weighted sum of a constant vector is the constant times the total weight. */
  lemma {:induction false} ConstantMoment(v: seq<real>, w: seq<real>, d: real)
    requires |v| == |w|
    requires forall k :: 0 <= k < |v| ==> v[k] == d
    ensures Sum(Mul(w, v)) == d * Sum(w)
  {
    forall k | 0 <= k < |v| ensures Mul(w, v)[k] == d * w[k] {
    }
    SumScale(Mul(w, v), w, d);
  }

  lemma {:induction false} ConstantDet(c: real, d: real, S1: real, S2: real, W: real)
    requires d == c * c && S1 == c * W && S2 == d * W
    ensures Det(S2, S1, W) == 0.0
  {
    assert S2 * W == (c * W) * (c * W);
  }

  /** A constant vector has zero spread. */
  lemma {:induction false} ConstantSpread(x: seq<real>, w: seq<real>, W: real, c: real)
    requires |x| == |w| && W == Sum(w)
    requires forall k :: 0 <= k < |x| ==> x[k] == c
    ensures Spread(x, w, W) == 0.0
  {
    var d := c * c;
    ConstantMoment(x, w, c);
    ConstantMoment(Square(x), w, d);
    ConstantDet(c, d, Sum(Mul(w, x)), Sum(Mul(w, Square(x))), W);
  }

  /** `_wcorr` of a constant vector against anything is 0: the denominator
      vanishes, so no division takes place. */
  lemma {:induction false} ConstantCorrelation(x: seq<real>, y: seq<real>, w: seq<real>, W: real, c: real, sqrt: real -> real)
    requires |x| == |y| == |w|
    requires NonNegativeVec(w) && W == Sum(w) && IsSqrt(sqrt)
    requires (forall k :: 0 <= k < |x| ==> x[k] == c) || (forall k :: 0 <= k < |y| ==> y[k] == c)
    ensures Correlation(x, y, w, W, sqrt) == 0.0
  {
    if forall k :: 0 <= k < |x| ==> x[k] == c {
      ConstantSpread(x, w, W, c);
    } else {
      ConstantSpread(y, w, W, c);
    }
  }

  /** All-zero weights (`wsum == 0` with non-negative weights) give 0. */
  lemma {:induction false} ZeroWeightCorrelation(x: seq<real>, y: seq<real>, w: seq<real>, W: real, sqrt: real -> real)
    requires |x| == |y| == |w|
    requires NonNegativeVec(w) && W == Sum(w) && IsSqrt(sqrt)
    requires W == 0.0
    ensures Correlation(x, y, w, W, sqrt) == 0.0
  {
    SumZeroOfNonNegative(w);
    ZeroWeightSum(w, x);
    ZeroWeightSum(w, Square(x));
  }

  /** Weights that are all zero make every weighted sum zero. */
  lemma {:induction false} ZeroWeightSum(w: seq<real>, v: seq<real>)
    requires |w| == |v|
    requires forall k :: 0 <= k < |w| ==> w[k] == 0.0
    ensures Sum(Mul(w, v)) == 0.0
  {
    SumOfZeros(Mul(w, v));
  }

  lemma {:induction false} CrossTerm(w: real, x: real, y: real)
    ensures (w * x) * y == (w * y) * x
  {
  }

  lemma {:induction false} NumeratorOfSymmetric(W: real, Sxy: real, Sx: real, Sy: real)
    ensures NumeratorOf(W, Sxy, Sx, Sy) == NumeratorOf(W, Sxy, Sy, Sx)
  {
  }

  /** The weighted covariance does not depend on the order of `x` and `y`. */
  lemma {:induction false} NumeratorSymmetric(x: seq<real>, y: seq<real>, w: seq<real>, W: real)
    requires |x| == |y| == |w|
    ensures Numerator(x, y, w, W) == Numerator(y, x, w, W)
  {
    forall k | 0 <= k < |w| ensures Mul(Mul(w, x), y)[k] == Mul(Mul(w, y), x)[k] {
      CrossTerm(w[k], x[k], y[k]);
    }
    assert Mul(Mul(w, x), y) == Mul(Mul(w, y), x);
    NumeratorOfSymmetric(W, Sum(Mul(Mul(w, x), y)), Sum(Mul(w, x)), Sum(Mul(w, y)));
  }

  /** `_wcorr(x, y) == _wcorr(y, x)`. */
  lemma {:induction false} CorrelationSymmetric(x: seq<real>, y: seq<real>, w: seq<real>, W: real, sqrt: real -> real)
    requires |x| == |y| == |w|
    requires NonNegativeVec(w) && W == Sum(w) && IsSqrt(sqrt)
    ensures Correlation(x, y, w, W, sqrt) == Correlation(y, x, w, W, sqrt)
  {
    NumeratorSymmetric(x, y, w, W);
    assert Denominator(x, y, w, W) == Denominator(y, x, w, W);
  }

  lemma {:induction false} SelfTerm(w: real, x: real)
    ensures (w * x) * x == w * (x * x)
  {
  }

  lemma {:induction false} SelfNumerator(W: real, S2: real, S1: real)
    ensures NumeratorOf(W, S2, S1, S1) == Det(S2, S1, W)
  {
  }

  /** The covariance of `x` with itself is its spread. */
  lemma {:induction false} NumeratorSelf(x: seq<real>, w: seq<real>, W: real)
    requires |x| == |w|
    ensures Numerator(x, x, w, W) == Spread(x, w, W)
  {
    forall k | 0 <= k < |w| ensures Mul(Mul(w, x), x)[k] == Mul(w, Square(x))[k] {
      SelfTerm(w[k], x[k]);
    }
    assert Mul(Mul(w, x), x) == Mul(w, Square(x));
    SelfNumerator(W, Sum(Mul(w, Square(x))), Sum(Mul(w, x)));
  }

  lemma {:induction false} UnitRatio(S: real, s: real)
    requires S > 0.0 && s >= 0.0 && s * s == S * S
    ensures s > 0.0 && Quotient(S, s) == 1.0
  {
    RootOfSquare(S, s);
    assert S / s == S / S;
  }

  /** A vector that is not constant under the weights correlates perfectly
      with itself. */
  lemma {:induction false} SelfCorrelation(x: seq<real>, w: seq<real>, W: real, sqrt: real -> real)
    requires |x| == |w|
    requires NonNegativeVec(w) && W == Sum(w) && IsSqrt(sqrt)
    requires Spread(x, w, W) != 0.0
    ensures Correlation(x, x, w, W, sqrt) == 1.0
  {
    var S := Spread(x, w, W);
    NumeratorSelf(x, w, W);
    PearsonBound(x, x, w, W);
    assert S > 0.0;
    var den := Denominator(x, x, w, W);
    assert den == S * S;
    SquareStrict(0.0, S);
    SqrtPositive(sqrt, den);
    UnitRatio(S, sqrt(den));
  }

  /** The correlation depends on its inputs only through the numerator and
      the two spreads. */
  lemma {:induction false} SameMomentsSameCorrelation(x: seq<real>, y: seq<real>, w: seq<real>, W: real,
                                                      x': seq<real>, y': seq<real>, w': seq<real>, W': real,
                                                      sqrt: real -> real)
    requires |x| == |y| == |w| && |x'| == |y'| == |w'|
    requires NonNegativeVec(w) && W == Sum(w) && NonNegativeVec(w') && W' == Sum(w') && IsSqrt(sqrt)
    requires W == W'
    requires Sum(Mul(w, x)) == Sum(Mul(w', x')) && Sum(Mul(w, y)) == Sum(Mul(w', y'))
    requires Sum(Mul(Mul(w, x), y)) == Sum(Mul(Mul(w', x'), y'))
    requires Sum(Mul(w, Square(x))) == Sum(Mul(w', Square(x'))) && Sum(Mul(w, Square(y))) == Sum(Mul(w', Square(y')))
    ensures Correlation(x, y, w, W, sqrt) == Correlation(x', y', w', W', sqrt)
  {
    assert Numerator(x, y, w, W) == Numerator(x', y', w', W');
    assert Spread(x, w, W) == Spread(x', w', W');
    assert Spread(y, w, W) == Spread(y', w', W');
  }

  /** With no spots at all, both scores are 0. */
  lemma {:induction false} EmptyWCoex(x: seq<real>, y: seq<real>, w: seq<real>, mode: int, sqrt: real -> real)
    requires |x| == |y| == |w| == 0
    requires IsSqrt(sqrt) && (mode == 0 || mode == 1)
    ensures WCoex(x, y, w, Sum(w), mode, sqrt) == Ok(0.0)
  {
    assert Sum(w) == 0.0;
    assert |OrdinalRanks(x)| == |OrdinalRanks(y)| == 0;
    ZeroWeightCorrelation(x, y, w, 0.0, sqrt);
    ZeroWeightCorrelation(OrdinalRanks(x), OrdinalRanks(y), w, 0.0, sqrt);
  }


}
