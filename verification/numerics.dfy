/** Real-valued vectors, matrices and weighted moments.

    numpy arrays are modelled as `seq<real>` (vectors) and `seq<seq<real>>`
    (row-major matrices). Arithmetic is exact: the float32 / float64 rounding
    of the Python code is not modelled. A square root is not definable in
    Dafny's real arithmetic, so every operation that takes one receives it as
    a parameter `sqrt` that is assumed only to satisfy `IsSqrt`. */
module Numerics {

  type Matrix = seq<seq<real>>

  /** `sqrt` returns the non-negative square root of every non-negative real. */
  ghost predicate IsSqrt(sqrt: real -> real) {
    forall a :: a >= 0.0 ==> sqrt(a) >= 0.0 && sqrt(a) * sqrt(a) == a
  }

  /** `m` has `rows` rows of `cols` entries each. */
  predicate IsMatrix(m: Matrix, rows: nat, cols: nat) {
    |m| == rows && forall r :: 0 <= r < rows ==> |m[r]| == cols
  }

  /** Every entry of `m` is non-negative (a proximity matrix). */
  predicate NonNegative(m: Matrix) {
    forall r, c :: 0 <= r < |m| && 0 <= c < |m[r]| ==> m[r][c] >= 0.0
  }

  predicate NonNegativeVec(v: seq<real>) {
    forall k :: 0 <= k < |v| ==> v[k] >= 0.0
  }

  /** A square matrix equal to its transpose. */
  predicate Symmetric(m: Matrix) {
    && (forall r :: 0 <= r < |m| ==> |m[r]| == |m|)
    && (forall r, c :: 0 <= r < |m| && 0 <= c < |m| && |m[r]| == |m| && |m[c]| == |m| ==> m[r][c] == m[c][r])
  }

  function Sum(s: seq<real>): real {
    if |s| == 0 then 0.0 else s[0] + Sum(s[1..])
  }

  /** Element-wise product `a * b`. */
  function Mul(a: seq<real>, b: seq<real>): seq<real>
    requires |a| == |b|
  {
    seq(|a|, k requires 0 <= k < |a| => a[k] * b[k])
  }

  /** Element-wise square `a ** 2`. */
  function Square(a: seq<real>): seq<real> {
    seq(|a|, k requires 0 <= k < |a| => a[k] * a[k])
  }

  /** Column `j` of a matrix, `m[:, j]`. */
  function Col(m: Matrix, j: nat): seq<real>
    requires forall r :: 0 <= r < |m| ==> j < |m[r]|
  {
    seq(|m|, r requires 0 <= r < |m| => m[r][j])
  }

  /** `m[i][j]`, and 0 outside the matrix. */
  function Entry(m: Matrix, i: int, j: int): real {
    if 0 <= i < |m| && 0 <= j < |m[i]| then m[i][j] else 0.0
  }

  /** One element-wise numpy update of the whole matrix, in place. */
  method MapEntries(a: array2<real>, f: (nat, nat, real) -> real)
    modifies a
    ensures forall i, j :: 0 <= i < a.Length0 && 0 <= j < a.Length1 ==> a[i, j] == f(i, j, old(a[i, j]))
  {
    var i := 0;
    while i < a.Length0
      invariant 0 <= i <= a.Length0
      invariant forall i', j' :: 0 <= i' < i && 0 <= j' < a.Length1 ==> a[i', j'] == f(i', j', old(a[i', j']))
      invariant forall i', j' :: i <= i' < a.Length0 && 0 <= j' < a.Length1 ==> a[i', j'] == old(a[i', j'])
    {
      var j := 0;
      while j < a.Length1
        invariant 0 <= j <= a.Length1
        invariant forall i', j' :: 0 <= i' < i && 0 <= j' < a.Length1 ==> a[i', j'] == f(i', j', old(a[i', j']))
        invariant forall j' :: 0 <= j' < j ==> a[i, j'] == f(i, j', old(a[i, j']))
        invariant forall i', j' :: i <= i' < a.Length0 && 0 <= j' < a.Length1 && (i' > i || j' >= j) ==>
                    a[i', j'] == old(a[i', j'])
      {
        a[i, j] := f(i, j, a[i, j]);
        j := j + 1;
      }
      i := i + 1;
    }
  }

  function Max(a: real, b: real): real { if a < b then b else a }

  function Min(a: real, b: real): real { if a < b then a else b }

  /** `np.clip(v, lo, hi)`. */
  function Clip(v: real, lo: real, hi: real): (r: real)
    requires lo <= hi
    ensures lo <= r <= hi
    ensures lo <= v <= hi ==> r == v
  {
    if v < lo then lo else if v > hi then hi else v
  }

  lemma {:induction false} SumConcat(a: seq<real>, b: seq<real>)
    ensures Sum(a + b) == Sum(a) + Sum(b)
  {
    if |a| > 0 {
      assert (a + b)[1..] == a[1..] + b;
      SumConcat(a[1..], b);
    } else {
      assert a + b == b;
    }
  }

  /** A sum of non-negative terms is non-negative. */
  lemma {:induction false} SumNonNegative(s: seq<real>)
    requires NonNegativeVec(s)
    ensures Sum(s) >= 0.0
  {
    if |s| > 0 {
      SumNonNegative(s[1..]);
    }
  }

  /** A sum of non-negative terms is zero only if every term is. */
  lemma {:induction false} SumZeroOfNonNegative(s: seq<real>)
    requires NonNegativeVec(s) && Sum(s) == 0.0
    ensures forall k :: 0 <= k < |s| ==> s[k] == 0.0
  {
    if |s| > 0 {
      SumNonNegative(s[1..]);
      SumZeroOfNonNegative(s[1..]);
      forall k | 0 <= k < |s| ensures s[k] == 0.0 {
        if k > 0 { assert s[k] == s[1..][k - 1]; }
      }
    }
  }

  /** A sum whose terms are all zero is zero. */
  lemma {:induction false} SumOfZeros(s: seq<real>)
    requires forall k :: 0 <= k < |s| ==> s[k] == 0.0
    ensures Sum(s) == 0.0
  {
    if |s| > 0 {
      SumOfZeros(s[1..]);
    }
  }

  /** The linear combination `a x + b y + c z`. Keeping it behind a
      function lets callers match combinations without multiplying out. */
  function Comb(a: real, b: real, c: real, x: real, y: real, z: real): real {
    a * x + b * y + c * z
  }

  lemma {:induction false} CombAdd(a: real, b: real, c: real, x: real, y: real, z: real, x': real, y': real, z': real)
    ensures Comb(a, b, c, x, y, z) + Comb(a, b, c, x', y', z') == Comb(a, b, c, x + x', y + y', z + z')
  {
  }

  /** Summation is linear: a vector that is, term by term, a combination
      of three others sums to the same combination of their sums. */
  lemma {:induction false} SumLinear(s: seq<real>, p: seq<real>, q: seq<real>, r: seq<real>, a: real, b: real, c: real)
    requires |s| == |p| == |q| == |r|
    requires forall k :: 0 <= k < |s| ==> s[k] == Comb(a, b, c, p[k], q[k], r[k])
    ensures Sum(s) == Comb(a, b, c, Sum(p), Sum(q), Sum(r))
  {
    if |s| > 0 {
      assert forall k :: 0 <= k < |s[1..]| ==> s[1..][k] == s[k + 1];
      SumLinear(s[1..], p[1..], q[1..], r[1..], a, b, c);
      CombAdd(a, b, c, p[0], q[0], r[0], Sum(p[1..]), Sum(q[1..]), Sum(r[1..]));
    }
  }

  /** A combination of sums is non-negative when each term's combination is. */
  lemma {:induction false} SumCombination(p: seq<real>, q: seq<real>, r: seq<real>, a: real, b: real, c: real)
    requires |p| == |q| == |r|
    requires forall k :: 0 <= k < |p| ==> Comb(a, b, c, p[k], q[k], r[k]) >= 0.0
    ensures Comb(a, b, c, Sum(p), Sum(q), Sum(r)) >= 0.0
  {
    var s := seq(|p|, k requires 0 <= k < |p| => Comb(a, b, c, p[k], q[k], r[k]));
    SumNonNegative(s);
    SumLinear(s, p, q, r, a, b, c);
  }

  /** The binary quadratic form `u^2 P - 2uv Q + v^2 R` is non-negative
      at `(u, v)`. */
  predicate QuadForm(P: real, Q: real, R: real, u: real, v: real) {
    Quad(u, v, P, Q, R) >= 0.0
  }

  /** The form `(P, Q, R)` is positive semi-definite: non-negative at every point. */
  ghost predicate Psd(P: real, Q: real, R: real) {
    forall u, v :: QuadForm(P, Q, R, u, v)
  }

  /** The determinant `P R - Q^2` of the form `(P, Q, R)`. */
  function Det(P: real, Q: real, R: real): real {
    P * R - Q * Q
  }

  /** The value `u^2 P - 2uv Q + v^2 R` of a binary quadratic form. */
  function Quad(u: real, v: real, P: real, Q: real, R: real): real {
    Comb(u * u, -2.0 * u * v, v * v, P, Q, R)
  }

  lemma {:induction false} Halve(P: real, Q: real) returns (v: real)
    requires Q != 0.0
    ensures 2.0 * v * Q == P + 1.0
  {
    v := (P + 1.0) / (2.0 * Q);
  }

  /** With `R = 0` the form at `(1, v)` is `P - 2vQ`, which is `-1` when
      `2vQ = P + 1`: a form with `R = 0` and `Q != 0` takes negative values. */
  lemma {:induction false} FormWitness(P: real, Q: real, R: real, v: real)
    requires R == 0.0 && 2.0 * v * Q == P + 1.0
    ensures !QuadForm(P, Q, R, 1.0, v)
  {
  }

  lemma {:induction false} ScaledForm(P: real, Q: real, R: real)
    ensures Comb(R * R, -2.0 * R * Q, Q * Q, P, Q, R) == R * (P * R - Q * Q)
  {
  }

  lemma {:induction false} PositiveFactor(R: real, d: real)
    requires R > 0.0 && R * d >= 0.0
    ensures d >= 0.0
  {
  }

  /** A binary quadratic form that is non-negative everywhere (positive
      semi-definite) has non-negative diagonal and `Q^2 <= P R`. */
  lemma {:induction false} PsdBound(P: real, Q: real, R: real)
    requires Psd(P, Q, R)
    ensures P >= 0.0 && R >= 0.0
    ensures Det(P, Q, R) >= 0.0
  {
    assert QuadForm(P, Q, R, 1.0, 0.0);
    assert QuadForm(P, Q, R, 0.0, -1.0);
    if R > 0.0 {
      assert QuadForm(P, Q, R, R, Q);
      ScaledForm(P, Q, R);
      PositiveFactor(R, P * R - Q * Q);
    } else if Q != 0.0 {
      var v := Halve(P, Q);
      FormWitness(P, Q, R, v);
      assert false;
    }
  }

  /** One term of `sum w (u a - v b)^2`: `w (u a - v b)^2` is the form
      at `(u, v)` with coefficients `w a^2`, `w a b` and `w b^2`. */
  lemma {:induction false} DeviationTerm(w: real, a: real, b: real, u: real, v: real)
    requires w >= 0.0
    ensures QuadForm(w * (a * a), (w * a) * b, w * (b * b), u, v)
  {
    var d := u * a - v * b;
    assert d * d >= 0.0;
    assert w * (d * d) >= 0.0;
    assert d * d == (u * u) * (a * a) - 2.0 * u * v * (a * b) + (v * v) * (b * b);
    assert w * (d * d) == (u * u) * (w * (a * a)) + (-2.0 * u * v) * ((w * a) * b) + (v * v) * (w * (b * b));
  }

  /** Every term of `sum w (u a - v b)^2` is non-negative. */
  lemma {:induction false} DeviationTerms(w: seq<real>, a: seq<real>, b: seq<real>, u: real, v: real)
    requires |w| == |a| == |b|
    requires NonNegativeVec(w)
    ensures forall k :: 0 <= k < |w| ==>
              Comb(u * u, -2.0 * u * v, v * v, Mul(w, Square(a))[k], Mul(Mul(w, a), b)[k], Mul(w, Square(b))[k]) >= 0.0
  {
    forall k | 0 <= k < |w|
      ensures Comb(u * u, -2.0 * u * v, v * v, Mul(w, Square(a))[k], Mul(Mul(w, a), b)[k], Mul(w, Square(b))[k]) >= 0.0
    {
      DeviationTerm(w[k], a[k], b[k], u, v);
    }
  }

  /** `sum w (u a - v b)^2 >= 0` for all `u, v`: the weighted second moments
      of `a` and `b` form a positive semi-definite quadratic form. */
  lemma {:induction false} DeviationForm(w: seq<real>, a: seq<real>, b: seq<real>)
    requires |w| == |a| == |b|
    requires NonNegativeVec(w)
    ensures Psd(Sum(Mul(w, Square(a))), Sum(Mul(Mul(w, a), b)), Sum(Mul(w, Square(b))))
  {
    forall u, v ensures QuadForm(Sum(Mul(w, Square(a))), Sum(Mul(Mul(w, a), b)), Sum(Mul(w, Square(b))), u, v) {
      DeviationTerms(w, a, b, u, v);
      SumCombination(Mul(w, Square(a)), Mul(Mul(w, a), b), Mul(w, Square(b)), u * u, -2.0 * u * v, v * v);
    }
  }

  /** Weighted Cauchy-Schwarz: `(sum w a b)^2 <= (sum w a^2)(sum w b^2)`
      for non-negative weights `w`. */
  lemma {:induction false} WeightedCauchySchwarz(w: seq<real>, a: seq<real>, b: seq<real>)
    requires |w| == |a| == |b|
    requires NonNegativeVec(w)
    ensures Sum(Mul(w, Square(a))) >= 0.0 && Sum(Mul(w, Square(b))) >= 0.0
    ensures Det(Sum(Mul(w, Square(a))), Sum(Mul(Mul(w, a), b)), Sum(Mul(w, Square(b)))) >= 0.0
  {
    DeviationForm(w, a, b);
    PsdBound(Sum(Mul(w, Square(a))), Sum(Mul(Mul(w, a), b)), Sum(Mul(w, Square(b))));
  }

  /** One term of `sum w (u z - v)^2`, the deviation from a constant. */
  lemma {:induction false} UnitDeviationTerm(w: real, z: real, u: real, v: real)
    requires w >= 0.0
    ensures QuadForm(w * (z * z), w * z, w, u, v)
  {
    var d := u * z - v;
    assert w * (d * d) >= 0.0;
    assert d * d == (u * u) * (z * z) - 2.0 * u * v * z + v * v;
    assert w * (d * d) == (u * u) * (w * (z * z)) + (-2.0 * u * v) * (w * z) + (v * v) * w;
  }

  /** Every term of `sum w (u z - v)^2` is non-negative. */
  lemma {:induction false} UnitDeviationTerms(w: seq<real>, z: seq<real>, u: real, v: real)
    requires |w| == |z|
    requires NonNegativeVec(w)
    ensures forall k :: 0 <= k < |w| ==>
              QuadForm(Mul(w, Square(z))[k], Mul(w, z)[k], w[k], u, v)
  {
    forall k | 0 <= k < |w|
      ensures QuadForm(Mul(w, Square(z))[k], Mul(w, z)[k], w[k], u, v)
    {
      UnitDeviationTerm(w[k], z[k], u, v);
    }
  }

  /** `sum w (u z - v)^2 >= 0`: the weighted moments of `z` and the total
      weight `W` form a positive semi-definite quadratic form. */
  lemma {:induction false} VarianceForm(w: seq<real>, z: seq<real>, W: real)
    requires |w| == |z|
    requires NonNegativeVec(w) && W == Sum(w)
    ensures Psd(Sum(Mul(w, Square(z))), Sum(Mul(w, z)), W)
  {
    forall u, v ensures QuadForm(Sum(Mul(w, Square(z))), Sum(Mul(w, z)), W, u, v) {
      UnitDeviationTerms(w, z, u, v);
      SumCombination(Mul(w, Square(z)), Mul(w, z), w, u * u, -2.0 * u * v, v * v);
    }
  }

  /** The weighted variance inequality: `(sum w z)^2 <= (sum w z^2) W` for
      non-negative weights `w` of total `W`. */
  lemma {:induction false} WeightedVariance(w: seq<real>, z: seq<real>, W: real)
    requires |w| == |z|
    requires NonNegativeVec(w) && W == Sum(w)
    ensures Sum(Mul(w, Square(z))) >= 0.0 && W >= 0.0
    ensures Det(Sum(Mul(w, Square(z))), Sum(Mul(w, z)), W) >= 0.0
  {
    VarianceForm(w, z, W);
    PsdBound(Sum(Mul(w, Square(z))), Sum(Mul(w, z)), W);
  }

  /** Squaring is strictly increasing on the non-negative reals. */
  lemma {:induction false} SquareStrict(a: real, b: real)
    requires 0.0 <= a < b
    ensures a * a < b * b
  {
    var d := b - a;
    assert b * b == a * a + 2.0 * a * d + d * d;
    assert a * d >= 0.0;
    assert d * d > 0.0;
  }

  /** Opposite reals have equal squares. */
  lemma {:induction false} OppositeSquares(a: real, b: real)
    requires a == -b
    ensures a * a == b * b
  {
    assert a * a == (-b) * a == -(b * a) == -(a * b) == -(-b * b);
  }

  /** The only non-negative square root of `S^2`, for `S >= 0`, is `S`. */
  lemma {:induction false} RootOfSquare(S: real, s: real)
    requires S >= 0.0 && s >= 0.0 && s * s == S * S
    ensures s == S
  {
    if s < S {
      SquareStrict(s, S);
    } else if S < s {
      SquareStrict(S, s);
    }
  }

  /** A square root in the sense of `IsSqrt` is zero exactly at zero. */
  lemma {:induction false} SqrtPositive(sqrt: real -> real, d: real)
    requires IsSqrt(sqrt) && d >= 0.0
    ensures sqrt(d) >= 0.0 && sqrt(d) * sqrt(d) == d
    ensures sqrt(d) == 0.0 <==> d == 0.0
  {
    var s := sqrt(d);
    assert s >= 0.0 && s * s == d;
    if d == 0.0 {
      RootOfSquare(0.0, s);
    }
  }

  /** Real division `n / d`. */
  function Quotient(n: real, d: real): real
    requires d != 0.0
  {
    n / d
  }

  /** `|n / s| <= 1` when `n^2 <= s^2` and `s > 0`. */
  lemma {:induction false} RatioBound(n: real, s: real)
    requires s > 0.0 && n * n <= s * s
    ensures -1.0 <= Quotient(n, s) <= 1.0
  {
    var q := n / s;
    assert n == q * s;
    if q > 1.0 {
      assert n - s == (q - 1.0) * s;
      SquareStrict(s, n);
      assert false;
    } else if q < -1.0 {
      assert -n - s == (-1.0 - q) * s;
      SquareStrict(s, -n);
      assert false;
    }
  }

  /** `|n / s| < 1` when `n^2 < s^2` and `s > 0`. */
  lemma {:induction false} RatioStrictBound(n: real, s: real)
    requires s > 0.0 && n * n < s * s
    ensures -1.0 < Quotient(n, s) < 1.0
  {
    var q := n / s;
    assert n == q * s;
    if q >= 1.0 {
      assert n - s == (q - 1.0) * s;
      if n > s {
        SquareStrict(s, n);
      }
      assert false;
    } else if q <= -1.0 {
      assert -n - s == (-1.0 - q) * s;
      if -n > s {
        SquareStrict(s, -n);
      } else {
        OppositeSquares(n, s);
      }
      assert false;
    }
  }

  /** A non-negative numerator over a positive denominator gives a
      non-negative quotient, and one below the denominator a quotient
      below 1. */
  lemma {:induction false} FractionBound(n: real, d: real)
    requires d > 0.0 && n >= 0.0
    ensures Quotient(n, d) >= 0.0
    ensures n < d ==> Quotient(n, d) < 1.0
  {
    var q := n / d;
    assert n == q * d;
    if q < 0.0 {
      assert false;
    }
    if n < d && q >= 1.0 {
      assert false;
    }
  }

  /** Sums are monotone in their terms. */
  lemma {:induction false} SumMonotone(a: seq<real>, b: seq<real>)
    requires |a| == |b|
    requires forall k :: 0 <= k < |a| ==> a[k] <= b[k]
    ensures Sum(a) <= Sum(b)
  {
    if |a| > 0 {
      SumMonotone(a[1..], b[1..]);
    }
  }

  /** The element-wise product of non-negative vectors is non-negative. */
  lemma {:induction false} MulNonNegative(a: seq<real>, b: seq<real>)
    requires |a| == |b| && NonNegativeVec(a) && NonNegativeVec(b)
    ensures NonNegativeVec(Mul(a, b))
  {
    forall k | 0 <= k < |a| ensures Mul(a, b)[k] >= 0.0 {
      ProductNonNegative(a[k], b[k]);
    }
  }

  lemma {:induction false} ProductNonNegative(a: real, b: real)
    requires a >= 0.0 && b >= 0.0
    ensures a * b >= 0.0
  {
  }

  /** Squares are non-negative. */
  lemma {:induction false} SquareNonNegative(a: seq<real>)
    ensures NonNegativeVec(Square(a))
  {
  }

  /** Mean of a non-empty vector. */
  function Mean(v: seq<real>): real
    requires |v| > 0
  {
    Quotient(Sum(v), |v| as real)
  }

  /** `v - c`, element-wise. */
  function Shift(v: seq<real>, c: real): seq<real> {
    seq(|v|, k requires 0 <= k < |v| => v[k] - c)
  }

  lemma {:induction false} SumShift(v: seq<real>, c: real)
    ensures Sum(Shift(v, c)) == Sum(v) - |v| as real * c
  {
    if |v| > 0 {
      assert Shift(v, c)[1..] == Shift(v[1..], c);
      SumShift(v[1..], c);
    }
  }
}
