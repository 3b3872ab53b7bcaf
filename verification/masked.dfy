/** `_masked_coexpressions` (`liana/method/sp/_bivariate_funs.py`): for every
    spot, the weighted correlation of each ligand-receptor pair restricted to
    the neighbours whose proximity weight exceeds a threshold. */
module MaskedCoex {
  import opened Wrappers
  import opened Numerics
  import opened Bivariate

  /** `v[w > thr]`: the entries of `v` whose weight exceeds `thr`, in order. */
  function Masked(v: seq<real>, w: seq<real>, thr: real): (r: seq<real>)
    requires |v| == |w|
    ensures |r| == Kept(w, thr)
  {
    if |v| == 0 then []
    else (if w[0] > thr then [v[0]] else []) + Masked(v[1..], w[1..], thr)
  }

  /** The number of weights above `thr`. */
  function Kept(w: seq<real>, thr: real): (n: nat)
    ensures n <= |w|
  {
    if |w| == 0 then 0 else (if w[0] > thr then 1 else 0) + Kept(w[1..], thr)
  }

  /** The kept weights are exactly those above the threshold: every kept
      weight exceeds it, and a mask that drops nothing is the identity. */
  lemma {:induction false} MaskedAbove(w: seq<real>, thr: real)
    ensures forall k :: 0 <= k < |Masked(w, w, thr)| ==> Masked(w, w, thr)[k] > thr
  {
    if |w| > 0 {
      MaskedAbove(w[1..], thr);
      var head := if w[0] > thr then [w[0]] else [];
      assert Masked(w, w, thr) == head + Masked(w[1..], w[1..], thr);
    }
  }

  /** Masking keeps non-negative weights non-negative. */
  lemma {:induction false} MaskedNonNegative(v: seq<real>, w: seq<real>, thr: real)
    requires |v| == |w| && NonNegativeVec(v)
    ensures NonNegativeVec(Masked(v, w, thr))
  {
    if |v| > 0 {
      assert NonNegativeVec(v[1..]) by {
        forall k | 0 <= k < |v[1..]| ensures v[1..][k] >= 0.0 {
          assert v[1..][k] == v[k + 1];
        }
      }
      MaskedNonNegative(v[1..], w[1..], thr);
    }
  }

  /** A mask that drops every entry leaves nothing. */
  lemma {:induction false} MaskedNone(v: seq<real>, w: seq<real>, thr: real)
    requires |v| == |w|
    requires forall k :: 0 <= k < |w| ==> w[k] <= thr
    ensures Masked(v, w, thr) == []
  {
    if |v| > 0 {
      assert forall k :: 0 <= k < |w[1..]| ==> w[1..][k] == w[k + 1];
      MaskedNone(v[1..], w[1..], thr);
    }
  }

  lemma {:induction false} MulConcat(a1: seq<real>, a2: seq<real>, b1: seq<real>, b2: seq<real>)
    requires |a1| == |b1| && |a2| == |b2|
    ensures Mul(a1 + a2, b1 + b2) == Mul(a1, b1) + Mul(a2, b2)
  {
    var l, r := Mul(a1 + a2, b1 + b2), Mul(a1, b1) + Mul(a2, b2);
    forall k | 0 <= k < |l| ensures l[k] == r[k] {
      if k >= |a1| {
        assert (a1 + a2)[k] == a2[k - |a1|] && (b1 + b2)[k] == b2[k - |a1|];
      }
    }
    assert l == r;
  }

  lemma {:induction false} SquareConcat(a1: seq<real>, a2: seq<real>)
    ensures Square(a1 + a2) == Square(a1) + Square(a2)
  {
    var l, r := Square(a1 + a2), Square(a1) + Square(a2);
    forall k | 0 <= k < |l| ensures l[k] == r[k] {
      if k >= |a1| {
        assert (a1 + a2)[k] == a2[k - |a1|];
      }
    }
    assert l == r;
  }

  /** Masking commutes with the element-wise product. */
  lemma {:induction false} MaskedMul(a: seq<real>, b: seq<real>, w: seq<real>, thr: real)
    requires |a| == |b| == |w|
    ensures Mul(Masked(a, w, thr), Masked(b, w, thr)) == Masked(Mul(a, b), w, thr)
  {
    if |a| > 0 {
      assert Mul(a, b)[1..] == Mul(a[1..], b[1..]) by {
        forall k | 0 <= k < |a| - 1 ensures Mul(a, b)[1..][k] == Mul(a[1..], b[1..])[k] {
        }
      }
      MaskedMul(a[1..], b[1..], w[1..], thr);
      var ha := if w[0] > thr then [a[0]] else [];
      var hb := if w[0] > thr then [b[0]] else [];
      var hm := if w[0] > thr then [Mul(a, b)[0]] else [];
      assert Mul(ha, hb) == hm by {
        if w[0] > thr {
          assert |Mul(ha, hb)| == 1 && Mul(ha, hb)[0] == a[0] * b[0] == hm[0];
        } else {
          assert |Mul(ha, hb)| == 0;
        }
      }
      MulConcat(ha, Masked(a[1..], w[1..], thr), hb, Masked(b[1..], w[1..], thr));
      assert Masked(Mul(a, b), w, thr) == hm + Masked(Mul(a, b)[1..], w[1..], thr);
    }
  }

  /** Masking commutes with the element-wise square. */
  lemma {:induction false} MaskedSquare(a: seq<real>, w: seq<real>, thr: real)
    requires |a| == |w|
    ensures Square(Masked(a, w, thr)) == Masked(Square(a), w, thr)
  {
    if |a| > 0 {
      assert Square(a)[1..] == Square(a[1..]) by {
        forall k | 0 <= k < |a| - 1 ensures Square(a)[1..][k] == Square(a[1..])[k] {
        }
      }
      MaskedSquare(a[1..], w[1..], thr);
      var ha := if w[0] > thr then [a[0]] else [];
      var hm := if w[0] > thr then [Square(a)[0]] else [];
      assert Square(ha) == hm by {
        if w[0] > thr {
          assert |Square(ha)| == 1 && Square(ha)[0] == a[0] * a[0] == hm[0];
        } else {
          assert |Square(ha)| == 0;
        }
      }
      SquareConcat(ha, Masked(a[1..], w[1..], thr));
      assert Masked(Square(a), w, thr) == hm + Masked(Square(a)[1..], w[1..], thr);
    }
  }

  /** Dropping only zero terms does not change a sum. */
  lemma {:induction false} MaskedSum(s: seq<real>, w: seq<real>, thr: real)
    requires |s| == |w|
    requires forall k :: 0 <= k < |w| && w[k] <= thr ==> s[k] == 0.0
    ensures Sum(Masked(s, w, thr)) == Sum(s)
  {
    if |s| > 0 {
      assert forall k :: 0 <= k < |w[1..]| ==> w[1..][k] == w[k + 1] && s[1..][k] == s[k + 1];
      MaskedSum(s[1..], w[1..], thr);
      var head := if w[0] > thr then [s[0]] else [];
      SumConcat(head, Masked(s[1..], w[1..], thr));
    }
  }

  /** Cell `(i, j)` of `_masked_coexpressions`: the score of pair column
      `x`, `y` over the spots whose weight `w` (row `i` of the weights)
      exceeds `thr`, with `wsum` the total of exactly those weights. */
  function MaskedCell(x: seq<real>, y: seq<real>, w: seq<real>, thr: real, mode: int, sqrt: real -> real): (r: Result<real>)
    requires |x| == |y| == |w|
    requires NonNegativeVec(w) && IsSqrt(sqrt)
    ensures r.Err? <==> mode != 0 && mode != 1
    ensures r.Err? ==> r.error == ValueError("method not supported")
  {
    var wm := Masked(w, w, thr);
    MaskedNonNegative(w, w, thr);
    WCoex(Masked(x, w, thr), Masked(y, w, thr), wm, Sum(wm), mode, sqrt)
  }

  /** A spot with no neighbour above the threshold scores 0 for every pair. */
  lemma {:induction false} IsolatedSpot(x: seq<real>, y: seq<real>, w: seq<real>, thr: real, mode: int, sqrt: real -> real)
    requires |x| == |y| == |w|
    requires NonNegativeVec(w) && IsSqrt(sqrt)
    requires forall k :: 0 <= k < |w| ==> w[k] <= thr
    requires mode == 0 || mode == 1
    ensures MaskedCell(x, y, w, thr, mode, sqrt) == Ok(0.0)
  {
    MaskedNone(x, w, thr);
    MaskedNone(y, w, thr);
    MaskedNone(w, w, thr);
    EmptyWCoex(Masked(x, w, thr), Masked(y, w, thr), Masked(w, w, thr), mode, sqrt);
  }

  /** Every score lies in `[-1, 1]`. */
  lemma {:induction false} MaskedCellBound(x: seq<real>, y: seq<real>, w: seq<real>, thr: real, mode: int, sqrt: real -> real)
    requires |x| == |y| == |w|
    requires NonNegativeVec(w) && IsSqrt(sqrt)
    ensures MaskedCell(x, y, w, thr, mode, sqrt).Ok? ==> -1.0 <= MaskedCell(x, y, w, thr, mode, sqrt).value <= 1.0
  {
    var wm := Masked(w, w, thr);
    MaskedNonNegative(w, w, thr);
    WCoexBound(Masked(x, w, thr), Masked(y, w, thr), wm, Sum(wm), mode, sqrt);
  }

  /** Terms that vanish where the weight is at most 0 still vanish after
      multiplying by another vector. */
  lemma {:induction false} ZeroTerms(a: seq<real>, v: seq<real>, w: seq<real>)
    requires |a| == |v| == |w|
    requires forall k :: 0 <= k < |w| && w[k] <= 0.0 ==> a[k] == 0.0
    ensures forall k :: 0 <= k < |w| && w[k] <= 0.0 ==> Mul(a, v)[k] == 0.0
  {
  }

  /** With threshold 0 and non-negative weights the mask drops only zero
      weights, so every weighted moment is that of the full vectors. */
  lemma {:induction false} MaskedMoments(x: seq<real>, y: seq<real>, w: seq<real>)
    requires |x| == |y| == |w| && NonNegativeVec(w)
    ensures Sum(Masked(w, w, 0.0)) == Sum(w)
    ensures Sum(Mul(Masked(w, w, 0.0), Masked(x, w, 0.0))) == Sum(Mul(w, x))
    ensures Sum(Mul(Mul(Masked(w, w, 0.0), Masked(x, w, 0.0)), Masked(y, w, 0.0))) == Sum(Mul(Mul(w, x), y))
    ensures Sum(Mul(Masked(w, w, 0.0), Square(Masked(x, w, 0.0)))) == Sum(Mul(w, Square(x)))
  {
    assert forall k :: 0 <= k < |w| && w[k] <= 0.0 ==> w[k] == 0.0;
    MaskedSum(w, w, 0.0);
    MaskedMul(w, x, w, 0.0);
    ZeroTerms(w, x, w);
    MaskedSum(Mul(w, x), w, 0.0);
    MaskedMul(Mul(w, x), y, w, 0.0);
    ZeroTerms(Mul(w, x), y, w);
    MaskedSum(Mul(Mul(w, x), y), w, 0.0);
    MaskedSquare(x, w, 0.0);
    MaskedMul(w, Square(x), w, 0.0);
    ZeroTerms(w, Square(x), w);
    MaskedSum(Mul(w, Square(x)), w, 0.0);
  }

  /** With threshold 0 and non-negative weights the masked Pearson score is
      the Pearson score over all spots. */
  lemma {:induction false} MaskedPearsonFull(x: seq<real>, y: seq<real>, w: seq<real>, sqrt: real -> real)
    requires |x| == |y| == |w|
    requires NonNegativeVec(w) && IsSqrt(sqrt)
    ensures MaskedCell(x, y, w, 0.0, 0, sqrt) == Ok(Correlation(x, y, w, Sum(w), sqrt))
  {
    var xm, ym, wm := Masked(x, w, 0.0), Masked(y, w, 0.0), Masked(w, w, 0.0);
    MaskedMoments(x, y, w);
    MaskedMoments(y, x, w);
    MaskedNonNegative(w, w, 0.0);
    SameMomentsSameCorrelation(xm, ym, wm, Sum(wm), x, y, w, Sum(w), sqrt);
  }

  /** The score of pair column `j` at spot `i` (cell `(i, j)`). */
  function Cell(xMat: Matrix, yMat: Matrix, weight: Matrix, i: nat, j: nat, thr: real, mode: int, sqrt: real -> real): (r: Result<real>)
    requires |xMat| == |yMat| == |weight| && i < |weight| && |weight[i]| == |weight|
    requires forall k :: 0 <= k < |xMat| ==> j < |xMat[k]| && j < |yMat[k]|
    requires NonNegativeVec(weight[i]) && IsSqrt(sqrt)
    ensures r.Err? <==> mode != 0 && mode != 1
    ensures r.Err? ==> r.error == ValueError("method not supported")
  {
    MaskedCell(Col(xMat, j), Col(yMat, j), weight[i], thr, mode, sqrt)
  }

  /** Row `i` of `_masked_coexpressions`: the inner loop over the pairs.
      On success row `i` holds the scores and the other rows are kept. */
  method FillRow(scores: array2<real>, xMat: Matrix, yMat: Matrix, weight: Matrix, i: nat,
                 weightThr: real, mode: int, sqrt: real -> real)
    returns (err: Option<Error>)
    requires IsMatrix(xMat, scores.Length0, scores.Length1) && IsMatrix(yMat, scores.Length0, scores.Length1)
    requires IsMatrix(weight, scores.Length0, scores.Length0) && i < scores.Length0
    requires NonNegativeVec(weight[i]) && IsSqrt(sqrt)
    modifies scores
    ensures err.Some? <==> mode != 0 && mode != 1 && scores.Length1 > 0
    ensures err.Some? ==> err.value == ValueError("method not supported")
    ensures forall i', j' :: 0 <= i' < scores.Length0 && i' != i && 0 <= j' < scores.Length1 ==>
              scores[i', j'] == old(scores[i', j'])
    ensures err.None? ==> forall j :: 0 <= j < scores.Length1 ==>
              Cell(xMat, yMat, weight, i, j, weightThr, mode, sqrt) == Ok(scores[i, j])
  {
    var j := 0;
    while j < scores.Length1
      invariant 0 <= j <= scores.Length1
      invariant mode != 0 && mode != 1 ==> j == 0
      invariant forall i', j' :: 0 <= i' < scores.Length0 && i' != i && 0 <= j' < scores.Length1 ==>
                  scores[i', j'] == old(scores[i', j'])
      invariant forall j' :: 0 <= j' < j ==> Cell(xMat, yMat, weight, i, j', weightThr, mode, sqrt) == Ok(scores[i, j'])
    {
      var cell := Cell(xMat, yMat, weight, i, j, weightThr, mode, sqrt);
      if cell.Err? {
        return Some(cell.error);
      }
      scores[i, j] := cell.value;
      j := j + 1;
    }
    return None;
  }

  /** `_masked_coexpressions(x_mat, y_mat, weight, weight_thr, method)`:
      fills a `spotN` by `xyN` table, row `i` from weight row `i` and
      column `j` from the pair's expression columns `j`. The first cell
      whose score raises stops the whole computation with that error. */
  method MaskedCoexpressions(xMat: Matrix, yMat: Matrix, weight: Matrix, spotN: nat, xyN: nat,
                             weightThr: real, mode: int, sqrt: real -> real)
    returns (r: Result<array2<real>>)
    requires IsMatrix(xMat, spotN, xyN) && IsMatrix(yMat, spotN, xyN) && IsMatrix(weight, spotN, spotN)
    requires NonNegative(weight) && IsSqrt(sqrt)
    ensures r.Err? <==> mode != 0 && mode != 1 && spotN > 0 && xyN > 0
    ensures r.Err? ==> r.error == ValueError("method not supported")
    ensures r.Ok? ==> fresh(r.value) && r.value.Length0 == spotN && r.value.Length1 == xyN
    ensures r.Ok? ==> forall i, j :: 0 <= i < spotN && 0 <= j < xyN ==>
              Cell(xMat, yMat, weight, i, j, weightThr, mode, sqrt) == Ok(r.value[i, j])
  {
    var scores := new real[spotN, xyN]((i, j) => 0.0);
    var i := 0;
    while i < spotN
      invariant 0 <= i <= spotN
      invariant mode != 0 && mode != 1 && xyN > 0 ==> i == 0
      invariant forall i', j' :: 0 <= i' < i && 0 <= j' < xyN ==>
                  Cell(xMat, yMat, weight, i', j', weightThr, mode, sqrt) == Ok(scores[i', j'])
    {
      assert NonNegativeVec(weight[i]);
      var err := FillRow(scores, xMat, yMat, weight, i, weightThr, mode, sqrt);
      if err.Some? {
        return Err(err.value);
      }
      i := i + 1;
    }
    return Ok(scores);
  }
}
