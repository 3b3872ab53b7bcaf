/** `_local_permutation_pvals` (`liana/method/sp/_spatial_utils.py`): local
    p-values by permuting the spots of `x_mat`. The random permutations are
    an input (`perms`), and so is the local score function (`localFun`),
    which receives the permuted `x_mat`, `y_mat` and `dist`; any further
    keyword arguments are part of `localFun`. */
module Permutation {
  import opened Numerics

  /** `0, 1, ..., n - 1`. */
  function Range(n: nat): (r: seq<nat>)
    ensures |r| == n
  {
    seq(n, k requires 0 <= k < n => k)
  }

  /** `p` is a permutation of `0, 1, ..., n - 1`, as `rng.permutation(n)`. */
  predicate IsPermutation(p: seq<nat>, n: nat) {
    |p| == n && multiset(p) == multiset(Range(n))
  }

  /** Every index of a permutation of `0..n-1` lies below `n`. */
  lemma {:induction false} PermutationBounded(p: seq<nat>, n: nat)
    requires IsPermutation(p, n)
    ensures forall k :: 0 <= k < |p| ==> p[k] < n
  {
    forall k | 0 <= k < |p| ensures p[k] < n {
      assert p[k] in multiset(p);
      assert p[k] in Range(n);
    }
  }

  /** The rows of `m` at the indices `idx`, `m[idx, :]`. */
  function Rows(m: Matrix, idx: seq<nat>): (r: Matrix)
    requires forall k :: 0 <= k < |idx| ==> idx[k] < |m|
    ensures |r| == |idx|
  {
    seq(|idx|, k requires 0 <= k < |idx| => m[idx[k]])
  }

  lemma {:induction false} RowsConcat(m: Matrix, u: seq<nat>, v: seq<nat>)
    requires forall k :: 0 <= k < |u| ==> u[k] < |m|
    requires forall k :: 0 <= k < |v| ==> v[k] < |m|
    ensures Rows(m, u + v) == Rows(m, u) + Rows(m, v)
  {
    assert forall k :: 0 <= k < |u + v| ==> Rows(m, u + v)[k] == (Rows(m, u) + Rows(m, v))[k];
  }

  /** Removing the entry at `i` removes one occurrence from the multiset. */
  lemma {:induction false} MultisetRemove(b: seq<nat>, i: nat)
    requires i < |b|
    ensures multiset(b) == multiset{b[i]} + multiset(b[..i] + b[i + 1..])
  {
    assert b == b[..i] + [b[i]] + b[i + 1..];
  }

  /** The rows selected by `b` are the row at `b[i]` plus those selected by
      `b` without entry `i`. */
  lemma {:induction false} RowsRemove(m: Matrix, b: seq<nat>, i: nat)
    requires i < |b| && forall k :: 0 <= k < |b| ==> b[k] < |m|
    ensures multiset(Rows(m, b)) == multiset{m[b[i]]} + multiset(Rows(m, b[..i] + b[i + 1..]))
  {
    var lo, hi := b[..i], b[i + 1..];
    assert b == lo + [b[i]] + hi;
    RowsConcat(m, lo + [b[i]], hi);
    RowsConcat(m, lo, [b[i]]);
    RowsConcat(m, lo, hi);
    assert Rows(m, [b[i]]) == [m[b[i]]];
  }

  lemma {:induction false} MultisetCancel(x: nat, p: multiset<nat>, q: multiset<nat>)
    requires multiset{x} + p == multiset{x} + q
    ensures p == q
  {
    assert p == (multiset{x} + p) - multiset{x};
    assert q == (multiset{x} + q) - multiset{x};
  }

  /** Removing one matching entry from two sequences with equal multisets
      leaves equal multisets. */
  lemma {:induction false} RemoveMatching(a: seq<nat>, b: seq<nat>, i: nat)
    requires |a| > 0 && i < |b| && a[0] == b[i] && multiset(a) == multiset(b)
    ensures multiset(a[1..]) == multiset(b[..i] + b[i + 1..])
  {
    var A, B := multiset(a[1..]), multiset(b[..i] + b[i + 1..]);
    MultisetRemove(a, 0);
    MultisetRemove(b, i);
    assert a[..0] + a[1..] == a[1..];
    assert multiset{a[0]} + A == multiset{a[0]} + B;
    MultisetCancel(a[0], A, B);
  }

  /** Index sequences holding the same indices select the same rows,
      counted with multiplicity. */
  lemma {:induction false} RowsMultiset(m: Matrix, a: seq<nat>, b: seq<nat>)
    requires forall k :: 0 <= k < |a| ==> a[k] < |m|
    requires forall k :: 0 <= k < |b| ==> b[k] < |m|
    requires multiset(a) == multiset(b)
    ensures multiset(Rows(m, a)) == multiset(Rows(m, b))
    decreases |a|
  {
    if |a| == 0 {
      assert |multiset(b)| == 0;
      assert b == [];
    } else {
      assert a[0] in multiset(b);
      var i :| 0 <= i < |b| && b[i] == a[0];
      var b' := b[..i] + b[i + 1..];
      RemoveMatching(a, b, i);
      RowsMultiset(m, a[1..], b');
      RowsRemove(m, a, 0);
      RowsRemove(m, b, i);
      assert a[..0] + a[1..] == a[1..];
    }
  }

  /** `x_mat[_idx, :]`: the spots (rows) of `m` in the order `p`. */
  function PermuteRows(m: Matrix, p: seq<nat>): Matrix
    requires IsPermutation(p, |m|)
  {
    PermutationBounded(p, |m|);
    Rows(m, p)
  }

  /** Permuting the spots keeps the multiset of rows: the permuted matrix
      holds the same spots, each as often as before. */
  lemma {:induction false} PermuteRowsMultiset(m: Matrix, p: seq<nat>)
    requires IsPermutation(p, |m|)
    ensures |PermuteRows(m, p)| == |m|
    ensures multiset(PermuteRows(m, p)) == multiset(m)
  {
    PermutationBounded(p, |m|);
    RowsMultiset(m, p, Range(|m|));
    assert Rows(m, Range(|m|)) == m;
  }

  /** One permutation counts as a hit when its score reaches the true score,
      in absolute value unless only positive scores are tested. */
  predicate Hit(score: real, truth: real, positiveOnly: bool) {
    if positiveOnly then score >= truth else Abs(score) >= Abs(truth)
  }

  function Abs(v: real): real { if v < 0.0 then -v else v }

  /** 1 for a hit at cell `(j, s)`, else 0. */
  function HitValue(score: Matrix, truth: Matrix, j: nat, s: nat, positiveOnly: bool): real {
    if Hit(Entry(score, j, s), Entry(truth, j, s), positiveOnly) then 1.0 else 0.0
  }

  /** The hits at cell `(j, s)` among the first `k` permuted scores. */
  function HitCount(scores: seq<Matrix>, truth: Matrix, j: nat, s: nat, positiveOnly: bool, k: nat): (c: nat)
    requires k <= |scores|
    ensures c <= k
  {
    if k == 0 then 0
    else HitCount(scores, truth, j, s, positiveOnly, k - 1) + (if Hit(Entry(scores[k - 1], j, s), Entry(truth, j, s), positiveOnly) then 1 else 0)
  }

  /** One more permuted score adds its hit value to the count. */
  lemma {:induction false} HitCountStep(scores: seq<Matrix>, truth: Matrix, j: nat, s: nat, positiveOnly: bool, k: nat)
    requires k < |scores|
    ensures HitCount(scores, truth, j, s, positiveOnly, k + 1) as real
         == HitCount(scores, truth, j, s, positiveOnly, k) as real + HitValue(scores[k], truth, j, s, positiveOnly)
  {
  }

  /** Adds the hits of permuted score `k` to counts of the first `k`. */
  method AddHits(counts: array2<real>, score: Matrix, ghost scores: seq<Matrix>, k: nat, truth: Matrix, positiveOnly: bool)
    requires k < |scores| && score == scores[k]
    requires forall j, s :: 0 <= j < counts.Length0 && 0 <= s < counts.Length1 ==>
               counts[j, s] == HitCount(scores, truth, j, s, positiveOnly, k) as real
    modifies counts
    ensures forall j, s :: 0 <= j < counts.Length0 && 0 <= s < counts.Length1 ==>
              counts[j, s] == HitCount(scores, truth, j, s, positiveOnly, k + 1) as real
  {
    MapEntries(counts, (j: nat, s: nat, v: real) => v + HitValue(score, truth, j, s, positiveOnly));
    forall j, s | 0 <= j < counts.Length0 && 0 <= s < counts.Length1
      ensures counts[j, s] == HitCount(scores, truth, j, s, positiveOnly, k + 1) as real
    {
      HitCountStep(scores, truth, j, s, positiveOnly, k);
    }
  }

  /** The score of each permutation: `local_fun` on the permuted `x_mat`
      and the unchanged `y_mat` and `dist`. */
  function PermutedScores(xMat: Matrix, yMat: Matrix, dist: Matrix, localFun: (Matrix, Matrix, Matrix) -> Matrix,
                          perms: seq<seq<nat>>): (r: seq<Matrix>)
    requires forall k :: 0 <= k < |perms| ==> IsPermutation(perms[k], |xMat|)
    ensures |r| == |perms|
  {
    seq(|perms|, k requires 0 <= k < |perms| => localFun(PermuteRows(xMat, perms[k]), yMat, dist))
  }

  /** Every score has the pair-by-spot shape of `local_truth`. */
  predicate ScoresFit(scores: seq<Matrix>, xyN: nat, spotN: nat) {
    forall k :: 0 <= k < |scores| ==> IsMatrix(scores[k], xyN, spotN)
  }

  /** The p-value of cell `(j, s)` (pair `j`, spot `s`): the share of hits,
      or 1 with `positiveOnly` where neither value of the pair is positive
      at that spot. */
  function PValue(xMat: Matrix, yMat: Matrix, scores: seq<Matrix>, truth: Matrix, j: nat, s: nat, positiveOnly: bool): real
    requires |scores| > 0
  {
    if positiveOnly && Entry(xMat, s, j) <= 0.0 && Entry(yMat, s, j) <= 0.0 then 1.0
    else Quotient(HitCount(scores, truth, j, s, positiveOnly, |scores|) as real, |scores| as real)
  }

  /** Every p-value lies in `[0, 1]`, and is 1 exactly when every
      permutation scores a hit or the spot is masked. */
  lemma {:induction false} PValueRange(xMat: Matrix, yMat: Matrix, scores: seq<Matrix>, truth: Matrix, j: nat, s: nat, positiveOnly: bool)
    requires |scores| > 0
    ensures 0.0 <= PValue(xMat, yMat, scores, truth, j, s, positiveOnly) <= 1.0
    ensures PValue(xMat, yMat, scores, truth, j, s, positiveOnly) == 1.0
            <==> (positiveOnly && Entry(xMat, s, j) <= 0.0 && Entry(yMat, s, j) <= 0.0)
                 || HitCount(scores, truth, j, s, positiveOnly, |scores|) == |scores|
  {
    var c := HitCount(scores, truth, j, s, positiveOnly, |scores|) as real;
    var n := |scores| as real;
    FractionBound(c, n);
    if c == n {
      QuotientOne(n);
    }
  }

  /** The permutation loop of `_local_permutation_pvals`: a zero
      pair-by-spot buffer, incremented by 1 at every hit of every
      permutation. */
  method CountHits(xMat: Matrix, yMat: Matrix, dist: Matrix, truth: Matrix, spotN: nat, xyN: nat,
                   localFun: (Matrix, Matrix, Matrix) -> Matrix, perms: seq<seq<nat>>, positiveOnly: bool)
    returns (counts: array2<real>)
    requires |xMat| == spotN && forall k :: 0 <= k < |perms| ==> IsPermutation(perms[k], spotN)
    ensures fresh(counts) && counts.Length0 == xyN && counts.Length1 == spotN
    ensures forall j, s :: 0 <= j < xyN && 0 <= s < spotN ==>
              counts[j, s] == HitCount(PermutedScores(xMat, yMat, dist, localFun, perms), truth, j, s, positiveOnly, |perms|) as real
  {
    ghost var scores := PermutedScores(xMat, yMat, dist, localFun, perms);
    counts := new real[xyN, spotN]((j, s) => 0.0);
    var k := 0;
    while k < |perms|
      invariant 0 <= k <= |perms|
      invariant forall j, s :: 0 <= j < xyN && 0 <= s < spotN ==>
                  counts[j, s] == HitCount(scores, truth, j, s, positiveOnly, k) as real
    {
      var score := localFun(PermuteRows(xMat, perms[k]), yMat, dist);
      AddHits(counts, score, scores, k, truth, positiveOnly);
      k := k + 1;
    }
  }

  lemma {:induction false} QuotientOne(n: real)
    requires n > 0.0
    ensures Quotient(n, n) == 1.0
  {
    var q := n / n;
    assert n == q * n;
    assert (q - 1.0) * n == 0.0;
  }

  /** `_local_permutation_pvals(x_mat, y_mat, dist, local_truth, local_fun,
      n_perm, seed, positive_only)`: counts hits in a pair-by-spot buffer
      over the permutations, divides by their number, then sets the
      masked cells to 1. */
  method LocalPermutationPvals(xMat: Matrix, yMat: Matrix, dist: Matrix, truth: Matrix, spotN: nat, xyN: nat,
                               localFun: (Matrix, Matrix, Matrix) -> Matrix, perms: seq<seq<nat>>,
                               positiveOnly: bool)
    returns (pvals: array2<real>)
    requires IsMatrix(xMat, spotN, xyN) && IsMatrix(yMat, spotN, xyN) && IsMatrix(truth, xyN, spotN)
    requires |perms| > 0 && forall k :: 0 <= k < |perms| ==> IsPermutation(perms[k], spotN)
    requires ScoresFit(PermutedScores(xMat, yMat, dist, localFun, perms), xyN, spotN)
    ensures fresh(pvals) && pvals.Length0 == xyN && pvals.Length1 == spotN
    ensures forall j, s :: 0 <= j < xyN && 0 <= s < spotN ==>
              pvals[j, s] == PValue(xMat, yMat, PermutedScores(xMat, yMat, dist, localFun, perms), truth, j, s, positiveOnly)
  {
    pvals := CountHits(xMat, yMat, dist, truth, spotN, xyN, localFun, perms, positiveOnly);
    var n := |perms| as real;
    MapEntries(pvals, (j: nat, s: nat, v: real) => Quotient(v, n));
    if positiveOnly {
      MapEntries(pvals, (j: nat, s: nat, v: real) => if Entry(xMat, s, j) <= 0.0 && Entry(yMat, s, j) <= 0.0 then 1.0 else v);
    }
  }
}
