/** Ranking of a vector of expression values, the two ways the bivariate
    scores turn values into ranks before a Spearman correlation:

    - `np.argsort(x).argsort()` in `_wcorr` gives each entry its 0-based
      position in sorted order (`OrdinalRank`);
    - `scipy.stats.rankdata` in `_vectorized_correlations` gives each entry
      its 1-based rank, ties sharing the average of their positions
      (`AverageRank`). */
module Ranks {

  /** Number of the first `n` entries of `x` that are smaller than `v`. */
  function CountLess(x: seq<real>, v: real, n: nat): (c: nat)
    requires n <= |x|
    ensures c <= n
  {
    if n == 0 then 0 else CountLess(x, v, n - 1) + (if x[n - 1] < v then 1 else 0)
  }

  /** Number of the first `n` entries of `x` that are equal to `v`. */
  function CountEqual(x: seq<real>, v: real, n: nat): (c: nat)
    requires n <= |x|
    ensures c <= n
  {
    if n == 0 then 0 else CountEqual(x, v, n - 1) + (if x[n - 1] == v then 1 else 0)
  }

  /** Entries smaller than `v` and entries equal to `v` are disjoint, so
      together they number at most `n`. */
  lemma {:induction false} CountsDisjoint(x: seq<real>, v: real, n: nat)
    requires n <= |x|
    ensures CountLess(x, v, n) + CountEqual(x, v, n) <= n
  {
    if n > 0 {
      CountsDisjoint(x, v, n - 1);
    }
  }

  /** Every entry below `v` or equal to `v` is below a larger `v'`. */
  lemma {:induction false} CountLessMonotone(x: seq<real>, v: real, v': real, n: nat)
    requires n <= |x| && v < v'
    ensures CountLess(x, v', n) >= CountLess(x, v, n) + CountEqual(x, v, n)
  {
    if n > 0 {
      CountLessMonotone(x, v, v', n - 1);
    }
  }

  /** A longer prefix holds at least as many equal entries, and one more
      when the entry at `m` itself is equal to `v`. */
  lemma {:induction false} CountEqualPrefix(x: seq<real>, v: real, m: nat, n: nat)
    requires m < n <= |x|
    ensures CountEqual(x, v, n) >= CountEqual(x, v, m) + (if x[m] == v then 1 else 0)
  {
    if n > m + 1 {
      CountEqualPrefix(x, v, m, n - 1);
    }
  }

  /** The 0-based position of entry `i` once `x` is sorted stably:
      the entries smaller than `x[i]`, then the equal entries before `i`. */
  function OrdinalRank(x: seq<real>, i: nat): nat
    requires i < |x|
  {
    CountLess(x, x[i], |x|) + CountEqual(x, x[i], i)
  }

  /** `np.argsort(x).argsort()`: the vector of ordinal ranks. */
  function OrdinalRanks(x: seq<real>): (r: seq<real>)
    ensures |r| == |x|
  {
    seq(|x|, i requires 0 <= i < |x| => OrdinalRank(x, i) as real)
  }

  /** Ordinal ranks are positions: each lies in `[0, n)`. */
  lemma {:induction false} OrdinalRankBounded(x: seq<real>, i: nat)
    requires i < |x|
    ensures OrdinalRank(x, i) < |x|
  {
    CountsDisjoint(x, x[i], |x|);
    CountEqualPrefix(x, x[i], i, |x|);
  }

  /** Ordinal ranks follow the values: a smaller entry, or an equal entry
      further left, is ranked strictly lower. */
  lemma {:induction false} OrdinalRankOrdered(x: seq<real>, i: nat, j: nat)
    requires i < |x| && j < |x|
    requires x[i] < x[j] || (x[i] == x[j] && i < j)
    ensures OrdinalRank(x, i) < OrdinalRank(x, j)
  {
    if x[i] < x[j] {
      CountLessMonotone(x, x[i], x[j], |x|);
      CountEqualPrefix(x, x[i], i, |x|);
    } else {
      CountEqualPrefix(x, x[i], i, j);
    }
  }

  /** `OrdinalRanks(x)` is a permutation of `0, 1, ..., n - 1`: its
      entries are distinct naturals below `n`. */
  lemma {:induction false} OrdinalRanksPermutation(x: seq<real>)
    ensures forall i :: 0 <= i < |x| ==> 0.0 <= OrdinalRanks(x)[i] < |x| as real
    ensures forall i, j :: 0 <= i < |x| && 0 <= j < |x| && i != j ==> OrdinalRanks(x)[i] != OrdinalRanks(x)[j]
  {
    forall i | 0 <= i < |x| ensures 0.0 <= OrdinalRanks(x)[i] < |x| as real {
      OrdinalRankBounded(x, i);
    }
    forall i, j | 0 <= i < |x| && 0 <= j < |x| && i != j
      ensures OrdinalRanks(x)[i] != OrdinalRanks(x)[j]
    {
      if x[i] < x[j] || (x[i] == x[j] && i < j) {
        OrdinalRankOrdered(x, i, j);
      } else {
        OrdinalRankOrdered(x, j, i);
      }
    }
  }

  /** `scipy.stats.rankdata` (method "average"): the 1-based rank of entry
      `i`, ties sharing the mean of the positions they occupy. */
  function AverageRank(x: seq<real>, i: nat): real
    requires i < |x|
  {
    CountLess(x, x[i], |x|) as real + (CountEqual(x, x[i], |x|) + 1) as real / 2.0
  }

  /** `rankdata(x)`: the vector of average ranks. */
  function AverageRanks(x: seq<real>): (r: seq<real>)
    ensures |r| == |x|
  {
    seq(|x|, i requires 0 <= i < |x| => AverageRank(x, i))
  }

  /** Average ranks lie in `[1, n]`, are equal for equal values and
      strictly increasing in the values. */
  lemma {:induction false} AverageRankProperties(x: seq<real>, i: nat, j: nat)
    requires i < |x| && j < |x|
    ensures 1.0 <= AverageRank(x, i) <= |x| as real
    ensures x[i] == x[j] ==> AverageRank(x, i) == AverageRank(x, j)
    ensures x[i] < x[j] ==> AverageRank(x, i) < AverageRank(x, j)
  {
    CountsDisjoint(x, x[i], |x|);
    CountEqualPrefix(x, x[i], i, |x|);
    if x[i] < x[j] {
      CountLessMonotone(x, x[i], x[j], |x|);
      CountEqualPrefix(x, x[j], j, |x|);
    }
  }
}
