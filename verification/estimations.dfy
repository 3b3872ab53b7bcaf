/** Metabolite abundance estimation
    (`liana/method/ml/estimations/_estimations.py`): per-cell summaries of
    the expression of a gene set, the gene sets that produce and degrade
    each metabolite, and their clipped difference. */
module Estimations {
  import opened Wrappers
  import opened Numerics

  /** The expression data: a cells-by-genes matrix in compressed sparse row
      form, given here densely together with which entries the sparse
      matrix stores, and the gene names. An entry not stored is zero. */
  datatype AnnData = AnnData(x: Matrix, stored: seq<seq<bool>>, varNames: seq<string>)

  predicate Valid(ad: AnnData) {
    && IsMatrix(ad.x, |ad.x|, |ad.varNames|)
    && |ad.stored| == |ad.x|
    && (forall i :: 0 <= i < |ad.x| ==> |ad.stored[i]| == |ad.varNames|)
    && (forall i, g :: 0 <= i < |ad.x| && 0 <= g < |ad.varNames| && !ad.stored[i][g] ==> ad.x[i][g] == 0.0)
  }

  /** Every gene of the list is a gene of the data. */
  predicate InVars(genes: seq<string>, vars: seq<string>) {
    forall k :: 0 <= k < |genes| ==> genes[k] in vars
  }

  /** The position of the first occurrence of `g` in `s`. */
  function IndexOf(s: seq<string>, g: string): (r: nat)
    requires g in s
    ensures r < |s| && s[r] == g
    ensures forall k :: 0 <= k < r ==> s[k] != g
  {
    if s[0] == g then 0 else 1 + IndexOf(s[1..], g)
  }

  /** Row `i` of `adata[:, genes].X`: the expression of each listed gene in cell `i`. */
  function Selected(ad: AnnData, genes: seq<string>, i: nat): (r: seq<real>)
    requires Valid(ad) && InVars(genes, ad.varNames) && i < |ad.x|
    ensures |r| == |genes|
  {
    seq(|genes|, k requires 0 <= k < |genes| => ad.x[i][IndexOf(ad.varNames, genes[k])])
  }

  /** Which of the selected entries of cell `i` the sparse matrix stores. */
  function SelectedStored(ad: AnnData, genes: seq<string>, i: nat): (r: seq<bool>)
    requires Valid(ad) && InVars(genes, ad.varNames) && i < |ad.x|
    ensures |r| == |genes|
    ensures forall k :: 0 <= k < |genes| && !r[k] ==> Selected(ad, genes, i)[k] == 0.0
  {
    seq(|genes|, k requires 0 <= k < |genes| => ad.stored[i][IndexOf(ad.varNames, genes[k])])
  }

  /** The number of `true` entries. */
  function CountTrue(b: seq<bool>): (r: nat)
    ensures r <= |b|
    ensures r == 0 <==> forall k :: 0 <= k < |b| ==> !b[k]
    ensures r == |b| <==> forall k :: 0 <= k < |b| ==> b[k]
  {
    if |b| == 0 then 0 else (if b[0] then 1 else 0) + CountTrue(b[1..])
  }

  /** `diff(a.indptr)[i]`: the number of stored entries of cell `i` among the selected genes. */
  function StoredCount(ad: AnnData, genes: seq<string>, i: nat): nat
    requires Valid(ad) && InVars(genes, ad.varNames) && i < |ad.x|
  {
    CountTrue(SelectedStored(ad, genes, i))
  }

  function Zeros(n: nat): (r: seq<real>)
    ensures |r| == n && forall k :: 0 <= k < n ==> r[k] == 0.0
  {
    seq(n, k => 0.0)
  }

  /** The largest entry of a non-empty vector. */
  function MaxOf(v: seq<real>): (r: real)
    requires |v| > 0
    ensures r in v
    ensures forall k :: 0 <= k < |v| ==> v[k] <= r
  {
    if |v| == 1 then v[0] else Max(v[0], MaxOf(v[1..]))
  }

  /** The smallest entry of a non-empty vector. */
  function MinOf(v: seq<real>): (r: real)
    requires |v| > 0
    ensures r in v
    ensures forall k :: 0 <= k < |v| ==> r <= v[k]
  {
    if |v| == 1 then v[0] else Min(v[0], MinOf(v[1..]))
  }

  /** `S / n` lies on the same side of `c` as `S` does of `n c`. */
  lemma {:induction false} QuotientSide(S: real, n: real, c: real)
    requires n > 0.0
    ensures S >= n * c ==> Quotient(S, n) >= c
    ensures S <= n * c ==> Quotient(S, n) <= c
  {
    var q := Quotient(S, n);
    assert S == q * n;
    if S >= n * c && q < c {
      assert false;
    }
    if S <= n * c && q > c {
      assert false;
    }
  }

  /** `Sum(v) >= |v| c` when every entry is at least `c`. */
  lemma {:induction false} SumAbove(v: seq<real>, c: real)
    requires forall k :: 0 <= k < |v| ==> c <= v[k]
    ensures Sum(v) >= |v| as real * c
  {
    SumShift(v, c);
    SumNonNegative(Shift(v, c));
  }

  /** `Sum(v) <= |v| c` when every entry is at most `c`. */
  lemma {:induction false} SumBelow(v: seq<real>, c: real)
    requires forall k :: 0 <= k < |v| ==> v[k] <= c
    ensures Sum(v) <= |v| as real * c
  {
    SumShift(v, c);
    SumMonotone(Shift(v, c), Zeros(|v|));
    SumOfZeros(Zeros(|v|));
  }

  /** A mean lies between the smallest and the largest entry. */
  lemma {:induction false} MeanBetween(v: seq<real>)
    requires |v| > 0
    ensures MinOf(v) <= Mean(v) <= MaxOf(v)
  {
    MeanAtLeast(v, MinOf(v));
    MeanAtMost(v, MaxOf(v));
  }

  lemma {:induction false} MeanAtLeast(v: seq<real>, c: real)
    requires |v| > 0 && forall k :: 0 <= k < |v| ==> c <= v[k]
    ensures c <= Mean(v)
  {
    SumAbove(v, c);
    QuotientSide(Sum(v), |v| as real, c);
  }

  lemma {:induction false} MeanAtMost(v: seq<real>, c: real)
    requires |v| > 0 && forall k :: 0 <= k < |v| ==> v[k] <= c
    ensures Mean(v) <= c
  {
    SumBelow(v, c);
    QuotientSide(Sum(v), |v| as real, c);
  }

  /** `mean_per_cell(adata, genes)`: the mean expression of the genes in each cell. */
  function MeanPerCell(ad: AnnData, genes: seq<string>): (r: seq<real>)
    requires Valid(ad) && InVars(genes, ad.varNames)
    ensures |r| == |ad.x|
    ensures |genes| == 0 ==> r == Zeros(|ad.x|)
  {
    if |genes| == 0 then Zeros(|ad.x|)
    else seq(|ad.x|, i requires 0 <= i < |ad.x| => Mean(Selected(ad, genes, i)))
  }

  /** Each cell's mean lies between its smallest and largest selected value. */
  lemma {:induction false} MeanPerCellBetween(ad: AnnData, genes: seq<string>, i: nat)
    requires Valid(ad) && InVars(genes, ad.varNames) && i < |ad.x| && |genes| > 0
    ensures MinOf(Selected(ad, genes, i)) <= MeanPerCell(ad, genes)[i] <= MaxOf(Selected(ad, genes, i))
  {
    MeanBetween(Selected(ad, genes, i));
  }

  /** `nnzmean_per_cell(adata, genes)`: the sum of each cell's selected
      values over its number of stored entries, and 0 where it stores none. */
  function NnzMeanPerCell(ad: AnnData, genes: seq<string>): (r: seq<real>)
    requires Valid(ad) && InVars(genes, ad.varNames)
    ensures |r| == |ad.x|
    ensures |genes| == 0 ==> r == Zeros(|ad.x|)
  {
    if |genes| == 0 then Zeros(|ad.x|)
    else
      seq(|ad.x|, i requires 0 <= i < |ad.x| =>
        var c := StoredCount(ad, genes, i);
        if c == 0 then 0.0 else Quotient(Sum(Selected(ad, genes, i)), c as real))
  }

  /** A cell storing none of the genes gets 0, which is also its sum. */
  lemma {:induction false} NnzMeanNoneStored(ad: AnnData, genes: seq<string>, i: nat)
    requires Valid(ad) && InVars(genes, ad.varNames) && i < |ad.x|
    requires StoredCount(ad, genes, i) == 0
    ensures NnzMeanPerCell(ad, genes)[i] == 0.0
    ensures Sum(Selected(ad, genes, i)) == 0.0
  {
    SumOfZeros(Selected(ad, genes, i));
  }

  /** A cell storing every selected entry gets the plain mean. */
  lemma {:induction false} NnzMeanAllStored(ad: AnnData, genes: seq<string>, i: nat)
    requires Valid(ad) && InVars(genes, ad.varNames) && i < |ad.x|
    requires forall k :: 0 <= k < |genes| ==> SelectedStored(ad, genes, i)[k]
    ensures NnzMeanPerCell(ad, genes)[i] == MeanPerCell(ad, genes)[i]
  {
  }

  /** `Quotient(S, c) >= Quotient(S, n)` for `S >= 0` and `0 < c <= n`. */
  lemma {:induction false} FewerIsLarger(S: real, c: real, n: real)
    requires S >= 0.0 && 0.0 < c <= n
    ensures Quotient(S, c) >= Quotient(S, n)
  {
    var p := Quotient(S, c);
    var q := Quotient(S, n);
    assert S == p * c && S == q * n;
    FractionBound(S, n);
    ProductNonNegative(q, n - c);
    assert (p - q) * c >= 0.0;
    FactorSign(p - q, c);
  }

  /** A product with a positive factor has the sign of the other factor. */
  lemma {:induction false} FactorSign(x: real, c: real)
    requires c > 0.0 && x * c >= 0.0
    ensures x >= 0.0
  {
  }

  /** For non-negative expression, the non-zero mean is at least the mean. */
  lemma {:induction false} NnzMeanAtLeastMean(ad: AnnData, genes: seq<string>, i: nat)
    requires Valid(ad) && InVars(genes, ad.varNames) && i < |ad.x| && NonNegative(ad.x)
    ensures NnzMeanPerCell(ad, genes)[i] >= MeanPerCell(ad, genes)[i]
  {
    if |genes| > 0 {
      var v := Selected(ad, genes, i);
      assert NonNegativeVec(v);
      SumNonNegative(v);
      var c := StoredCount(ad, genes, i);
      if c == 0 {
        NnzMeanNoneStored(ad, genes, i);
        assert Mean(v) == Quotient(0.0, |v| as real);
      } else {
        FewerIsLarger(Sum(v), c as real, |v| as real);
      }
    }
  }

  /** `max_per_cell(adata, genes)`: the largest selected value of each cell. */
  function MaxPerCell(ad: AnnData, genes: seq<string>): (r: seq<real>)
    requires Valid(ad) && InVars(genes, ad.varNames)
    ensures |r| == |ad.x|
    ensures |genes| == 0 ==> r == Zeros(|ad.x|)
  {
    if |genes| == 0 then Zeros(|ad.x|)
    else seq(|ad.x|, i requires 0 <= i < |ad.x| => MaxOf(Selected(ad, genes, i)))
  }

  /** Each cell's maximum is one of its values, bounds them all, and is at least its mean. */
  lemma {:induction false} MaxPerCellBounds(ad: AnnData, genes: seq<string>, i: nat)
    requires Valid(ad) && InVars(genes, ad.varNames) && i < |ad.x| && |genes| > 0
    ensures MaxPerCell(ad, genes)[i] in Selected(ad, genes, i)
    ensures forall k :: 0 <= k < |genes| ==> Selected(ad, genes, i)[k] <= MaxPerCell(ad, genes)[i]
    ensures MaxPerCell(ad, genes)[i] >= MeanPerCell(ad, genes)[i]
  {
    MeanBetween(Selected(ad, genes, i));
  }

  /** The estimators `est_fun` can name. */
  datatype Estimator = MeanEst | NnzMeanEst | GMeanEst | HMeanEst | MaxEst

  /** The keys of `est_fun_dict`, in order. */
  const EstFunKeys: seq<string> := ["mean_per_cell", "nnzmean_per_cell", "gmean_per_cell", "hmean_per_cell", "max_per_cell"]

  const EstFunError: string :=
    "est_fun must be one of dict_keys(['mean_per_cell', 'nnzmean_per_cell', 'gmean_per_cell', 'hmean_per_cell', 'max_per_cell'])"

  function EstFunKey(e: Estimator): string {
    match e
    case MeanEst => "mean_per_cell"
    case NnzMeanEst => "nnzmean_per_cell"
    case GMeanEst => "gmean_per_cell"
    case HMeanEst => "hmean_per_cell"
    case MaxEst => "max_per_cell"
  }

  /** The `est_fun_dict` lookup, raising for a name outside its keys. */
  function ParseEstimator(name: string): (r: Result<Estimator>)
    ensures r.Err? <==> name !in EstFunKeys
    ensures r.Err? ==> r.error == ValueError(EstFunError)
    ensures r.Ok? ==> EstFunKey(r.value) == name
  {
    if name == "mean_per_cell" then Ok(MeanEst)
    else if name == "nnzmean_per_cell" then Ok(NnzMeanEst)
    else if name == "gmean_per_cell" then Ok(GMeanEst)
    else if name == "hmean_per_cell" then Ok(HMeanEst)
    else if name == "max_per_cell" then Ok(MaxEst)
    else Err(ValueError(EstFunError))
  }

  /** Each estimator is found under its own key. */
  lemma {:induction false} ParseEstFunKey(e: Estimator)
    ensures ParseEstimator(EstFunKey(e)) == Ok(e)
  {
  }

  /** `adata[:, genes].X`, one row per cell. */
  function SelectedMatrix(ad: AnnData, genes: seq<string>): Matrix
    requires Valid(ad) && InVars(genes, ad.varNames)
  {
    seq(|ad.x|, i requires 0 <= i < |ad.x| => Selected(ad, genes, i))
  }

  /** The geometric and harmonic means are not modelled: `foreign` stands
      for them and is taken to give one value per cell. */
  ghost predicate FitsCells(foreign: (Estimator, Matrix) -> seq<real>, n: nat) {
    forall e, m :: |foreign(e, m)| == n
  }

  /** The chosen estimator applied to a gene set. */
  function Estimate(e: Estimator, ad: AnnData, genes: seq<string>, foreign: (Estimator, Matrix) -> seq<real>): (r: seq<real>)
    requires Valid(ad) && InVars(genes, ad.varNames) && FitsCells(foreign, |ad.x|)
    ensures |r| == |ad.x|
    ensures |genes| == 0 ==> r == Zeros(|ad.x|)
  {
    match e
    case MeanEst => MeanPerCell(ad, genes)
    case NnzMeanEst => NnzMeanPerCell(ad, genes)
    case MaxEst => MaxPerCell(ad, genes)
    case _ => if |genes| == 0 then Zeros(|ad.x|) else foreign(e, SelectedMatrix(ad, genes))
  }

  /** The mean, non-zero mean and maximum of non-negative expression are non-negative. */
  lemma {:induction false} EstimateNonNegative(e: Estimator, ad: AnnData, genes: seq<string>,
                                               foreign: (Estimator, Matrix) -> seq<real>, i: nat)
    requires Valid(ad) && InVars(genes, ad.varNames) && FitsCells(foreign, |ad.x|) && i < |ad.x|
    requires NonNegative(ad.x) && e in {MeanEst, NnzMeanEst, MaxEst}
    ensures Estimate(e, ad, genes, foreign)[i] >= 0.0
  {
    if |genes| > 0 {
      var v := Selected(ad, genes, i);
      assert NonNegativeVec(v);
      MeanBetween(v);
      NnzMeanAtLeastMean(ad, genes, i);
    }
  }

  /** One row of the metabolite-gene associations. */
  datatype Association = Association(hmdb: string, direction: string, gene: string)

  /** `get_genesets(x, df, vars, direction)`: the genes of the rows for
      metabolite `x` and `direction`, in row order, keeping those in `vars`. */
  function GetGenesets(x: string, df: seq<Association>, vars: seq<string>, direction: string): (r: seq<string>)
    ensures |r| <= |df|
    ensures InVars(r, vars)
  {
    if |df| == 0 then []
    else
      var rest := GetGenesets(x, df[1..], vars, direction);
      if df[0].hmdb == x && df[0].direction == direction && df[0].gene in vars then [df[0].gene] + rest else rest
  }

  /** A gene is in the set exactly when it is in `vars` and some row links
      it to the metabolite in that direction. */
  lemma {:induction false} GenesetMembership(x: string, df: seq<Association>, vars: seq<string>, direction: string, g: string)
    ensures g in GetGenesets(x, df, vars, direction)
        <==> g in vars && exists k :: 0 <= k < |df| && df[k] == Association(x, direction, g)
  {
    if |df| > 0 {
      GenesetMembership(x, df[1..], vars, direction, g);
      if exists k :: 0 <= k < |df[1..]| && df[1..][k] == Association(x, direction, g) {
        var k :| 0 <= k < |df[1..]| && df[1..][k] == Association(x, direction, g);
        assert df[k + 1] == Association(x, direction, g);
      }
      if exists k :: 0 <= k < |df| && df[k] == Association(x, direction, g) {
        var k :| 0 <= k < |df| && df[k] == Association(x, direction, g);
        if k > 0 {
          assert df[1..][k - 1] == Association(x, direction, g);
        }
      }
    }
  }

  /** `a` is `b` with some entries removed, order kept. */
  predicate IsSubsequence(a: seq<string>, b: seq<string>)
    decreases |b|
  {
    if |a| == 0 then true
    else if |b| == 0 then false
    else (a[0] == b[0] && IsSubsequence(a[1..], b[1..])) || IsSubsequence(a, b[1..])
  }

  /** The `GENE` column of the associations. */
  function GeneColumn(df: seq<Association>): (r: seq<string>)
    ensures |r| == |df| && forall k :: 0 <= k < |df| ==> r[k] == df[k].gene
  {
    seq(|df|, k requires 0 <= k < |df| => df[k].gene)
  }

  /** The gene set keeps the order of the association rows. */
  lemma {:induction false} GenesetOrder(x: string, df: seq<Association>, vars: seq<string>, direction: string)
    ensures IsSubsequence(GetGenesets(x, df, vars, direction), GeneColumn(df))
  {
    if |df| > 0 {
      GenesetOrder(x, df[1..], vars, direction);
      assert GeneColumn(df)[1..] == GeneColumn(df[1..]);
      var r := GetGenesets(x, df, vars, direction);
      if df[0].hmdb == x && df[0].direction == direction && df[0].gene in vars {
        assert r[1..] == GetGenesets(x, df[1..], vars, direction);
      }
    }
  }

  /** The `HMDB` column of the associations. */
  function HmdbColumn(df: seq<Association>): (r: seq<string>)
    ensures |r| == |df| && forall k :: 0 <= k < |df| ==> r[k] == df[k].hmdb
  {
    seq(|df|, k requires 0 <= k < |df| => df[k].hmdb)
  }

  /** `Series.unique()`: the distinct values, in order of first appearance. */
  function Unique(s: seq<string>): (r: seq<string>)
    ensures forall v :: v in r <==> v in s
    ensures forall i, j :: 0 <= i < j < |r| ==> r[i] != r[j]
  {
    if |s| == 0 then []
    else
      var u := Unique(s[..|s| - 1]);
      assert forall v :: v in s <==> v in s[..|s| - 1] || v == s[|s| - 1];
      if s[|s| - 1] in u then u else u + [s[|s| - 1]]
  }

  /** The first occurrence of a value of a prefix is the same in the whole sequence. */
  lemma {:induction false} IndexOfPrefix(p: seq<string>, s: seq<string>, v: string)
    requires v in p && p <= s
    ensures IndexOf(s, v) == IndexOf(p, v)
  {
    var k := IndexOf(p, v);
    var l := IndexOf(s, v);
    assert s[k] == v;
    if l < k {
      assert false;
    }
  }

  /** The distinct values come in the order of their first appearance. */
  lemma {:induction false} UniqueFirstAppearance(s: seq<string>)
    ensures forall i, j :: 0 <= i < j < |Unique(s)| ==> IndexOf(s, Unique(s)[i]) < IndexOf(s, Unique(s)[j])
  {
    if |s| > 0 {
      var p := s[..|s| - 1];
      var last := s[|s| - 1];
      var u := Unique(p);
      UniqueFirstAppearance(p);
      forall v | v in u ensures IndexOf(s, v) == IndexOf(p, v) && IndexOf(p, v) < |p| {
        IndexOfPrefix(p, s, v);
      }
      if last !in u {
        assert last !in p;
        assert IndexOf(s, last) == |p|;
      }
    }
  }

  /** `get_est(prod, deg)`: production minus degradation, entry by entry. */
  function GetEst(prod: Matrix, deg: Matrix, rows: nat, cols: nat): (r: Matrix)
    requires IsMatrix(prod, rows, cols) && IsMatrix(deg, rows, cols)
    ensures IsMatrix(r, rows, cols)
    ensures forall k, c :: 0 <= k < rows && 0 <= c < cols ==> r[k][c] + deg[k][c] == prod[k][c]
  {
    seq(rows, k requires 0 <= k < rows => seq(cols, c requires 0 <= c < cols => prod[k][c] - deg[k][c]))
  }

  /** `.clip(0, None)`: negative entries become 0, the others are kept. */
  function ClipNonNegative(m: Matrix, rows: nat, cols: nat): (r: Matrix)
    requires IsMatrix(m, rows, cols)
    ensures IsMatrix(r, rows, cols) && NonNegative(r)
    ensures forall k, c :: 0 <= k < rows && 0 <= c < cols ==> (m[k][c] >= 0.0 ==> r[k][c] == m[k][c])
    ensures forall k, c :: 0 <= k < rows && 0 <= c < cols ==> (m[k][c] < 0.0 ==> r[k][c] == 0.0)
  {
    seq(rows, k requires 0 <= k < rows => seq(cols, c requires 0 <= c < cols => Max(m[k][c], 0.0)))
  }

  /** The metabolite estimates: one row per metabolite, one column per cell. */
  datatype Estimates = Estimates(metabolites: seq<string>, values: Matrix)

  /** The producing (or degrading) estimate of every metabolite. */
  function DirectionEstimates(e: Estimator, meRes: seq<Association>, ad: AnnData, mets: seq<string>,
                              direction: string, foreign: (Estimator, Matrix) -> seq<real>): (r: Matrix)
    requires Valid(ad) && FitsCells(foreign, |ad.x|)
    ensures IsMatrix(r, |mets|, |ad.x|)
  {
    seq(|mets|, k requires 0 <= k < |mets| => Estimate(e, ad, GetGenesets(mets[k], meRes, ad.varNames, direction), foreign))
  }

  /** The decimal digits of `n`. */
  function DecimalString(n: nat): (r: string)
    ensures |r| > 0 && forall k :: 0 <= k < |r| ==> '0' <= r[k] <= '9'
  {
    if n < 10 then ["0123456789"[n]] else DecimalString(n / 10) + ["0123456789"[n % 10]]
  }

  /** The error `DataFrame` raises when given the estimates of no
      metabolite: the empty array is read as one column, which the `cells`
      column labels do not fit. */
  function ShapeError(cells: nat): string {
    "Shape of passed values is (0, 1), indices imply (0, " + DecimalString(cells) + ")"
  }

  /** `_metalinks_estimation(me_res, adata, verbose, est_fun)`: the
      estimator name is checked first; then each metabolite gets its
      producing estimate minus its degrading estimate, clipped at 0, and
      the result is framed with one column per cell. */
  function MetalinksEstimation(meRes: seq<Association>, ad: AnnData, estFun: string,
                               foreign: (Estimator, Matrix) -> seq<real>): (r: Result<Estimates>)
    requires Valid(ad) && FitsCells(foreign, |ad.x|)
    ensures r.Err? <==> estFun !in EstFunKeys || (|meRes| == 0 && |ad.x| != 1)
    ensures estFun !in EstFunKeys ==> r == Err(ValueError(EstFunError))
    ensures estFun in EstFunKeys && r.Err? ==> r.error == ValueError(ShapeError(|ad.x|))
    ensures r.Ok? ==> r.value.metabolites == Unique(HmdbColumn(meRes))
    ensures r.Ok? ==> IsMatrix(r.value.values, |r.value.metabolites|, |ad.x|) && NonNegative(r.value.values)
  {
    match ParseEstimator(estFun)
    case Err(err) => Err(err)
    case Ok(e) =>
      var mets := Unique(HmdbColumn(meRes));
      if |meRes| == 0 && |ad.x| != 1 then
        Err(ValueError(ShapeError(|ad.x|)))
      else
        var prod := DirectionEstimates(e, meRes, ad, mets, "producing", foreign);
        var deg := DirectionEstimates(e, meRes, ad, mets, "degrading", foreign);
        Ok(Estimates(mets, ClipNonNegative(GetEst(prod, deg, |mets|, |ad.x|), |mets|, |ad.x|)))
  }

  /** An estimate is positive exactly when production exceeds degradation,
      and then it is their difference. */
  lemma {:induction false} EstimatePositive(meRes: seq<Association>, ad: AnnData, e: Estimator,
                                            foreign: (Estimator, Matrix) -> seq<real>, k: nat, c: nat)
    requires Valid(ad) && FitsCells(foreign, |ad.x|)
    requires k < |Unique(HmdbColumn(meRes))| && c < |ad.x|
    ensures var mets := Unique(HmdbColumn(meRes));
            var p := DirectionEstimates(e, meRes, ad, mets, "producing", foreign)[k][c];
            var d := DirectionEstimates(e, meRes, ad, mets, "degrading", foreign)[k][c];
            var v := MetalinksEstimation(meRes, ad, EstFunKey(e), foreign).value.values[k][c];
            (v > 0.0 <==> p > d) && (p > d ==> v == p - d)
  {
    ParseEstFunKey(e);
  }

  /** A metabolite no present gene degrades keeps its production estimate
      (for the mean, non-zero mean and maximum of non-negative expression),
      and one with no present gene at all is estimated 0. */
  lemma {:induction false} EstimateWithoutDegradation(meRes: seq<Association>, ad: AnnData, e: Estimator,
                                                      foreign: (Estimator, Matrix) -> seq<real>, k: nat, c: nat)
    requires Valid(ad) && FitsCells(foreign, |ad.x|) && NonNegative(ad.x) && e in {MeanEst, NnzMeanEst, MaxEst}
    requires k < |Unique(HmdbColumn(meRes))| && c < |ad.x|
    requires |GetGenesets(Unique(HmdbColumn(meRes))[k], meRes, ad.varNames, "degrading")| == 0
    ensures var mets := Unique(HmdbColumn(meRes));
            MetalinksEstimation(meRes, ad, EstFunKey(e), foreign).value.values[k][c]
            == Estimate(e, ad, GetGenesets(mets[k], meRes, ad.varNames, "producing"), foreign)[c]
  {
    var mets := Unique(HmdbColumn(meRes));
    ParseEstFunKey(e);
    EstimateNonNegative(e, ad, GetGenesets(mets[k], meRes, ad.varNames, "producing"), foreign, c);
  }
}
