/** `_handle_functions` (`liana/method/sp/_spatial_utils.py`): the
    case-insensitive choice of a local score function by name. The names it
    returns are aliases that `liana/method/sp/_bivariate_funs.py` does not
    define; here each alias is an enumerated score function, mapped to the
    function of that file it stands for and the argument it needs. */
module Dispatch {
  import opened Wrappers
  import opened Numerics
  import Vectorized
  import MaskedCoex

  /** ASCII lower-casing of one character. */
  function LowerChar(c: char): (r: char)
    ensures !('A' <= r <= 'Z')
    ensures !('A' <= c <= 'Z') ==> r == c
  {
    if 'A' <= c <= 'Z' then (c as int + 32) as char else c
  }

  /** `str.lower()` on ASCII letters. */
  function Lower(s: string): (r: string)
    ensures |r| == |s|
    ensures forall k :: 0 <= k < |r| ==> !('A' <= r[k] <= 'Z')
  {
    seq(|s|, k requires 0 <= k < |s| => LowerChar(s[k]))
  }

  /** Lower-casing a lower-case string changes nothing. */
  lemma {:induction false} LowerIdempotent(s: string)
    ensures Lower(Lower(s)) == Lower(s)
  {
    var l := Lower(s);
    forall k | 0 <= k < |l| ensures Lower(l)[k] == l[k] {
      assert !('A' <= l[k] <= 'Z');
    }
  }

  /** The local score functions a name can select. */
  datatype ScoreFunction =
    | VectorizedPearson
    | VectorizedSpearman
    | MaskedPearson
    | MaskedSpearman
    | VectorizedCosine
    | VectorizedJaccard

  /** The lower-case name that selects each score function. */
  function Name(f: ScoreFunction): string {
    match f
    case VectorizedPearson => "pearson"
    case VectorizedSpearman => "spearman"
    case MaskedPearson => "masked_pearson"
    case MaskedSpearman => "masked_spearman"
    case VectorizedCosine => "cosine"
    case VectorizedJaccard => "jaccard"
  }

  const Names: set<string> := {"pearson", "spearman", "masked_pearson", "masked_spearman", "cosine", "jaccard"}

  /** `_handle_functions(function_name)`: a score function for one of the
      six names, an error for "morans", and nothing for any other name. */
  function HandleFunctions(name: string): (r: Result<Option<ScoreFunction>>)
    ensures r.Err? <==> Lower(name) == "morans"
    ensures r.Err? ==> r.error == ValueError("Function not implemented")
    ensures r.Ok? && r.value.Some? <==> Lower(name) in Names
    ensures r.Ok? && r.value.Some? ==> Name(r.value.value) == Lower(name)
  {
    var n := Lower(name);
    if n == "pearson" then Ok(Some(VectorizedPearson))
    else if n == "spearman" then Ok(Some(VectorizedSpearman))
    else if n == "masked_pearson" then Ok(Some(MaskedPearson))
    else if n == "masked_spearman" then Ok(Some(MaskedSpearman))
    else if n == "cosine" then Ok(Some(VectorizedCosine))
    else if n == "jaccard" then Ok(Some(VectorizedJaccard))
    else if n == "morans" then Err(ValueError("Function not implemented"))
    else Ok(None)
  }

  /** The choice depends only on the lower-cased name. */
  lemma {:induction false} HandleCaseInsensitive(name: string)
    ensures HandleFunctions(name) == HandleFunctions(Lower(name))
  {
    LowerIdempotent(name);
  }

  /** Every score function is selected by its own name. */
  lemma {:induction false} HandleName(f: ScoreFunction)
    ensures HandleFunctions(Name(f)) == Ok(Some(f))
  {
    var n := Name(f);
    assert Lower(n) == n by {
      forall k | 0 <= k < |n| ensures Lower(n)[k] == n[k] {
        assert !('A' <= n[k] <= 'Z');
      }
    }
  }

  /** The bivariate function each score function stands for, with its argument. */
  datatype Target =
    | Correlations(corrMethod: string)
    | Masked(mode: int)
    | WCosine
    | WJaccard

  function TargetOf(f: ScoreFunction): Target {
    match f
    case VectorizedPearson => Correlations("pearson")
    case VectorizedSpearman => Correlations("spearman")
    case MaskedPearson => Masked(0)
    case MaskedSpearman => Masked(1)
    case VectorizedCosine => WCosine
    case VectorizedJaccard => WJaccard
  }

  /** Every dispatched call is well formed: the correlation targets carry a
      method `_vectorized_correlations` accepts, and the masked targets a
      mode `_wcoex` accepts, so neither raises. */
  lemma {:induction false} TargetsAccepted(f: ScoreFunction, xMat: Matrix, yMat: Matrix, dist: Matrix,
                                           spotN: nat, xyN: nat, sqrt: real -> real)
    requires IsMatrix(xMat, spotN, xyN) && IsMatrix(yMat, spotN, xyN) && IsMatrix(dist, spotN, spotN)
    requires IsSqrt(sqrt)
    ensures TargetOf(f).Correlations? ==>
              Vectorized.VectorizedCorrelations(xMat, yMat, dist, spotN, xyN, TargetOf(f).corrMethod, sqrt).Ok?
    ensures TargetOf(f).Masked? ==> forall x: seq<real>, y: seq<real>, w: seq<real>, thr: real ::
              |x| == |y| == |w| && NonNegativeVec(w) ==> MaskedCoex.MaskedCell(x, y, w, thr, TargetOf(f).mode, sqrt).Ok?
  {
  }
}
