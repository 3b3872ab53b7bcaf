/** The ligand-receptor mean of CellPhoneDB (`liana/method/sc/_cellphonedb.py`). */
module CellPhoneDB {
  import opened Numerics

  /** The mean of a ligand and a receptor expression, 0 when either is 0. */
  function LrMean(ligand: real, receptor: real): real {
    if ligand == 0.0 || receptor == 0.0 then 0.0 else (ligand + receptor) / 2.0
  }

  /** `_cpdb_score(x, perm_stats)`: the element-wise mean of the ligand and
      receptor means, set to 0 in place wherever either is 0, and the
      p-values that `calculatePvals` (standing for `_calculate_pvals`)
      computes from it. */
  method CpdbScore<P>(ligandMeans: seq<real>, receptorMeans: seq<real>, permStats: P,
                      calculatePvals: (seq<real>, P) -> seq<real>)
    returns (lrMeans: array<real>, pvals: seq<real>)
    requires |ligandMeans| == |receptorMeans|
    ensures fresh(lrMeans) && lrMeans.Length == |ligandMeans|
    ensures forall k :: 0 <= k < |ligandMeans| ==> lrMeans[k] == LrMean(ligandMeans[k], receptorMeans[k])
    ensures pvals == calculatePvals(lrMeans[..], permStats)
  {
    var n := |ligandMeans|;
    var zeroMask := seq(n, k requires 0 <= k < n => ligandMeans[k] == 0.0 || receptorMeans[k] == 0.0);
    lrMeans := new real[n](k requires 0 <= k < n => (ligandMeans[k] + receptorMeans[k]) / 2.0);
    var k := 0;
    while k < n
      invariant 0 <= k <= n
      invariant forall i :: 0 <= i < k ==> lrMeans[i] == LrMean(ligandMeans[i], receptorMeans[i])
      invariant forall i :: k <= i < n ==> lrMeans[i] == (ligandMeans[i] + receptorMeans[i]) / 2.0
    {
      if zeroMask[k] {
        lrMeans[k] := 0.0;
      }
      k := k + 1;
    }
    pvals := calculatePvals(lrMeans[..], permStats);
  }

  /** For non-negative means, the LR mean is 0 exactly when either side is
      0; otherwise it lies between the smaller and the larger side. */
  lemma {:induction false} LrMeanBounds(ligand: real, receptor: real)
    requires ligand >= 0.0 && receptor >= 0.0
    ensures 0.0 <= LrMean(ligand, receptor) <= Max(ligand, receptor)
    ensures LrMean(ligand, receptor) == 0.0 <==> ligand == 0.0 || receptor == 0.0
    ensures ligand != 0.0 && receptor != 0.0 ==> Min(ligand, receptor) <= LrMean(ligand, receptor)
  {
  }

  /** The LR mean does not depend on which side is the ligand. */
  lemma {:induction false} LrMeanSymmetric(ligand: real, receptor: real)
    ensures LrMean(ligand, receptor) == LrMean(receptor, ligand)
  {
  }
}
