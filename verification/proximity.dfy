/** `get_spatial_proximity` (`liana/method/sp/_spatial_utils.py`): spatial
    proximity weights from a distance matrix. The Euclidean distances
    between spot coordinates are an input here (`dist`), and so is the
    nearest-neighbour mask (`knn`); the Gaussian and exponential kernels,
    built on `exp`, are the parameters `gauss` and `expo`. */
module Proximity {
  import opened Wrappers
  import opened Numerics

  /** The accepted kernel families, in the order the error message lists them. */
  const Families: seq<string> := ["gaussian", "spatialdm", "exponential", "linear"]

  function FamilyError(family: string): string {
    family + " must be a member of ['gaussian', 'spatialdm', 'exponential', 'linear']"
  }

  const MissingCutoff: string := "`cutoff` or `n_neighbors` must be provided!"

  /** The linear kernel `1 - d / parameter`, with negative values set to 0. */
  function LinearKernel(d: real, p: real): real
    requires p != 0.0
  {
    var v := 1.0 - Quotient(d, p);
    if v < 0.0 then 0.0 else v
  }

  /** The kernel each family applies to one distance. No branch handles
      "spatialdm", so its weights are the raw distances. */
  function Kernel(family: string, d: real, p: real, gauss: real -> real, expo: real -> real): real
    requires family == "linear" ==> p != 0.0
  {
    if family == "gaussian" then gauss(d)
    else if family == "exponential" then expo(d)
    else if family == "linear" then LinearKernel(d, p)
    else d
  }

  /** `np.fill_diagonal(proximity, 0)` when `bypass_diagonal`. */
  function Diagonal(v: real, i: nat, j: nat, bypass: bool): real {
    if bypass && i == j then 0.0 else v
  }

  /** `proximity[proximity < cutoff] = 0` when a cutoff is given. */
  function Cut(v: real, cutoff: Option<real>): real {
    if cutoff.Some? && v < cutoff.value then 0.0 else v
  }

  /** `proximity * knn` when `n_neighbors` is given. */
  function KnnMask(v: real, nNeighbors: Option<nat>, m: real): real {
    if nNeighbors.Some? then v * m else v
  }

  /** Entry `(i, j)` of the proximity matrix: kernel, diagonal, cutoff and
      neighbour mask, in the order the source applies them. */
  function ProximityEntry(dist: Matrix, i: nat, j: nat, p: real, family: string, cutoff: Option<real>,
                          nNeighbors: Option<nat>, bypass: bool, knn: Matrix,
                          gauss: real -> real, expo: real -> real): real
    requires family == "linear" ==> p != 0.0
  {
    KnnMask(Cut(Diagonal(Kernel(family, Entry(dist, i, j), p, gauss, expo), i, j, bypass), cutoff),
            nNeighbors, Entry(knn, i, j))
  }

  /** The kernel stage, applied in place. */
  method ApplyKernel(prox: array2<real>, p: real, family: string, gauss: real -> real, expo: real -> real)
    requires family == "linear" ==> p != 0.0
    modifies prox
    ensures forall i, j :: 0 <= i < prox.Length0 && 0 <= j < prox.Length1 ==>
              prox[i, j] == Kernel(family, old(prox[i, j]), p, gauss, expo)
  {
    if family == "gaussian" {
      MapEntries(prox, (i, j, v) => gauss(v));
    } else if family == "exponential" {
      MapEntries(prox, (i, j, v) => expo(v));
    } else if family == "linear" {
      MapEntries(prox, (i, j, v) => 1.0 - Quotient(v, p));
      MapEntries(prox, (i, j, v) => if v < 0.0 then 0.0 else v);
    }
  }

  /** The diagonal stage, applied in place. */
  method ApplyDiagonal(prox: array2<real>, bypass: bool)
    modifies prox
    ensures forall i, j :: 0 <= i < prox.Length0 && 0 <= j < prox.Length1 ==>
              prox[i, j] == Diagonal(old(prox[i, j]), i, j, bypass)
  {
    if bypass {
      MapEntries(prox, (i, j, v) => if i == j then 0.0 else v);
    }
  }

  /** The cutoff stage, applied in place. */
  method ApplyCutoff(prox: array2<real>, cutoff: Option<real>)
    modifies prox
    ensures forall i, j :: 0 <= i < prox.Length0 && 0 <= j < prox.Length1 ==>
              prox[i, j] == Cut(old(prox[i, j]), cutoff)
  {
    if cutoff.Some? {
      var c := cutoff.value;
      MapEntries(prox, (i, j, v) => if v < c then 0.0 else v);
    }
  }

  /** The neighbour-mask stage, applied in place. */
  method ApplyKnn(prox: array2<real>, nNeighbors: Option<nat>, knn: Matrix)
    modifies prox
    ensures forall i, j :: 0 <= i < prox.Length0 && 0 <= j < prox.Length1 ==>
              prox[i, j] == KnnMask(old(prox[i, j]), nNeighbors, Entry(knn, i, j))
  {
    if nNeighbors.Some? {
      MapEntries(prox, (i, j, v) => v * Entry(knn, i, j));
    }
  }

  /** `get_spatial_proximity(adata, parameter, family, cutoff, n_neighbors,
      bypass_diagonal)` on the distance matrix `dist` of `n` spots. The
      family is checked before the cutoff and neighbour arguments. */
  method GetSpatialProximity(dist: Matrix, n: nat, p: real, family: string, cutoff: Option<real>,
                             nNeighbors: Option<nat>, bypass: bool, knn: Matrix,
                             gauss: real -> real, expo: real -> real)
    returns (r: Result<array2<real>>)
    requires IsMatrix(dist, n, n) && IsMatrix(knn, n, n)
    requires family == "linear" && (cutoff.Some? || nNeighbors.Some?) ==> p != 0.0
    ensures r.Err? <==> family !in Families || (cutoff.None? && nNeighbors.None?)
    ensures family !in Families ==> r == Err(AssertionError(FamilyError(family)))
    ensures family in Families && cutoff.None? && nNeighbors.None? ==> r == Err(ValueError(MissingCutoff))
    ensures r.Ok? ==> fresh(r.value) && r.value.Length0 == n && r.value.Length1 == n
    ensures r.Ok? ==> forall i, j :: 0 <= i < n && 0 <= j < n ==>
              r.value[i, j] == ProximityEntry(dist, i, j, p, family, cutoff, nNeighbors, bypass, knn, gauss, expo)
  {
    if family !in Families {
      return Err(AssertionError(FamilyError(family)));
    }
    if cutoff.None? && nNeighbors.None? {
      return Err(ValueError(MissingCutoff));
    }
    var prox := new real[n, n]((i, j) => Entry(dist, i, j));
    ApplyKernel(prox, p, family, gauss, expo);
    ApplyDiagonal(prox, bypass);
    ApplyCutoff(prox, cutoff);
    ApplyKnn(prox, nNeighbors, knn);
    return Ok(prox);
  }

  /** For distances `d >= 0` and a positive parameter the linear kernel lies
      in `[0, 1]`: 1 at distance 0, 0 from distance `parameter` on. */
  lemma {:induction false} LinearKernelRange(d: real, p: real)
    requires d >= 0.0 && p > 0.0
    ensures 0.0 <= LinearKernel(d, p) <= 1.0
    ensures d == 0.0 ==> LinearKernel(d, p) == 1.0
    ensures d >= p ==> LinearKernel(d, p) == 0.0
    ensures d < p ==> LinearKernel(d, p) > 0.0
  {
    FractionBound(d, p);
    var q := Quotient(d, p);
    assert d == q * p;
    if d >= p && q < 1.0 {
      assert false;
    }
  }

  /** With `bypass_diagonal` every diagonal entry is 0. */
  lemma {:induction false} ProximityDiagonal(dist: Matrix, i: nat, p: real, family: string, cutoff: Option<real>,
                                             nNeighbors: Option<nat>, knn: Matrix,
                                             gauss: real -> real, expo: real -> real)
    requires family == "linear" ==> p != 0.0
    ensures ProximityEntry(dist, i, i, p, family, cutoff, nNeighbors, true, knn, gauss, expo) == 0.0
  {
  }

  /** The cutoff zeros exactly the entries below it: without a neighbour
      mask, a kept entry is at least the cutoff and equals the weight
      before the cutoff, and an entry below the cutoff becomes 0. */
  lemma {:induction false} ProximityCutoff(dist: Matrix, i: nat, j: nat, p: real, family: string, c: real,
                                           bypass: bool, knn: Matrix, gauss: real -> real, expo: real -> real)
    requires family == "linear" ==> p != 0.0
    ensures var before := Diagonal(Kernel(family, Entry(dist, i, j), p, gauss, expo), i, j, bypass);
            var after := ProximityEntry(dist, i, j, p, family, Some(c), None, bypass, knn, gauss, expo);
            (before < c ==> after == 0.0) && (before >= c ==> after == before)
  {
  }

  /** A symmetric distance matrix gives a symmetric proximity matrix,
      provided the neighbour mask, when used, is symmetric too. */
  lemma {:induction false} ProximitySymmetric(dist: Matrix, n: nat, i: nat, j: nat, p: real, family: string,
                                              cutoff: Option<real>, nNeighbors: Option<nat>, bypass: bool,
                                              knn: Matrix, gauss: real -> real, expo: real -> real)
    requires IsMatrix(dist, n, n) && IsMatrix(knn, n, n) && i < n && j < n
    requires family == "linear" ==> p != 0.0
    requires Symmetric(dist) && (nNeighbors.Some? ==> Symmetric(knn))
    ensures ProximityEntry(dist, i, j, p, family, cutoff, nNeighbors, bypass, knn, gauss, expo)
         == ProximityEntry(dist, j, i, p, family, cutoff, nNeighbors, bypass, knn, gauss, expo)
  {
    assert Entry(dist, i, j) == Entry(dist, j, i);
    if nNeighbors.Some? {
      assert Entry(knn, i, j) == Entry(knn, j, i);
    }
  }

  /** Linear weights of non-negative distances, masked by a 0/1 neighbour
      mask, lie in `[0, 1]`. */
  lemma {:induction false} LinearProximityRange(dist: Matrix, i: nat, j: nat, p: real, cutoff: Option<real>,
                                                nNeighbors: Option<nat>, bypass: bool, knn: Matrix,
                                                gauss: real -> real, expo: real -> real)
    requires p > 0.0 && Entry(dist, i, j) >= 0.0
    requires Entry(knn, i, j) == 0.0 || Entry(knn, i, j) == 1.0
    ensures 0.0 <= ProximityEntry(dist, i, j, p, "linear", cutoff, nNeighbors, bypass, knn, gauss, expo) <= 1.0
  {
    LinearKernelRange(Entry(dist, i, j), p);
  }

  /** The "spatialdm" family passes validation but matches no kernel
      branch: past the cutoff, its weights are the distances themselves. */
  lemma {:induction false} SpatialDmKeepsDistances(dist: Matrix, i: nat, j: nat, p: real, c: real, knn: Matrix,
                                                   gauss: real -> real, expo: real -> real)
    requires Entry(dist, i, j) >= c
    ensures ProximityEntry(dist, i, j, p, "spatialdm", Some(c), None, false, knn, gauss, expo) == Entry(dist, i, j)
  {
  }
}
