/**
 * Piecewise PCA (pertnet/data/preprocess_pertdata3.py): the masked load,
 * the component-count rule of fit_pca, the merge of the three phase fits
 * into one basis, and the projection of a dataset onto that basis.
 * The PCA fit and the normalize + SVD step are library calls; they enter
 * as functions given to the model.
 */
module PcaFit {
  import opened Results
  import opened Indexing
  import opened DataModel
  import opened PhaseSegmentation

  datatype FitError =
    | Unfittable(nComponents: int)  // sklearn's arpack solver needs 1 <= k < min(n_samples, n_features)
    | NotFinite                     // sklearn refuses input holding NaN
    | NoMergedRank                  // np.where(energies > 0.999)[0][0] found nothing
    | ShapeMismatch                 // numpy cannot combine arrays of these widths
    | EmptyInput                    // check_array refuses an array with no samples or no features

  datatype LoadError = MaskLength   // a boolean index whose length is not the array's

  /** loadX (lines 105-120): one boolean mask applied to X, shot and time. */
  function LoadX(mask: seq<bool>, X: Mat, shot: seq<int>, time: seq<real>): (r: Result<(Mat, seq<int>, seq<real>), LoadError>)
    ensures r.Success? <==> |mask| == |X.rows| == |shot| == |time|
    ensures r.Success? ==>
      exists idx :: InBounds(idx, |mask|) && Ascending(idx)
        && (forall i :: 0 <= i < |mask| ==> (i in idx <==> mask[i]))
        && r.value.0 == SelectRows(X, idx) && r.value.1 == Gather(shot, idx) && r.value.2 == Gather(time, idx)
  {
    if |mask| == |X.rows| == |shot| == |time| then
      var iuse := Where(mask);
      Success((SelectRows(X, iuse), Gather(shot, iuse), Gather(time, iuse)))
    else
      Failure(MaskLength)
  }

  /** sklearn's PCA(n_components=k, svd_solver='arpack').fit(X), given as a function of the data and k. */
  type PcaSolver = (Mat, nat) -> Basis

  /** A fit of k components has a mean per feature, k components of that width and k ratios. */
  ghost predicate SolverShapes(solver: PcaSolver) {
    forall m: Mat, k: nat {:trigger solver(m, k)} :: Shaped(m) ==>
      && |solver(m, k).mean| == m.width
      && |solver(m, k).components| == k
      && Widths(solver(m, k).components, m.width)
      && |solver(m, k).evr| == k
  }

  function Min(a: int, b: int): int {
    if a <= b then a else b
  }

  /** Line 190: the exploratory fit keeps one component fewer than min(rows, cols, 100). */
  function ExploratoryCount(rows: nat, cols: nat): (n: int)
    ensures n < rows && n < cols && n < 100
    ensures n == rows - 1 || n == cols - 1 || n == 99
  {
    Min(Min(rows, cols), 100) - 1
  }

  /** The component counts sklearn's arpack solver accepts for X. */
  predicate ArpackAccepts(k: int, X: Mat) {
    1 <= k < |X.rows| && k < X.width
  }

  predicate AnyNaN(X: Mat) {
    exists i :: 0 <= i < |X.rows| && X.rows[i].hasNaN
  }

  /** The boolean vector c > threshold. */
  function Exceeds(c: seq<real>, threshold: real): (mask: seq<bool>)
    ensures |mask| == |c|
    ensures forall j :: 0 <= j < |c| ==> (mask[j] <==> c[j] > threshold)
  {
    seq(|c|, j requires 0 <= j < |c| => c[j] > threshold)
  }

  /**
   * Lines 194-199: the smallest count whose cumulative explained variance
   * exceeds evt, or ncomps_max when there is none or it is larger.
   */
  function ChooseCount(evr: seq<real>, evt: real, cap: int): (k: int)
    ensures cap >= 1 ==> 1 <= k <= cap
    ensures k != cap ==>
      && 1 <= k <= |evr| && Sum(evr[..k]) > evt
      && forall j :: 1 <= j < k ==> Sum(evr[..j]) <= evt
    ensures k == cap ==> forall j :: 1 <= j < cap && j <= |evr| ==> Sum(evr[..j]) <= evt
    ensures (forall j :: 1 <= j <= |evr| && j <= cap ==> Sum(evr[..j]) <= evt) ==> k == cap
  {
    var c := CumSum(evr);
    match FirstWhere(Exceeds(c, evt))
    case None =>
      assert forall i :: 1 <= i <= |evr| ==> Sum(evr[..i]) == c[i - 1] && !Exceeds(c, evt)[i - 1];
      cap
    case Some(j) =>
      assert Sum(evr[..j + 1]) == c[j];
      assert forall i :: 1 <= i <= j ==> Sum(evr[..i]) == c[i - 1];
      assert forall i :: 0 <= i < j ==> !Exceeds(c, evt)[i];
      assert forall i :: 0 <= i < j ==> c[i] <= evt;
      if j + 1 > cap then cap else j + 1
  }

  /** fit_pca (lines 188-208): exploratory fit, component-count rule, refit, exploratory ratios attached. */
  function FitPca(X: Mat, evt: real, cap: int, solver: PcaSolver): (r: Result<Basis, FitError>)
    requires Shaped(X)
    ensures |X.rows| < 2 || X.width < 2 || AnyNaN(X) ==> r.Failure?
    ensures var n := ExploratoryCount(|X.rows|, X.width);
      r.Success? <==>
        !AnyNaN(X) && ArpackAccepts(n, X) && ArpackAccepts(ChooseCount(solver(X, n as nat).evr, evt, cap), X)
    ensures r.Success? ==>
      var n := ExploratoryCount(|X.rows|, X.width);
      var k := ChooseCount(solver(X, n as nat).evr, evt, cap);
      && ArpackAccepts(n, X) && ArpackAccepts(k, X)
      && 1 <= k <= cap
      && r.value.evr == solver(X, n as nat).evr
      && r.value.mean == solver(X, k as nat).mean
      && r.value.components == solver(X, k as nat).components
    ensures r.Success? && SolverShapes(solver) ==>
      && 1 <= |r.value.components| <= cap
      && |r.value.mean| == X.width && Widths(r.value.components, X.width)
  {
    var n := ExploratoryCount(|X.rows|, X.width);
    if AnyNaN(X) then Failure(NotFinite)
    else if !ArpackAccepts(n, X) then Failure(Unfittable(n))
    else
      var pca0 := solver(X, n);
      var k := ChooseCount(pca0.evr, evt, cap);
      if !ArpackAccepts(k, X) then Failure(Unfittable(k))
      else
        var pca := solver(X, k);
        Success(pca.(evr := pca0.evr))
  }

  /** Line 166: the average of the three phase means. */
  function MeanOfThree(m1: seq<real>, m2: seq<real>, m3: seq<real>): (mu: seq<real>)
    requires |m1| == |m2| == |m3|
    ensures |mu| == |m1|
    ensures forall f :: 0 <= f < |m1| ==> Sub(mu, m1)[f] + Sub(mu, m2)[f] + Sub(mu, m3)[f] == 0.0
    ensures m1 == m2 == m3 ==> mu == m1
  {
    seq(|m1|, f requires 0 <= f < |m1| => (m1[f] + m2[f] + m3[f]) / 3.0)
  }

  /** Line 167: A stacks the three component blocks, then the offsets mu - mean_i. */
  function Stack(b1: Basis, b2: Basis, b3: Basis, mu: seq<real>): (A: seq<seq<real>>)
    requires |b1.mean| == |b2.mean| == |b3.mean| == |mu|
    ensures |A| == |b1.components| + |b2.components| + |b3.components| + 3
    ensures Widths(b1.components, |mu|) && Widths(b2.components, |mu|) && Widths(b3.components, |mu|)
      ==> Widths(A, |mu|)
    ensures A[..|b1.components| + |b2.components| + |b3.components|] == b1.components + b2.components + b3.components
    ensures A[|A| - 3] == Sub(mu, b1.mean) && A[|A| - 2] == Sub(mu, b2.mean) && A[|A| - 1] == Sub(mu, b3.mean)
  {
    b1.components + b2.components + b3.components + [Sub(mu, b1.mean), Sub(mu, b2.mean), Sub(mu, b3.mean)]
  }

  /** The singular values and right singular vectors np.linalg.svd returns. */
  datatype Svd = Svd(s: seq<real>, vh: seq<seq<real>>)

  /** sklearn's normalize followed by np.linalg.svd(full_matrices=False), given A and its column count. */
  type Decomposer = (seq<seq<real>>, nat) -> Svd

  /** Singular values are non-negative, one per right singular vector, each of A's width. */
  ghost predicate DecomposerShapes(decompose: Decomposer) {
    forall A: seq<seq<real>>, w: nat {:trigger decompose(A, w)} ::
      && NonNegative(decompose(A, w).s)
      && |decompose(A, w).s| == |decompose(A, w).vh|
      && Widths(decompose(A, w).vh, w)
  }

  /** Lines 171-172: energies > 0.999 with energies = cumsum(s) / sum(s); 0/0 is NaN and passes nothing. */
  function Energetic(s: seq<real>): (mask: seq<bool>)
    ensures |mask| == |s|
    ensures forall j :: 0 <= j < |s| ==> (mask[j] <==> Sum(s) != 0.0 && CumSum(s)[j] / Sum(s) > 0.999)
  {
    var c, t := CumSum(s), Sum(s);
    seq(|s|, j requires 0 <= j < |s| => t != 0.0 && c[j] / t > 0.999)
  }

  /**
   * For non-negative singular values the energy curve only rises: once a position
   * passes 0.999 every later one does, and the last one passes when the total is positive.
   */
  lemma EnergeticMonotone(s: seq<real>)
    requires NonNegative(s)
    ensures forall i, j :: 0 <= i <= j < |s| && Energetic(s)[i] ==> Energetic(s)[j]
    ensures Sum(s) > 0.0 ==> forall j :: 0 <= j < |s| ==> (Energetic(s)[j] <==> CumSum(s)[j] > 0.999 * Sum(s))
    ensures Sum(s) > 0.0 && |s| > 0 ==> Energetic(s)[|s| - 1]
  {
    CumSumMonotone(s);
    SumPrefixBelow(s, 0);
    assert s[..0] == [];
    var t := Sum(s);
    if t > 0.0 {
      forall j | 0 <= j < |s| ensures Energetic(s)[j] <==> CumSum(s)[j] > 0.999 * t {
        RatioAbove(CumSum(s)[j], t);
      }
      if |s| > 0 {
        SelfRatio(t);
      }
    }
  }

  /** Dividing by a positive total keeps the comparison with 0.999. */
  lemma RatioAbove(c: real, t: real)
    requires t > 0.0
    ensures c / t > 0.999 <==> c > 0.999 * t
  {
    assert c == (c / t) * t;
  }

  /** Lines 171-173: the first 1-based position whose energy passes 0.999, capped at ncomps_max. */
  function MergedRank(s: seq<real>, cap: int): (r: Result<int, FitError>)
    ensures r.Failure? <==> forall j :: 0 <= j < |s| ==> !Energetic(s)[j]
    ensures r.Success? ==> r.value <= cap
    ensures r.Success? && cap >= 1 ==> 1 <= r.value <= |s|
    ensures r.Success? && r.value < cap ==>
      && 1 <= r.value <= |s|
      && Energetic(s)[r.value - 1]
      && forall j :: 0 <= j < r.value - 1 ==> !Energetic(s)[j]
    ensures r.Success? && r.value == cap ==> forall j :: 0 <= j < cap - 1 && j < |s| ==> !Energetic(s)[j]
  {
    match FirstWhere(Energetic(s))
    case None => Failure(NoMergedRank)
    case Some(j) => Success(Min(j + 1, cap))
  }

  /** With non-negative singular values of positive sum the last energy is 1, so a merged rank always exists. */
  lemma MergedRankExists(s: seq<real>, cap: int)
    requires NonNegative(s) && Sum(s) > 0.0
    ensures MergedRank(s, cap).Success?
    ensures cap >= 1 ==> 1 <= MergedRank(s, cap).value <= cap && MergedRank(s, cap).value <= |s|
  {
    if s != [] {
      assert s[..|s|] == s;
      assert CumSum(s)[|s| - 1] == Sum(s);
      SelfRatio(Sum(s));
      assert Energetic(s)[|s| - 1];
    }
  }

  lemma SelfRatio(t: real)
    requires t != 0.0
    ensures t / t == 1.0
  {
  }

  /** The merged basis: n_components, mean_ and components_ as set on mergedPCA. */
  datatype Merged = Merged(nComponents: int, mean: seq<real>, components: seq<seq<real>>)

  /** Lines 165-174: average the means, stack A, decompose it, keep the first n_components right singular vectors. */
  function Merge(b1: Basis, b2: Basis, b3: Basis, cap: int, decompose: Decomposer): (r: Result<Merged, FitError>)
    requires |b1.mean| == |b2.mean| == |b3.mean|
    requires DecomposerShapes(decompose)
    ensures r.Success? ==> r.value.mean == MeanOfThree(b1.mean, b2.mean, b3.mean)
    ensures r.Success? && cap >= 1 ==>
      && 1 <= r.value.nComponents <= cap
      && |r.value.components| == r.value.nComponents
      && Widths(r.value.components, |b1.mean|)
    ensures r.Success? && cap >= 1 ==>
      var svd := decompose(Stack(b1, b2, b3, r.value.mean), |b1.mean|);
      r.value.nComponents <= |svd.vh| && r.value.components == svd.vh[..r.value.nComponents]
    ensures var svd := decompose(Stack(b1, b2, b3, MeanOfThree(b1.mean, b2.mean, b3.mean)), |b1.mean|);
      && (r.Failure? <==> MergedRank(svd.s, cap).Failure?)
      && (r.Success? ==> r.value.nComponents == MergedRank(svd.s, cap).value)
    ensures Sum(decompose(Stack(b1, b2, b3, MeanOfThree(b1.mean, b2.mean, b3.mean)), |b1.mean|).s) > 0.0
      ==> r.Success?
  {
    var mu := MeanOfThree(b1.mean, b2.mean, b3.mean);
    var A := Stack(b1, b2, b3, mu);
    var svd := decompose(A, |mu|);
    assert Sum(svd.s) > 0.0 ==> MergedRank(svd.s, cap).Success? by {
      if Sum(svd.s) > 0.0 { MergedRankExists(svd.s, cap); }
    }
    match MergedRank(svd.s, cap)
    case Failure(e) => Failure(e)
    case Success(n) =>
      Success(Merged(n, mu, PySlice(svd.vh, 0, n)))
  }

  /** sklearn's PCA.transform on a fitted basis: (X - mean_) @ components_.T. */
  function Project(X: Mat, mean: seq<real>, components: seq<seq<real>>): (r: Mat)
    requires Shaped(X) && |mean| == X.width && Widths(components, X.width)
    ensures Shaped(r) && r.width == |components| && |r.rows| == |X.rows|
  {
    Mat(|components|,
        seq(|X.rows|, i requires 0 <= i < |X.rows| =>
          Row(seq(|components|, j requires 0 <= j < |components| =>
                Dot(Sub(X.rows[i].values, mean), components[j])), false)))
  }

  /** The PCA object the merge builds and eval_pca updates in place. */
  class Pca {
    var nComponents: int
    var mean: seq<real>
    var components: seq<seq<real>>
    var phases: seq<Basis>
    var coeff: Option<Mat>

    /** PCA(n_components=n) before any attribute is set. */
    constructor (n: int)
      ensures nComponents == n && mean == [] && components == [] && phases == [] && coeff == None
    {
      nComponents, mean, components, phases, coeff := n, [], [], [], None;
    }

    /** The PCA as it appears in a deep copy. */
    function Fitted(): FittedPca
      reads this
    {
      FittedPca(nComponents, mean, components, phases)
    }
  }

  /**
   * eval_pca (lines 123-133): with no PCA the raw X is the coefficient matrix;
   * otherwise the projection is stored on the PCA object and a copy is returned.
   */
  method EvalPca(X: Mat, pca: Pca?) returns (r: Result<Signal, FitError>)
    requires Shaped(X)
    modifies pca
    ensures pca == null ==> r == Success(Signal(X, None))
    ensures pca != null ==> pca.Fitted() == old(pca.Fitted())
    ensures pca != null ==>
      (r.Failure? <==> AnyNaN(X) || Empty(X) || |pca.mean| != X.width || !Widths(pca.components, X.width))
    ensures pca != null && r.Failure? ==> pca.coeff == old(pca.coeff)
    ensures pca != null && r.Success? ==>
      && r.value.coeff == Project(X, pca.mean, pca.components)
      && r.value.pca == Some(pca.Fitted())
      && pca.coeff == Some(r.value.coeff)
  {
    if pca == null {
      return Success(Signal(X, None));
    }
    if AnyNaN(X) || Empty(X) || |pca.mean| != X.width || !Widths(pca.components, X.width) {
      return Failure(if AnyNaN(X) then NotFinite else if Empty(X) then EmptyInput else ShapeMismatch);
    }
    var coeff := Project(X, pca.mean, pca.components);
    pca.coeff := Some(coeff);
    r := Success(Signal(coeff, Some(pca.Fitted())));
  }

  /** Lines 160-174: the three phase fits, on the rows each phase names, and their merge. */
  function FitPhases(X: Mat, p: Phases, evt: real, cap: int, solver: PcaSolver, decompose: Decomposer)
    : (r: Result<(seq<Basis>, Merged), FitError>)
    requires Shaped(X) && InBounds(p.up, |X.rows|) && InBounds(p.flat, |X.rows|) && InBounds(p.down, |X.rows|)
    requires SolverShapes(solver) && DecomposerShapes(decompose)
    ensures r.Success? ==>
      var (phases, m) := r.value;
      && |phases| == 3
      && |phases[0].mean| == |phases[1].mean| == |phases[2].mean| == X.width
      && m.mean == MeanOfThree(phases[0].mean, phases[1].mean, phases[2].mean)
      && 1 <= m.nComponents <= cap && |m.components| == m.nComponents
      && Widths(m.components, X.width)
    ensures
      var f1 := FitPca(SelectRows(X, p.up), evt, cap, solver);
      var f2 := FitPca(SelectRows(X, p.flat), evt, cap, solver);
      var f3 := FitPca(SelectRows(X, p.down), evt, cap, solver);
      && (r.Success? <==>
            f1.Success? && f2.Success? && f3.Success? && Merge(f1.value, f2.value, f3.value, cap, decompose).Success?)
      && (r.Success? ==>
            && r.value.0 == [f1.value, f2.value, f3.value]
            && r.value.1 == Merge(f1.value, f2.value, f3.value, cap, decompose).value)
  {
    match FitPca(SelectRows(X, p.up), evt, cap, solver)
    case Failure(e) => Failure(e)
    case Success(b1) =>
      match FitPca(SelectRows(X, p.flat), evt, cap, solver)
      case Failure(e) => Failure(e)
      case Success(b2) =>
        match FitPca(SelectRows(X, p.down), evt, cap, solver)
        case Failure(e) => Failure(e)
        case Success(b3) =>
          match Merge(b1, b2, b3, cap, decompose)
          case Failure(e) => Failure(e)
          case Success(m) => Success(([b1, b2, b3], m))
  }

  /** What fit_rampup_flat_rampdown_pca returns: None, the merged PCA, or the error it raises. */
  datatype FitOutcome = NoPca | Fitted(pca: Pca) | Failed(error: FitError)

  /** fit_rampup_flat_rampdown_pca (lines 136-186). */
  method FitRampupFlatRampdown(X: Mat, shots: seq<int>, times: seq<real>, tUp: real, tDown: real,
                               evt: real, cap: int, solver: PcaSolver, decompose: Decomposer)
    returns (r: FitOutcome)
    requires Shaped(X) && |X.rows| == |shots| == |times|
    requires SolverShapes(solver) && DecomposerShapes(decompose)
    ensures r.NoPca? <==> X.width <= 2
    ensures r.Failed? <==>
      X.width > 2 && FitPhases(X, PhasesOf(shots, times, tUp, tDown), evt, cap, solver, decompose).Failure?
    ensures r.Fitted? ==>
      && fresh(r.pca) && r.pca.coeff == None
      && var (phases, m) := FitPhases(X, PhasesOf(shots, times, tUp, tDown), evt, cap, solver, decompose).value;
      && r.pca.Fitted() == FittedPca(m.nComponents, m.mean, m.components, phases)
      && 1 <= r.pca.nComponents <= cap && |r.pca.components| == r.pca.nComponents
  {
    if X.width <= 2 {
      return NoPca;
    }
    var p := Segment(shots, times, tUp, tDown);
    var fit := FitPhases(X, p, evt, cap, solver, decompose);
    if fit.Failure? {
      return Failed(fit.error);
    }
    var mergedPca := NewMergedPca(fit.value.0, fit.value.1);
    r := Fitted(mergedPca);
  }

  /** Lines 178-183: a fresh PCA(n_components) with the merged attributes and the phase fits assigned onto it. */
  method NewMergedPca(phases: seq<Basis>, merged: Merged) returns (pca: Pca)
    ensures fresh(pca) && pca.coeff == None
    ensures pca.Fitted() == FittedPca(merged.nComponents, merged.mean, merged.components, phases)
  {
    pca := new Pca(merged.nComponents);
    pca.mean := merged.mean;
    pca.components := merged.components;
    pca.phases := phases;
  }
}
