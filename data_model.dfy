/**
 * The values the pipeline passes around: sample matrices whose rows stay
 * aligned with the shot and time columns, PCA bases, and the coefficient
 * table (signal name -> object carrying coeff_, plus shared shot and time).
 */
module DataModel {
  import opened Results
  import opened Indexing

  /** One sample: its feature values, and whether any of them is NaN. */
  datatype Row = Row(values: seq<real>, hasNaN: bool)

  /** A 2-D numpy array: its column count (known even with no rows) and its rows. */
  datatype Mat = Mat(width: nat, rows: seq<Row>)

  /** Every row has the array's column count, as numpy arrays always do. */
  predicate Shaped(m: Mat) {
    forall i :: 0 <= i < |m.rows| ==> |m.rows[i].values| == m.width
  }

  /** m[idx, :]: the rows named by an index vector, in its order. */
  function SelectRows(m: Mat, idx: seq<nat>): (r: Mat)
    requires InBounds(idx, |m.rows|)
    ensures Shaped(m) ==> Shaped(r)
  {
    Mat(m.width, Gather(m.rows, idx))
  }

  /** An array sklearn's check_array refuses: no samples, or no features. */
  predicate Empty(m: Mat) {
    |m.rows| == 0 || m.width == 0
  }

  /** np.hstack([a, b]) on two arrays with the same number of rows. */
  function HStack(a: Mat, b: Mat): (r: Mat)
    requires Shaped(a) && Shaped(b) && |a.rows| == |b.rows|
    ensures Shaped(r) && r.width == a.width + b.width && |r.rows| == |a.rows|
    ensures forall i :: 0 <= i < |r.rows| ==>
      && r.rows[i].values == a.rows[i].values + b.rows[i].values
      && (r.rows[i].hasNaN <==> a.rows[i].hasNaN || b.rows[i].hasNaN)
  {
    Mat(a.width + b.width,
        seq(|a.rows|, i requires 0 <= i < |a.rows| =>
          Row(a.rows[i].values + b.rows[i].values, a.rows[i].hasNaN || b.rows[i].hasNaN)))
  }

  /** A column of shape (N, 1), as the shot and time arrays are stored. */
  function Column(v: seq<real>): (r: Mat)
    ensures Shaped(r) && r.width == 1 && |r.rows| == |v|
    ensures forall i :: 0 <= i < |v| ==> r.rows[i] == Row([v[i]], false)
  {
    Mat(1, seq(|v|, i requires 0 <= i < |v| => Row([v[i]], false)))
  }

  function Dot(a: seq<real>, b: seq<real>): real
    requires |a| == |b|
  {
    if a == [] then 0.0 else Dot(a[..|a| - 1], b[..|b| - 1]) + a[|a| - 1] * b[|b| - 1]
  }

  /** a - b, elementwise. */
  function Sub(a: seq<real>, b: seq<real>): (r: seq<real>)
    requires |a| == |b|
    ensures |r| == |a|
  {
    seq(|a|, f requires 0 <= f < |a| => a[f] - b[f])
  }

  /** Every vector of vs has length n. */
  predicate Widths(vs: seq<seq<real>>, n: nat) {
    forall i :: 0 <= i < |vs| ==> |vs[i]| == n
  }

  /** A fitted PCA as the library leaves it: mean_, components_ (one row each), explained_variance_ratio_. */
  datatype Basis = Basis(mean: seq<real>, components: seq<seq<real>>, evr: seq<real>)

  /** The merged PCA object in the coefficient table: n_components, mean_, components_ and the phase fits pca1..pca3. */
  datatype FittedPca = FittedPca(nComponents: int, mean: seq<real>, components: seq<seq<real>>, phases: seq<Basis>)

  /** One entry of the coefficient table: coeff_, with the PCA it came from (None for the pass-through record). */
  datatype Signal = Signal(coeff: Mat, pca: Option<FittedPca>)

  /** The coefficient table of one dataset: the signals by name, plus the shared shot and time columns. */
  datatype Table = Table(shot: seq<int>, time: seq<real>, signals: map<string, Signal>)

  /** shot and time are parallel, are not signal names, and every coeff_ is a proper 2-D array. */
  predicate WellShaped(t: Table) {
    && |t.shot| == |t.time|
    && "shot" !in t.signals && "time" !in t.signals
    && forall k :: k in t.signals ==> Shaped(t.signals[k].coeff)
  }

  /** Every coefficient matrix has one row per entry of shot and of time. */
  predicate Aligned(t: Table) {
    && |t.shot| == |t.time|
    && "shot" !in t.signals && "time" !in t.signals
    && forall k :: k in t.signals ==> Shaped(t.signals[k].coeff) && |t.signals[k].coeff.rows| == |t.shot|
  }

  /** Applies one index vector to shot, to time and to every coeff_, as the split does. */
  function SelectTable(t: Table, idx: seq<nat>): (r: Table)
    requires Aligned(t) && InBounds(idx, |t.shot|)
    ensures Aligned(r) && |r.shot| == |idx| && r.signals.Keys == t.signals.Keys
    ensures forall k :: 0 <= k < |idx| ==> r.shot[k] == t.shot[idx[k]] && r.time[k] == t.time[idx[k]]
    ensures forall key, k :: key in r.signals && 0 <= k < |idx| ==>
      r.signals[key].coeff.rows[k] == t.signals[key].coeff.rows[idx[k]]
    ensures forall key :: key in r.signals ==>
      r.signals[key].pca == t.signals[key].pca && r.signals[key].coeff.width == t.signals[key].coeff.width
  {
    Table(Gather(t.shot, idx), Gather(t.time, idx),
          map key | key in t.signals :: t.signals[key].(coeff := SelectRows(t.signals[key].coeff, idx)))
  }
}
