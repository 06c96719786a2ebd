/**
 * DataPreProcess (pertnet/net/pertnet_utils.py, lines 436-540): the feature
 * and target matrices are put together from named blocks of the coefficient
 * table, scaled, and filtered row by row, with shot and time kept in lockstep.
 */
module DataPrep {
  import opened Results
  import opened Indexing
  import opened DataModel
  import opened PhaseSegmentation

  datatype PrepError =
    | NoNames                 // makeX over no names leaves Xdata unbound
    | MissingKey(key: string) // datadict[key] raises KeyError
    | RowMismatch             // np.hstack on blocks with different row counts
    | FeatureMismatch         // the scaler was fitted on another number of features
    | EmptyInput              // check_array refuses an array with no samples or no features
    | NegativeSize            // np.random.choice with a negative sample count
    | UnboundIdx              // the by-shot hold-back as written, when it selects no shot

  /** datadict[key].coeff_, or datadict[key] itself for the shot and time columns. */
  function Lookup(t: Table, key: string): (r: Result<Mat, PrepError>)
    requires WellShaped(t)
    ensures r.Failure? <==> key !in t.signals && key != "shot" && key != "time"
    ensures r.Failure? ==> r.error == MissingKey(key)
    ensures r.Success? ==> Shaped(r.value) && |r.value.rows| == (if key in t.signals then |t.signals[key].coeff.rows| else |t.shot|)
    ensures key in t.signals ==> r == Success(t.signals[key].coeff)
    ensures key !in t.signals && key == "shot" ==>
      r == Success(Column(seq(|t.shot|, i requires 0 <= i < |t.shot| => t.shot[i] as real)))
    ensures key !in t.signals && key == "time" ==> r == Success(Column(t.time))
  {
    if key in t.signals then Success(t.signals[key].coeff)
    else if key == "shot" then Success(Column(seq(|t.shot|, i requires 0 <= i < |t.shot| => t.shot[i] as real)))
    else if key == "time" then Success(Column(t.time))
    else Failure(MissingKey(key))
  }

  /** makeX (lines 456-470): the named blocks side by side, in the order of the names. */
  function Stacked(t: Table, names: seq<string>): (r: Result<Mat, PrepError>)
    requires WellShaped(t)
    ensures r.Success? ==> Shaped(r.value)
    ensures r.Success? && Aligned(t) ==> |r.value.rows| == |t.shot|
  {
    if names == [] then Failure(NoNames)
    else if |names| == 1 then Lookup(t, names[0])
    else
      match Stacked(t, names[..|names| - 1])
      case Failure(e) => Failure(e)
      case Success(acc) =>
        match Lookup(t, names[|names| - 1])
        case Failure(e) => Failure(e)
        case Success(x) =>
          if |acc.rows| != |x.rows| then Failure(RowMismatch) else Success(HStack(acc, x))
  }

  /** The column count of a block, 0 when the name is missing. */
  function BlockWidth(t: Table, key: string): nat
    requires WellShaped(t)
  {
    match Lookup(t, key)
    case Success(m) => m.width
    case Failure(_) => 0
  }

  /** The first column of block j: the widths of the blocks before it added up. */
  function Offset(t: Table, names: seq<string>, j: nat): nat
    requires WellShaped(t) && j <= |names|
  {
    if j == 0 then 0 else Offset(t, names, j - 1) + BlockWidth(t, names[j - 1])
  }

  lemma {:induction false} OffsetMonotone(t: Table, names: seq<string>)
    requires WellShaped(t)
    ensures forall j, k :: 0 <= j <= k <= |names| ==> Offset(t, names, j) <= Offset(t, names, k)
  {
    forall j, k | 0 <= j <= k <= |names|
      ensures Offset(t, names, j) <= Offset(t, names, k)
    {
      OffsetGrows(t, names, j, k);
    }
  }

  lemma {:induction false} OffsetGrows(t: Table, names: seq<string>, j: nat, k: nat)
    requires WellShaped(t) && j <= k <= |names|
    ensures Offset(t, names, j) <= Offset(t, names, k)
    decreases k
  {
    if j < k {
      OffsetGrows(t, names, j, k - 1);
    }
  }

  /** Offsets depend only on the names before the block. */
  lemma {:induction false} OffsetPrefix(t: Table, names: seq<string>, p: nat, j: nat)
    requires WellShaped(t) && j <= p <= |names|
    ensures Offset(t, names, j) == Offset(t, names[..p], j)
  {
    if j > 0 {
      OffsetPrefix(t, names, p, j - 1);
      assert names[..p][j - 1] == names[j - 1];
    }
  }

  /** makeX succeeds only when every name is found with the stacked row count; the column count is the sum of the blocks' column counts. */
  lemma {:induction false} StackedParts(t: Table, names: seq<string>)
    requires WellShaped(t) && Stacked(t, names).Success?
    ensures var m := Stacked(t, names).value;
      && names != []
      && (forall j :: 0 <= j < |names| ==>
            Lookup(t, names[j]).Success? && |Lookup(t, names[j]).value.rows| == |m.rows|)
      && m.width == Offset(t, names, |names|)
  {
    if |names| > 1 {
      var init := names[..|names| - 1];
      StackedParts(t, init);
      OffsetPrefix(t, names, |init|, |init|);
      assert forall j :: 0 <= j < |init| ==> init[j] == names[j];
    }
  }

  /** Block j fills columns Offset(j) up to Offset(j + 1) of every row of the stacked matrix, in name order. */
  lemma StackedColumns(t: Table, names: seq<string>)
    requires WellShaped(t) && Stacked(t, names).Success?
    ensures (StackedParts(t, names); OffsetMonotone(t, names);
      var m := Stacked(t, names).value;
      forall i, j :: 0 <= i < |m.rows| && 0 <= j < |names| ==>
        m.rows[i].values[Offset(t, names, j)..Offset(t, names, j + 1)] == Lookup(t, names[j]).value.rows[i].values)
  {
    StackedParts(t, names);
    OffsetMonotone(t, names);
    var m := Stacked(t, names).value;
    forall i, j | 0 <= i < |m.rows| && 0 <= j < |names|
      ensures m.rows[i].values[Offset(t, names, j)..Offset(t, names, j + 1)] == Lookup(t, names[j]).value.rows[i].values
    {
      StackedColumn(t, names, i, j);
    }
  }

  /** Block j in row i of the stacked matrix, by induction on the names. */
  lemma {:induction false} StackedColumn(t: Table, names: seq<string>, i: nat, j: nat)
    requires WellShaped(t) && Stacked(t, names).Success?
    requires i < |Stacked(t, names).value.rows| && j < |names|
    ensures (StackedParts(t, names); OffsetMonotone(t, names);
      Stacked(t, names).value.rows[i].values[Offset(t, names, j)..Offset(t, names, j + 1)]
        == Lookup(t, names[j]).value.rows[i].values)
  {
    StackedParts(t, names);
    OffsetMonotone(t, names);
    var m := Stacked(t, names).value;
    if |names| == 1 {
      assert m.rows[i].values[0..m.width] == m.rows[i].values;
    } else {
      var init := names[..|names| - 1];
      var n := |init|;
      StackedParts(t, init);
      OffsetMonotone(t, init);
      var acc := Stacked(t, init).value;
      var x := Lookup(t, names[n]).value;
      assert m == HStack(acc, x);
      var a, b := acc.rows[i].values, x.rows[i].values;
      assert m.rows[i].values == a + b;
      OffsetPrefix(t, names, n, n);
      if j < n {
        StackedColumn(t, init, i, j);
        assert init[j] == names[j];
        OffsetPrefix(t, names, n, j);
        OffsetPrefix(t, names, n, j + 1);
        ConcatSlice(a, b, Offset(t, init, j), Offset(t, init, j + 1));
      } else {
        ConcatSlice(a, b, |a|, |a| + |b|);
      }
    }
  }

  /** A slice of a + b that lies within a or is exactly b. */
  lemma ConcatSlice(a: seq<real>, b: seq<real>, lo: nat, hi: nat)
    requires lo <= hi <= |a| || (lo == |a| && hi == |a| + |b|)
    ensures hi <= |a| ==> (a + b)[lo..hi] == a[lo..hi]
    ensures lo == |a| && hi == |a| + |b| ==> (a + b)[lo..hi] == b
  {
  }

  /** A row of the stacked matrix holds a NaN exactly when one of its blocks does in that row. */
  lemma {:induction false} StackedNaN(t: Table, names: seq<string>)
    requires WellShaped(t) && Stacked(t, names).Success?
    ensures (StackedParts(t, names);
      var m := Stacked(t, names).value;
      forall i :: 0 <= i < |m.rows| ==>
        (m.rows[i].hasNaN <==> exists j :: 0 <= j < |names| && Lookup(t, names[j]).value.rows[i].hasNaN))
  {
    StackedParts(t, names);
    var m := Stacked(t, names).value;
    if |names| > 1 {
      var init := names[..|names| - 1];
      var n := |init|;
      StackedNaN(t, init);
      StackedParts(t, init);
      var acc := Stacked(t, init).value;
      var x := Lookup(t, names[n]).value;
      assert m == HStack(acc, x);
      forall i | 0 <= i < |m.rows|
        ensures m.rows[i].hasNaN <==> exists j :: 0 <= j < |names| && Lookup(t, names[j]).value.rows[i].hasNaN
      {
        if acc.rows[i].hasNaN {
          var j :| 0 <= j < n && Lookup(t, init[j]).value.rows[i].hasNaN;
          assert init[j] == names[j];
        }
        if exists j :: 0 <= j < |names| && Lookup(t, names[j]).value.rows[i].hasNaN {
          var j :| 0 <= j < |names| && Lookup(t, names[j]).value.rows[i].hasNaN;
          if j < n {
            assert init[j] == names[j];
          }
        }
      }
    }
  }

  /** On an aligned table makeX fails exactly when there are no names or one of them is missing. */
  lemma {:induction false} StackedSucceeds(t: Table, names: seq<string>)
    requires Aligned(t)
    ensures Stacked(t, names).Success? <==>
      names != [] && forall j :: 0 <= j < |names| ==> names[j] in t.signals || names[j] == "shot" || names[j] == "time"
  {
    if |names| > 1 {
      var init := names[..|names| - 1];
      StackedSucceeds(t, init);
      assert forall j :: 0 <= j < |init| ==> init[j] == names[j];
    }
  }

  /** A fitted StandardScaler: mean_ and scale_, one per feature; sklearn stores 1 in place of a zero scale. */
  datatype Scaler = Scaler(mean: seq<real>, scale: seq<real>)

  predicate ValidScaler(sc: Scaler) {
    |sc.mean| == |sc.scale| && forall f :: 0 <= f < |sc.scale| ==> sc.scale[f] != 0.0
  }

  /** StandardScaler.transform: (x - mean_) / scale_ per feature; a NaN stays NaN. */
  function Scale(sc: Scaler, m: Mat): (r: Result<Mat, PrepError>)
    requires ValidScaler(sc) && Shaped(m)
    ensures r.Failure? <==> Empty(m) || |sc.mean| != m.width
    ensures r.Failure? ==> r.error == if Empty(m) then EmptyInput else FeatureMismatch
    ensures r.Success? ==> Shaped(r.value) && r.value.width == m.width && |r.value.rows| == |m.rows|
    ensures r.Success? ==> forall i :: 0 <= i < |m.rows| ==> r.value.rows[i].hasNaN == m.rows[i].hasNaN
    ensures r.Success? ==> forall i, f :: 0 <= i < |m.rows| && 0 <= f < m.width ==>
      r.value.rows[i].values[f] * sc.scale[f] + sc.mean[f] == m.rows[i].values[f]
  {
    if Empty(m) then Failure(EmptyInput)
    else if |sc.mean| != m.width then Failure(FeatureMismatch)
    else
      Success(Mat(m.width, seq(|m.rows|, i requires 0 <= i < |m.rows| =>
        Row(seq(m.width, f requires 0 <= f < m.width => (m.rows[i].values[f] - sc.mean[f]) / sc.scale[f]),
            m.rows[i].hasNaN))))
  }

  /** The four arrays transform carries along: X, Y, shot and time. */
  datatype Batch = Batch(x: Mat, y: Mat, shot: seq<int>, time: seq<real>)

  /** X, Y, shot and time have one entry per sample, and X and Y are proper 2-D arrays. */
  predicate Lockstep(b: Batch) {
    Shaped(b.x) && Shaped(b.y) && |b.x.rows| == |b.y.rows| == |b.shot| == |b.time|
  }

  /** X[idx, :], Y[idx, :], shot[idx] and time[idx]: one index vector applied to all four. */
  function Take(b: Batch, idx: seq<nat>): (r: Batch)
    requires Lockstep(b) && InBounds(idx, |b.shot|)
    ensures Lockstep(r) && |r.shot| == |idx| && r.x.width == b.x.width && r.y.width == b.y.width
    ensures forall k :: 0 <= k < |idx| ==>
      && r.x.rows[k] == b.x.rows[idx[k]] && r.y.rows[k] == b.y.rows[idx[k]]
      && r.shot[k] == b.shot[idx[k]] && r.time[k] == b.time[idx[k]]
  {
    Batch(SelectRows(b.x, idx), SelectRows(b.y, idx), Gather(b.shot, idx), Gather(b.time, idx))
  }

  /** Two selections in a row are one selection by the composed index vector. */
  lemma TakeTake(b: Batch, i: seq<nat>, j: seq<nat>)
    requires Lockstep(b) && InBounds(i, |b.shot|) && InBounds(j, |i|)
    ensures InBounds(Gather(i, j), |b.shot|)
    ensures Take(Take(b, i), j) == Take(b, Gather(i, j))
  {
    GatherGather(b.x.rows, i, j);
    GatherGather(b.y.rows, i, j);
    GatherGather(b.shot, i, j);
    GatherGather(b.time, i, j);
  }

  /** One more selection step, applied to each of the four arrays of the current batch. */
  lemma TakeStep(b: Batch, idx: seq<nat>, j: seq<nat>, cur: Batch)
    requires Lockstep(b) && InBounds(idx, |b.shot|) && cur == Take(b, idx) && InBounds(j, |idx|)
    ensures InBounds(Gather(idx, j), |b.shot|)
    ensures Batch(SelectRows(cur.x, j), SelectRows(cur.y, j), Gather(cur.shot, j), Gather(cur.time, j))
      == Take(b, Gather(idx, j))
  {
    TakeTake(b, idx, j);
  }

  /** Slicing the four arrays with [:k] is selecting by the sliced index vector. */
  lemma TakeSlice(b: Batch, idx: seq<nat>, k: int)
    requires Lockstep(b) && InBounds(idx, |b.shot|)
    ensures InBounds(PySlice(idx, 0, k), |b.shot|)
    ensures var r := Take(b, idx);
      Take(b, PySlice(idx, 0, k))
        == Batch(Mat(r.x.width, PySlice(r.x.rows, 0, k)), Mat(r.y.width, PySlice(r.y.rows, 0, k)),
                 PySlice(r.shot, 0, k), PySlice(r.time, 0, k))
  {
    var r := Take(b, idx);
    var hi := SliceBound(k, |idx|);
    assert PySlice(idx, 0, k) == idx[..hi];
    assert PySlice(r.x.rows, 0, k) == r.x.rows[..hi];
    assert PySlice(r.y.rows, 0, k) == r.y.rows[..hi];
    assert PySlice(r.shot, 0, k) == r.shot[..hi];
    assert PySlice(r.time, 0, k) == r.time[..hi];
  }

  /** Selecting every row in order changes nothing. */
  lemma TakeAll(b: Batch)
    requires Lockstep(b)
    ensures Take(b, Range(|b.shot|)) == b
  {
    assert SelectRows(b.x, Range(|b.shot|)).rows == b.x.rows;
    assert SelectRows(b.y, Range(|b.shot|)).rows == b.y.rows;
  }

  /** Line 486: the rows whose time is past t_thresh. */
  function PastThreshold(time: seq<real>, tThresh: real): (r: seq<nat>)
    ensures InBounds(r, |time|) && Ascending(r)
    ensures forall i :: 0 <= i < |time| ==> (i in r <==> time[i] > tThresh)
  {
    Where(seq(|time|, i requires 0 <= i < |time| => time[i] > tThresh))
  }

  /** Line 493: the rows with no NaN in X and none in Y. */
  function NoNaN(x: Mat, y: Mat): (r: seq<nat>)
    requires |x.rows| == |y.rows|
    ensures InBounds(r, |x.rows|) && Ascending(r)
    ensures forall i :: 0 <= i < |x.rows| ==> (i in r <==> !x.rows[i].hasNaN && !y.rows[i].hasNaN)
  {
    Where(seq(|x.rows|, i requires 0 <= i < |x.rows| => !x.rows[i].hasNaN && !y.rows[i].hasNaN))
  }

  /** The time threshold step: all rows when no threshold is set. */
  function ThresholdStep(b: Batch, tThresh: Option<real>): (r: seq<nat>)
    requires Lockstep(b)
    ensures InBounds(r, |b.shot|) && Ascending(r)
    ensures forall i :: 0 <= i < |b.shot| ==> (i in r <==> tThresh.None? || b.time[i] > tThresh.value)
  {
    if tThresh.Some? then PastThreshold(b.time, tThresh.value)
    else
      var r := Range(|b.shot|);
      forall i | 0 <= i < |b.shot| ensures i in r {
        assert r[i] == i;
      }
      r
  }

  /** A row that both filters keep: past the threshold when one is set, and no NaN in X or Y. */
  predicate Clean(b: Batch, tThresh: Option<real>, i: nat)
    requires Lockstep(b) && i < |b.shot|
  {
    (tThresh.None? || b.time[i] > tThresh.value) && !b.x.rows[i].hasNaN && !b.y.rows[i].hasNaN
  }

  /** The rows lines 484-497 keep, as indices of the unfiltered batch. */
  function Survivors(b: Batch, tThresh: Option<real>): (r: seq<nat>)
    requires Lockstep(b)
    ensures InBounds(r, |b.shot|)
  {
    var i1 := ThresholdStep(b, tThresh);
    var b1 := Take(b, i1);
    TakeTake(b, i1, NoNaN(b1.x, b1.y));
    Gather(i1, NoNaN(b1.x, b1.y))
  }

  /** The survivors are, in ascending order, exactly the clean rows. */
  lemma SurvivorsAreClean(b: Batch, tThresh: Option<real>)
    requires Lockstep(b)
    ensures Ascending(Survivors(b, tThresh))
    ensures forall i :: i in Survivors(b, tThresh) <==> 0 <= i < |b.shot| && Clean(b, tThresh, i)
  {
    var i1 := ThresholdStep(b, tThresh);
    var b1 := Take(b, i1);
    var i2 := NoNaN(b1.x, b1.y);
    var r := Gather(i1, i2);
    forall i | i in r ensures 0 <= i < |b.shot| && Clean(b, tThresh, i) {
      var m :| 0 <= m < |r| && r[m] == i;
      assert i == i1[i2[m]] && i in i1;
    }
    forall i | 0 <= i < |b.shot| && Clean(b, tThresh, i) ensures i in r {
      assert i in i1;
      var k :| 0 <= k < |i1| && i1[k] == i;
      assert k in i2;
      var m :| 0 <= m < |i2| && i2[m] == k;
      assert r[m] == i;
    }
  }

  /** int((1.0 - holdback_fraction) * n), lines 502 and 534. */
  function HoldBackCount(h: real, n: nat): int {
    Trunc((1.0 - h) * n as real)
  }

  /** A positive hold-back fraction keeps at most all n, and a fraction of at most 1 keeps a non-negative number. */
  lemma HoldBackCountBounds(h: real, n: nat)
    ensures h >= 0.0 ==> HoldBackCount(h, n) <= n
    ensures h <= 1.0 ==> 0 <= HoldBackCount(h, n)
    ensures h <= 0.0 ==> HoldBackCount(h, n) >= n
    ensures HoldBackCount(h, n) < 0 ==> h > 1.0 && n > 0
  {
    var v := (1.0 - h) * n as real;
    assert v == n as real - h * n as real;
    if h >= 0.0 {
      assert h * n as real >= 0.0;
    } else {
      assert h * n as real <= 0.0;
    }
  }

  /** np.random.choice(uniqshots, sz, replace=False), given as a function of the shots and sz. */
  type Picker = (seq<int>, int) -> seq<int>

  /** Without replacement: sz distinct entries of the shot list, when 0 <= sz <= its length and it has no repeats. */
  ghost predicate Picks(pick: Picker) {
    forall u: seq<int>, k: int {:trigger pick(u, k)} :: 0 <= k <= |u| && Distinct(u) ==>
      && |pick(u, k)| == k && Distinct(pick(u, k))
      && forall j :: 0 <= j < k ==> pick(u, k)[j] in u
  }

  /** torch.randperm(n), given as a function of n. */
  type Permuter = nat -> seq<nat>

  /** A permutation of 0..n-1: n distinct indices below n, each of them present. */
  ghost predicate Permutes(permute: Permuter) {
    forall n: nat {:trigger permute(n)} ::
      && |permute(n)| == n && InBounds(permute(n), n) && Distinct(permute(n))
      && forall k :: 0 <= k < n ==> k in permute(n)
  }

  /**
   * The by-shot index of lines 504-510, with the loop started from an empty vector:
   * the rows of each selected shot, shot after shot in selection order.
   */
  function ByShotIndex(shot: seq<int>, sel: seq<int>): (r: seq<nat>)
    ensures InBounds(r, |shot|)
  {
    if sel == [] then [] else ByShotIndex(shot, sel[..|sel| - 1]) + ShotIndices(shot, sel[|sel| - 1])
  }

  /** The by-shot index holds exactly the rows whose shot is selected, each once when no shot is selected twice. */
  lemma {:induction false} ByShotMembers(shot: seq<int>, sel: seq<int>)
    ensures forall i :: i in ByShotIndex(shot, sel) <==> 0 <= i < |shot| && shot[i] in sel
    ensures Distinct(sel) ==> Distinct(ByShotIndex(shot, sel))
  {
    if sel != [] {
      var init, last := sel[..|sel| - 1], sel[|sel| - 1];
      ByShotMembers(shot, init);
      assert forall x :: x in sel <==> x in init || x == last;
      var a, b := ByShotIndex(shot, init), ShotIndices(shot, last);
      if Distinct(sel) {
        assert last !in init;
        forall p, q | 0 <= p < q < |a + b| ensures (a + b)[p] != (a + b)[q] {
          if q >= |a| && p < |a| {
            assert shot[(a + b)[p]] in init;
          }
        }
      }
    }
  }

  /**
   * Lines 504-510 as written: idx is bound on the first pass of the loop and
   * extended on later ones, so it is never bound when no shot is selected.
   */
  method ByShotIndexAsWritten(shot: seq<int>, sel: seq<int>) returns (r: Result<seq<nat>, PrepError>)
    ensures r.Failure? <==> sel == []
    ensures r.Success? ==> r.value == ByShotIndex(shot, sel)
  {
    var idx: Option<seq<nat>> := None;
    for j := 0 to |sel|
      invariant j == 0 <==> idx.None?
      invariant j > 0 ==> idx == Some(ByShotIndex(shot, sel[..j]))
    {
      var k := ShotIndices(shot, sel[j]);
      assert sel[..j + 1][..j] == sel[..j] && sel[..j + 1][j] == sel[j];
      assert ByShotIndex(shot, sel[..j + 1]) == ByShotIndex(shot, sel[..j]) + k;
      if j == 0 {
        assert sel[..0] == [] && [] + k == k;
        idx := Some(k);
      } else {
        idx := Some(idx.value + k);
      }
    }
    if idx.None? {
      return Failure(UnboundIdx);
    }
    assert sel[..|sel|] == sel;
    r := Success(idx.value);
  }

  /** A failing makeX over a prefix of the names fails the same way over all of them. */
  lemma {:induction false} StackedFailurePersists(t: Table, names: seq<string>, i: nat)
    requires WellShaped(t) && 1 <= i <= |names| && Stacked(t, names[..i]).Failure?
    ensures Stacked(t, names) == Stacked(t, names[..i])
    decreases |names| - i
  {
    if i < |names| {
      assert names[..i + 1][..i] == names[..i];
      StackedFailurePersists(t, names, i + 1);
    } else {
      assert names[..i] == names;
    }
  }

  /**
   * Lines 499-515: of the surviving rows s, those whose shot is among sz shots drawn
   * from the distinct surviving shots, sz = int((1 - h) * U).
   */
  function ByShotStep(b: Batch, s: seq<nat>, h: real, pick: Picker): (r: Result<seq<nat>, PrepError>)
    requires Lockstep(b) && InBounds(s, |b.shot|)
    ensures var uniq := Unique(Gather(b.shot, s));
      r.Failure? <==> HoldBackCount(h, |uniq|) < 0
    ensures r.Success? ==> InBounds(r.value, |b.shot|)
    ensures r.Success? ==>
      var uniq := Unique(Gather(b.shot, s));
      forall i :: i in r.value <==> i in s && b.shot[i] in pick(uniq, HoldBackCount(h, |uniq|))
    ensures r.Success? && Distinct(s) && Picks(pick) && HoldBackCount(h, |Unique(Gather(b.shot, s))|) <= |Unique(Gather(b.shot, s))|
      ==> Distinct(r.value)
  {
    var shot := Gather(b.shot, s);
    var uniq := Unique(shot);
    var sz := HoldBackCount(h, |uniq|);
    if sz < 0 then Failure(NegativeSize)
    else
      var sel := pick(uniq, sz);
      var j := ByShotIndex(shot, sel);
      ByShotMembers(shot, sel);
      ByShotPicked(b.shot, s, sel);
      assert Distinct(uniq) by { AscendingInts(uniq); }
      assert Distinct(s) && Distinct(sel) ==> Distinct(Gather(s, j)) by {
        if Distinct(s) && Distinct(sel) { GatherDistinct(s, j); }
      }
      Success(Gather(s, j))
  }

  /** Lines 522-528: the rows in the order a permutation gives, when asked to randomize. */
  function Shuffled(i3: seq<nat>, randomize: bool, permute: Permuter): (r: seq<nat>)
    requires Permutes(permute)
    ensures |r| == |i3|
    ensures forall x :: x in r <==> x in i3
    ensures Distinct(i3) ==> Distinct(r)
    ensures !randomize ==> r == i3
  {
    if randomize then
      var p := permute(|i3|);
      Reorder(i3, p);
      Gather(i3, p)
    else i3
  }

  /**
   * The rows transform returns, as indices of the scaled, unfiltered batch
   * (lines 484-538): the survivors of both filters, then the by-shot hold-back,
   * the random order and the prefix hold-back.
   */
  function TransformIndex(b: Batch, tThresh: Option<real>, randomize: bool, h: real, byShot: bool,
                          permute: Permuter, pick: Picker): (r: Result<seq<nat>, PrepError>)
    requires Lockstep(b) && Permutes(permute)
    ensures r.Success? ==> InBounds(r.value, |b.shot|)
  {
    var i2 := Survivors(b, tThresh);
    var held := if h > 0.0 && byShot then ByShotStep(b, i2, h, pick) else Success(i2);
    match held
    case Failure(e) => Failure(e)
    case Success(i3) =>
      var i4 := Shuffled(i3, randomize, permute);
      Success(if h > 0.0 && !byShot then PySlice(i4, 0, HoldBackCount(h, |i4|)) else i4)
  }

  /** Reordering by a permutation keeps the same entries, and keeps them distinct. */
  lemma Reorder(s: seq<nat>, p: seq<nat>)
    requires |p| == |s| && InBounds(p, |s|) && Distinct(p) && forall k :: 0 <= k < |s| ==> k in p
    ensures forall x :: x in Gather(s, p) <==> x in s
    ensures Distinct(s) ==> Distinct(Gather(s, p))
  {
    var r := Gather(s, p);
    forall x | x in s ensures x in r {
      var k :| 0 <= k < |s| && s[k] == x;
      assert k in p;
      var m :| 0 <= m < |p| && p[m] == k;
      assert r[m] == x;
    }
    if Distinct(s) {
      GatherDistinct(s, p);
    }
  }

  /** Gathered shots of the survivors are the batch's shots at those rows. */
  lemma ByShotPicked(shot: seq<int>, s: seq<nat>, sel: seq<int>)
    requires InBounds(s, |shot|)
    requires forall k :: k in ByShotIndex(Gather(shot, s), sel) <==> 0 <= k < |s| && Gather(shot, s)[k] in sel
    ensures forall i :: i in Gather(s, ByShotIndex(Gather(shot, s), sel)) <==> i in s && shot[i] in sel
  {
    var j := ByShotIndex(Gather(shot, s), sel);
    var g := Gather(s, j);
    forall i ensures i in g <==> i in s && shot[i] in sel {
      if i in s && shot[i] in sel {
        var k :| 0 <= k < |s| && s[k] == i;
        assert Gather(shot, s)[k] == shot[i];
        assert k in j;
        var m :| 0 <= m < |j| && j[m] == k;
        assert g[m] == i;
      }
      if i in g {
        var m :| 0 <= m < |g| && g[m] == i;
        assert Gather(shot, s)[j[m]] == shot[i];
      }
    }
  }

  lemma AscendingInts(u: seq<int>)
    requires StrictlyIncreasing(u)
    ensures Distinct(u)
  {
  }

  /** Indices taken from distinct indices by distinct positions are distinct. */
  lemma GatherDistinct(s: seq<nat>, idx: seq<nat>)
    requires Distinct(s) && Distinct(idx) && InBounds(idx, |s|)
    ensures Distinct(Gather(s, idx))
  {
  }

  lemma AscendingDistinct(s: seq<nat>)
    requires Ascending(s)
    ensures Distinct(s)
  {
  }

  /** Every row transform returns passed both filters, and no row of the batch is returned twice. */
  lemma TransformIndexSound(b: Batch, tThresh: Option<real>, randomize: bool, h: real, byShot: bool,
                            permute: Permuter, pick: Picker)
    requires Lockstep(b) && Permutes(permute) && Picks(pick)
    requires TransformIndex(b, tThresh, randomize, h, byShot, permute, pick).Success?
    ensures var idx := TransformIndex(b, tThresh, randomize, h, byShot, permute, pick).value;
      && Distinct(idx)
      && (forall k :: 0 <= k < |idx| ==> Clean(b, tThresh, idx[k]))
  {
    var i2 := Survivors(b, tThresh);
    SurvivorsAreClean(b, tThresh);
    AscendingDistinct(i2);
    var held := if h > 0.0 && byShot then ByShotStep(b, i2, h, pick) else Success(i2);
    HeldSound(b, i2, h, byShot, pick);
    var i4 := Shuffled(held.value, randomize, permute);
    var idx := TransformIndex(b, tThresh, randomize, h, byShot, permute, pick).value;
    assert idx == if h > 0.0 && !byShot then PySlice(i4, 0, HoldBackCount(h, |i4|)) else i4;
    PrefixSound(i4, HoldBackCount(h, |i4|));
    forall k | 0 <= k < |idx| ensures Clean(b, tThresh, idx[k]) {
      assert idx[k] in i4;
    }
  }

  /** The rows left after the by-shot step are distinct survivors. */
  lemma HeldSound(b: Batch, i2: seq<nat>, h: real, byShot: bool, pick: Picker)
    requires Lockstep(b) && InBounds(i2, |b.shot|) && Distinct(i2) && Picks(pick)
    requires (if h > 0.0 && byShot then ByShotStep(b, i2, h, pick) else Success(i2)).Success?
    ensures var held := (if h > 0.0 && byShot then ByShotStep(b, i2, h, pick) else Success(i2)).value;
      Distinct(held) && forall x :: x in held ==> x in i2
  {
    if h > 0.0 && byShot {
      HoldBackCountBounds(h, |Unique(Gather(b.shot, i2))|);
    }
  }

  /** A leading slice of distinct rows is distinct and draws only from them. */
  lemma PrefixSound(s: seq<nat>, n: int)
    requires Distinct(s)
    ensures Distinct(PySlice(s, 0, n))
    ensures forall k :: 0 <= k < |PySlice(s, 0, n)| ==> PySlice(s, 0, n)[k] in s
  {
  }

  /** The batch transform returns has, row by row, time past the threshold when one is set and no NaN in X or in Y. */
  lemma TransformedRowsClean(b: Batch, tThresh: Option<real>, randomize: bool, h: real, byShot: bool,
                             permute: Permuter, pick: Picker)
    requires Lockstep(b) && Permutes(permute) && Picks(pick)
    requires TransformIndex(b, tThresh, randomize, h, byShot, permute, pick).Success?
    ensures var r := Take(b, TransformIndex(b, tThresh, randomize, h, byShot, permute, pick).value);
      forall k :: 0 <= k < |r.shot| ==>
        && (tThresh.Some? ==> r.time[k] > tThresh.value)
        && !r.x.rows[k].hasNaN && !r.y.rows[k].hasNaN
  {
    TransformIndexSound(b, tThresh, randomize, h, byShot, permute, pick);
  }

  /**
   * With no hold-back (fraction <= 0) every surviving row is returned exactly once,
   * in ascending order unless the rows are randomized.
   */
  lemma NoHoldBackKeepsSurvivors(b: Batch, tThresh: Option<real>, randomize: bool, h: real, byShot: bool,
                                 permute: Permuter, pick: Picker)
    requires Lockstep(b) && Permutes(permute) && h <= 0.0
    ensures TransformIndex(b, tThresh, randomize, h, byShot, permute, pick).Success?
    ensures var idx := TransformIndex(b, tThresh, randomize, h, byShot, permute, pick).value;
      && |idx| == |Survivors(b, tThresh)|
      && (forall i :: i in idx <==> i in Survivors(b, tThresh))
      && (!randomize ==> idx == Survivors(b, tThresh))
  {
    var s := Survivors(b, tThresh);
    assert TransformIndex(b, tThresh, randomize, h, byShot, permute, pick) == Success(Shuffled(s, randomize, permute));
  }

  /**
   * The prefix hold-back (not by shot) keeps the first int((1 - h) * n) of the n
   * surviving rows (after randomizing when asked); nothing else is dropped.
   */
  lemma PrefixHoldBack(b: Batch, tThresh: Option<real>, randomize: bool, h: real,
                       permute: Permuter, pick: Picker)
    requires Lockstep(b) && Permutes(permute) && 0.0 < h <= 1.0
    ensures TransformIndex(b, tThresh, randomize, h, false, permute, pick).Success?
    ensures var idx := TransformIndex(b, tThresh, randomize, h, false, permute, pick).value;
      var s := Survivors(b, tThresh);
      && |idx| == HoldBackCount(h, |s|) <= |s|
      && (forall k :: 0 <= k < |idx| ==> idx[k] in s)
      && (!randomize ==> idx == s[..|idx|])
  {
    var s := Survivors(b, tThresh);
    HoldBackCountBounds(h, |s|);
    var i4 := Shuffled(s, randomize, permute);
    var n := HoldBackCount(h, |s|);
    assert TransformIndex(b, tThresh, randomize, h, false, permute, pick) == Success(PySlice(i4, 0, n));
    assert PySlice(i4, 0, n) == i4[..n];
    assert forall k :: 0 <= k < n ==> i4[..n][k] in s;
  }

  /**
   * The by-shot hold-back draws int((1 - h) * U) of the U distinct surviving shots
   * and keeps exactly the surviving rows of the drawn shots; it fails only when
   * that count is negative, which needs h > 1.
   */
  lemma ByShotHoldBack(b: Batch, tThresh: Option<real>, randomize: bool, h: real,
                       permute: Permuter, pick: Picker)
    requires Lockstep(b) && Permutes(permute) && h > 0.0
    ensures var s := Survivors(b, tThresh);
      var uniq := Unique(Gather(b.shot, s));
      var sz := HoldBackCount(h, |uniq|);
      var r := TransformIndex(b, tThresh, randomize, h, true, permute, pick);
      && (r.Failure? <==> sz < 0)
      && (h <= 1.0 ==> r.Success?)
      && (r.Success? ==>
            && 0 <= sz <= |uniq|
            && forall i :: i in r.value <==> i in s && b.shot[i] in pick(uniq, sz))
  {
    var s := Survivors(b, tThresh);
    var uniq := Unique(Gather(b.shot, s));
    HoldBackCountBounds(h, |uniq|);
  }

  /**
   * The by-shot hold-back draws no shot when (1 - h) * U < 1, for instance with one
   * surviving shot and h = 0.5: the loop as written then leaves idx unbound, while
   * the corrected index returns no row.
   */
  lemma NoShotDrawn(shot: seq<int>, pick: Picker)
    requires Picks(pick)
    ensures HoldBackCount(0.5, 1) == 0
    ensures forall u: seq<int> :: Distinct(u) ==> pick(u, 0) == []
    ensures ByShotIndex(shot, []) == []
  {
    forall u: seq<int> | Distinct(u) ensures pick(u, 0) == [] {
      assert |pick(u, 0)| == 0;
    }
  }

  /** With (1 - h) * U below 1 the corrected by-shot hold-back returns an empty batch rather than failing. */
  lemma ByShotEmptyDraw(b: Batch, tThresh: Option<real>, randomize: bool, h: real,
                        permute: Permuter, pick: Picker)
    requires Lockstep(b) && Permutes(permute) && Picks(pick) && 0.0 < h <= 1.0
    requires HoldBackCount(h, |Unique(Gather(b.shot, Survivors(b, tThresh)))|) == 0
    ensures TransformIndex(b, tThresh, randomize, h, true, permute, pick) == Success([])
  {
    var s := Survivors(b, tThresh);
    var uniq := Unique(Gather(b.shot, s));
    AscendingInts(uniq);
    assert |pick(uniq, 0)| == 0;
  }

  /** The pre-processor: the feature and target names, the optional time threshold and the two fitted scalers. */
  class DataPreProcess {
    const xnames: seq<string>
    const ynames: seq<string>
    const tThresh: Option<real>
    const xScaler: Scaler
    const yScaler: Scaler

    predicate Valid() {
      ValidScaler(xScaler) && ValidScaler(yScaler)
    }

    /** __init__ (lines 437-454) with the scalers already fitted. */
    constructor (xnames: seq<string>, ynames: seq<string>, tThresh: Option<real>, xScaler: Scaler, yScaler: Scaler)
      requires ValidScaler(xScaler) && ValidScaler(yScaler)
      ensures Valid()
      ensures this.xnames == xnames && this.ynames == ynames && this.tThresh == tThresh
      ensures this.xScaler == xScaler && this.yScaler == yScaler
    {
      this.xnames, this.ynames, this.tThresh := xnames, ynames, tThresh;
      this.xScaler, this.yScaler := xScaler, yScaler;
    }

    /** makeX (lines 456-470): grows Xdata block by block with hstack. */
    method MakeX(datadict: Table, names: seq<string>) returns (r: Result<Mat, PrepError>)
      requires WellShaped(datadict)
      ensures r == Stacked(datadict, names)
    {
      var xdata: Option<Mat> := None;
      for i := 0 to |names|
        invariant i == 0 <==> xdata.None?
        invariant i > 0 ==> Stacked(datadict, names[..i]) == Success(xdata.value)
      {
        var x := Lookup(datadict, names[i]);
        assert names[..i + 1][..i] == names[..i] && names[..i + 1][i] == names[i];
        if x.Failure? {
          StackedFailurePersists(datadict, names, i + 1);
          return Failure(x.error);
        }
        if i == 0 {
          xdata := Some(x.value);
        } else {
          if |xdata.value.rows| != |x.value.rows| {
            StackedFailurePersists(datadict, names, i + 1);
            return Failure(RowMismatch);
          }
          xdata := Some(HStack(xdata.value, x.value));
        }
      }
      if xdata.None? {
        return Failure(NoNames);
      }
      assert names[..|names|] == names;
      r := Success(xdata.value);
    }

    /** Lines 474-481: X and Y built from the table and scaled, with shot and time as given. */
    function Prepared(data: Table): (r: Result<Batch, PrepError>)
      requires Valid() && Aligned(data)
      ensures r.Failure? <==>
        || Stacked(data, xnames).Failure? || Stacked(data, ynames).Failure?
        || Empty(Stacked(data, xnames).value) || |xScaler.mean| != Stacked(data, xnames).value.width
        || Empty(Stacked(data, ynames).value) || |yScaler.mean| != Stacked(data, ynames).value.width
      ensures r.Success? ==> Lockstep(r.value) && r.value.shot == data.shot && r.value.time == data.time
      ensures r.Success? ==>
        && r.value.x == Scale(xScaler, Stacked(data, xnames).value).value
        && r.value.y == Scale(yScaler, Stacked(data, ynames).value).value
    {
      match Stacked(data, xnames)
      case Failure(e) => Failure(e)
      case Success(x) =>
        match Stacked(data, ynames)
        case Failure(e) => Failure(e)
        case Success(y) =>
          match Scale(xScaler, x)
          case Failure(e) => Failure(e)
          case Success(xs) =>
            match Scale(yScaler, y)
            case Failure(e) => Failure(e)
            case Success(ys) => Success(Batch(xs, ys, data.shot, data.time))
    }

    /** Lines 474-481 as statements: makeX for X and for Y, then the two scalers. */
    method Prepare(data: Table) returns (r: Result<Batch, PrepError>)
      requires Valid() && Aligned(data)
      ensures r == Prepared(data)
    {
      var X := MakeX(data, xnames);
      if X.Failure? {
        return Failure(X.error);
      }
      var Y := MakeX(data, ynames);
      if Y.Failure? {
        return Failure(Y.error);
      }
      var xs := Scale(xScaler, X.value);
      if xs.Failure? {
        return Failure(xs.error);
      }
      var ys := Scale(yScaler, Y.value);
      if ys.Failure? {
        return Failure(ys.error);
      }
      r := Success(Batch(xs.value, ys.value, data.shot, data.time));
    }

    /** Lines 484-497: keep the rows past t_thresh when it is set, then the rows with no NaN in X or Y. */
    method DropRows(b0: Batch) returns (cur: Batch)
      requires Lockstep(b0)
      ensures cur == Take(b0, Survivors(b0, tThresh))
    {
      var x, y, time, shot := b0.x, b0.y, b0.time, b0.shot;
      ghost var idx: seq<nat> := Range(|shot|);
      TakeAll(b0);
      if tThresh.Some? {
        var iuse := PastThreshold(time, tThresh.value);
        TakeStep(b0, idx, iuse, Batch(x, y, shot, time));
        x, y, time, shot := SelectRows(x, iuse), SelectRows(y, iuse), Gather(time, iuse), Gather(shot, iuse);
        idx := iuse;
      }
      assert idx == ThresholdStep(b0, tThresh);
      var keep := NoNaN(x, y);
      TakeStep(b0, idx, keep, Batch(x, y, shot, time));
      x, y, time, shot := SelectRows(x, keep), SelectRows(y, keep), Gather(time, keep), Gather(shot, keep);
      idx := Gather(idx, keep);
      assert idx == Survivors(b0, tThresh);
      cur := Batch(x, y, shot, time);
    }

    /**
     * transform (lines 472-540): the rows of the prepared batch that TransformIndex
     * names, with X, Y, shot and time narrowed together at every step.
     */
    method Transform(data: Table, randomize: bool, h: real, byShot: bool, permute: Permuter, pick: Picker)
      returns (r: Result<Batch, PrepError>)
      requires Valid() && Aligned(data) && Permutes(permute)
      ensures r.Failure? <==>
        Prepared(data).Failure? || TransformIndex(Prepared(data).value, tThresh, randomize, h, byShot, permute, pick).Failure?
      ensures r.Success? ==>
        r.value == Take(Prepared(data).value, TransformIndex(Prepared(data).value, tThresh, randomize, h, byShot, permute, pick).value)
    {
      var prepared := Prepare(data);
      if prepared.Failure? {
        return Failure(prepared.error);
      }
      var b0 := prepared.value;
      var cur := DropRows(b0);
      ghost var held := Survivors(b0, tThresh);
      if h > 0.0 && byShot {
        var kept := HoldBackShots(b0, held, cur, h, pick);
        if kept.Failure? {
          return Failure(kept.error);
        }
        cur := kept.value;
        held := ByShotStep(b0, held, h, pick).value;
      }
      cur := Randomize(b0, held, cur, randomize, permute);
      ghost var i4 := Shuffled(held, randomize, permute);
      if h > 0.0 && !byShot {
        cur := KeepPrefix(b0, i4, cur, h);
      }
      r := Success(cur);
    }
  }

  /**
   * Lines 499-515 on the current arrays: draw sz = int((1 - h) * U) of the U
   * distinct shots and keep the rows of the drawn shots. When no shot is drawn
   * the kept rows are none (see ByShotIndexAsWritten for the loop as written).
   */
  method HoldBackShots(ghost b0: Batch, ghost idx: seq<nat>, cur: Batch, h: real, pick: Picker)
    returns (r: Result<Batch, PrepError>)
    requires Lockstep(b0) && InBounds(idx, |b0.shot|) && cur == Take(b0, idx)
    ensures r.Failure? <==> ByShotStep(b0, idx, h, pick).Failure?
    ensures r.Success? ==> r.value == Take(b0, ByShotStep(b0, idx, h, pick).value)
  {
    var uniqshots := Unique(cur.shot);
    var sz := HoldBackCount(h, |uniqshots|);
    if sz < 0 {
      return Failure(NegativeSize);
    }
    var selectShots := pick(uniqshots, sz);
    var drawn := ByShotIndexAsWritten(cur.shot, selectShots);
    var sidx := if drawn.Success? then drawn.value else [];
    assert sidx == ByShotIndex(cur.shot, selectShots);
    ByShotMembers(cur.shot, selectShots);
    TakeStep(b0, idx, sidx, cur);
    r := Success(Batch(SelectRows(cur.x, sidx), SelectRows(cur.y, sidx), Gather(cur.shot, sidx), Gather(cur.time, sidx)));
  }

  /** Lines 522-528: reorder the current arrays by a permutation when asked to randomize. */
  method Randomize(ghost b0: Batch, ghost idx: seq<nat>, cur: Batch, randomize: bool, permute: Permuter)
    returns (next: Batch)
    requires Lockstep(b0) && InBounds(idx, |b0.shot|) && cur == Take(b0, idx) && Permutes(permute)
    ensures next == Take(b0, Shuffled(idx, randomize, permute))
  {
    next := cur;
    if randomize {
      var perm := permute(|cur.x.rows|);
      TakeStep(b0, idx, perm, cur);
      next := Batch(SelectRows(cur.x, perm), SelectRows(cur.y, perm), Gather(cur.shot, perm), Gather(cur.time, perm));
    }
  }

  /** Lines 531-538: keep the first int((1 - h) * n) rows of the current arrays. */
  method KeepPrefix(ghost b0: Batch, ghost idx: seq<nat>, cur: Batch, h: real) returns (next: Batch)
    requires Lockstep(b0) && InBounds(idx, |b0.shot|) && cur == Take(b0, idx)
    ensures next == Take(b0, PySlice(idx, 0, HoldBackCount(h, |idx|)))
  {
    var nkeep := HoldBackCount(h, |cur.x.rows|);
    TakeSlice(b0, idx, nkeep);
    next := Batch(Mat(cur.x.width, PySlice(cur.x.rows, 0, nkeep)), Mat(cur.y.width, PySlice(cur.y.rows, 0, nkeep)),
                  PySlice(cur.shot, 0, nkeep), PySlice(cur.time, 0, nkeep));
  }
}
