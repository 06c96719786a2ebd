/**
 * train_val_test_split (pertnet/net/pertnet_utils.py, lines 15-51): the sorted
 * distinct shots are cut into three consecutive slices by truncated fractions,
 * rows are picked by range tests on their shot number, and the same index
 * vector is applied to shot, time and every signal's coeff_.
 */
module ShotSplit {
  import opened Results
  import opened Indexing
  import opened DataModel

  /** trainshots[-1], valshots[0] or testshots[0] on an empty slice raises IndexError. */
  datatype SplitError = EmptySplit

  /** Lines 22-24: ntrain and nval by int() of the fraction times the shot count, ntest the rest. */
  datatype Counts = Counts(train: int, val: int, test: int)

  function ShotCounts(ftrain: real, fval: real, u: nat): (c: Counts)
    ensures c.train + c.val + c.test == u
  {
    var ntrain := Trunc(ftrain * u as real);
    var nval := Trunc(fval * u as real);
    Counts(ntrain, nval, u - ntrain - nval)
  }

  /**
   * With non-negative fractions ntrain and nval are the floors of their shares of the
   * shots; when the fractions also sum to at most 1, ntest is not negative either.
   */
  lemma CountsNonNegative(ftrain: real, fval: real, u: nat)
    requires 0.0 <= ftrain && 0.0 <= fval
    ensures var c := ShotCounts(ftrain, fval, u);
      && 0 <= c.train && 0 <= c.val
      && c.train as real <= ftrain * u as real < c.train as real + 1.0
      && c.val as real <= fval * u as real < c.val as real + 1.0
    ensures ftrain + fval <= 1.0 ==> 0 <= ShotCounts(ftrain, fval, u).test
  {
    var n := u as real;
    var a, b := ftrain * n, fval * n;
    assert 0.0 <= a && 0.0 <= b by {
      assert 0.0 <= n;
    }
    var c := ShotCounts(ftrain, fval, u);
    assert c.train == Trunc(a) && c.val == Trunc(b);
    if ftrain + fval <= 1.0 {
      assert a + b <= n by {
        var slack := 1.0 - (ftrain + fval);
        assert 0.0 <= slack && 0.0 <= n;
        assert 0.0 <= slack * n;
        assert n - (a + b) == slack * n;
      }
      assert c.train as real <= a && c.val as real <= b;
    }
  }

  /** The three shot lists of lines 26-28. */
  datatype ShotLists = ShotLists(train: seq<int>, val: seq<int>, test: seq<int>)

  /** uniqshots[0:ntrain], uniqshots[ntrain:ntrain+nval] and uniqshots[ntrain+nval:], with Python slice bounds. */
  function ShotSlices(uniq: seq<int>, c: Counts): (l: ShotLists)
    ensures 0 <= c.train <= |uniq| ==> |l.train| == c.train
    ensures 0 <= c.train && 0 <= c.val && c.train + c.val <= |uniq| ==>
      |l.val| == c.val && |l.test| == |uniq| - c.train - c.val
  {
    ShotLists(PySlice(uniq, 0, c.train), PySlice(uniq, c.train, c.train + c.val), PySlice(uniq, c.train + c.val, |uniq|))
  }

  /** With non-negative counts the three slices are consecutive and together give back the sorted shot list. */
  lemma SlicesConcatenate(uniq: seq<int>, c: Counts)
    requires 0 <= c.train && 0 <= c.val
    ensures var l := ShotSlices(uniq, c); l.train + l.val + l.test == uniq
  {
    var a := SliceBound(c.train, |uniq|);
    var b := SliceBound(c.train + c.val, |uniq|);
    assert uniq[0..a] + uniq[a..b] + uniq[b..|uniq|] == uniq;
  }

  /** Each list is a run of consecutive entries of the sorted shot list. */
  lemma SlicesContiguous(uniq: seq<int>, c: Counts)
    ensures var l := ShotSlices(uniq, c);
      && (exists a, b :: 0 <= a <= b <= |uniq| && l.train == uniq[a..b])
      && (exists a, b :: 0 <= a <= b <= |uniq| && l.val == uniq[a..b])
      && (exists a, b :: 0 <= a <= b <= |uniq| && l.test == uniq[a..b])
  {
    var l := ShotSlices(uniq, c);
    SliceIsRun(uniq, 0, c.train);
    SliceIsRun(uniq, c.train, c.train + c.val);
    SliceIsRun(uniq, c.train + c.val, |uniq|);
  }

  lemma SliceIsRun(s: seq<int>, lo: int, hi: int)
    ensures exists a, b :: 0 <= a <= b <= |s| && PySlice(s, lo, hi) == s[a..b]
  {
    var a, b := SliceBound(lo, |s|), SliceBound(hi, |s|);
    if a <= b {
      assert PySlice(s, lo, hi) == s[a..b];
    } else {
      assert PySlice(s, lo, hi) == s[0..0];
    }
  }

  /** np.where((shots >= lo) & (shots <= hi))[0]; the train list has no lower test. */
  function InRange(shots: seq<int>, lo: Option<int>, hi: int): (r: seq<nat>)
    ensures InBounds(r, |shots|) && Ascending(r)
    ensures forall i :: 0 <= i < |shots| ==>
      (i in r <==> (lo.None? || lo.value <= shots[i]) && shots[i] <= hi)
  {
    Where(seq(|shots|, i requires 0 <= i < |shots| => (lo.None? || lo.value <= shots[i]) && shots[i] <= hi))
  }

  /** The row index vectors itrain, ival and itest. */
  datatype SplitIndex = SplitIndex(train: seq<nat>, val: seq<nat>, test: seq<nat>)

  /** Lines 18-32: counts, slices and the range tests, or the IndexError an empty slice raises. */
  function SplitIndices(shots: seq<int>, ftrain: real, fval: real): (r: Result<SplitIndex, SplitError>)
    ensures var l := ShotSlices(Unique(shots), ShotCounts(ftrain, fval, |Unique(shots)|));
      r.Failure? <==> l.train == [] || l.val == [] || l.test == []
    ensures r.Success? ==>
      InBounds(r.value.train, |shots|) && InBounds(r.value.val, |shots|) && InBounds(r.value.test, |shots|)
    ensures r.Success? ==> Ascending(r.value.train) && Ascending(r.value.val) && Ascending(r.value.test)
  {
    var uniq := Unique(shots);
    var l := ShotSlices(uniq, ShotCounts(ftrain, fval, |uniq|));
    if l.train == [] || l.val == [] || l.test == [] then Failure(EmptySplit)
    else
      Success(SplitIndex(
        InRange(shots, None, l.train[|l.train| - 1]),
        InRange(shots, Some(l.val[0]), l.val[|l.val| - 1]),
        InRange(shots, Some(l.test[0]), l.test[|l.test| - 1])))
  }

  /** In a strictly increasing list, comparing two entries compares their positions. */
  lemma OrderByPosition(u: seq<int>, p: int, q: int)
    requires StrictlyIncreasing(u) && 0 <= p < |u| && 0 <= q < |u|
    ensures u[p] <= u[q] <==> p <= q
  {
  }

  /** A value of a strictly increasing list lies between the ends of a run of it exactly when it is in the run. */
  lemma RangeIsRun(u: seq<int>, a: int, b: int, x: int)
    requires StrictlyIncreasing(u) && 0 <= a < b <= |u| && x in u
    ensures u[a] <= x <= u[b - 1] <==> x in u[a..b]
  {
    var p :| 0 <= p < |u| && u[p] == x;
    OrderByPosition(u, a, p);
    OrderByPosition(u, p, b - 1);
    if x in u[a..b] {
      var q :| a <= q < b && u[q] == x;
      OrderByPosition(u, p, q);
      OrderByPosition(u, q, p);
    }
  }

  /** One range test over a run u[a..b] of the sorted distinct shots selects the rows whose shot is in the run. */
  lemma RangeSelectsRun(shots: seq<int>, u: seq<int>, a: int, b: int, run: seq<int>, lo: Option<int>, hi: int)
    requires StrictlyIncreasing(u) && 0 <= a < b <= |u| && run == u[a..b] && hi == u[b - 1]
    requires forall i :: 0 <= i < |shots| ==> shots[i] in u
    requires lo == Some(u[a]) || (lo.None? && a == 0)
    ensures forall i :: 0 <= i < |shots| ==> (i in InRange(shots, lo, hi) <==> shots[i] in run)
  {
    forall i | 0 <= i < |shots|
      ensures i in InRange(shots, lo, hi) <==> shots[i] in run
    {
      RangeIsRun(u, a, b, shots[i]);
      var p :| 0 <= p < |u| && u[p] == shots[i];
      OrderByPosition(u, 0, p);
    }
  }

  /** The range test built from the ends of one non-empty slice of the sorted distinct shots selects the rows whose shot is in the slice. */
  lemma SliceRangeIsMembership(shots: seq<int>, lo: int, hi: int, lower: bool)
    requires PySlice(Unique(shots), lo, hi) != []
    requires lower || lo == 0
    ensures var run := PySlice(Unique(shots), lo, hi);
      forall i :: 0 <= i < |shots| ==>
        (i in InRange(shots, if lower then Some(run[0]) else None, run[|run| - 1]) <==> shots[i] in run)
  {
    var u := Unique(shots);
    var run := PySlice(u, lo, hi);
    var a, b := RunBounds(u, lo, hi);
    var bound: Option<int> := if lower then Some(run[0]) else None;
    EveryShotListed(shots);
    RangeSelectsRun(shots, u, a, b, run, bound, run[|run| - 1]);
  }

  /** A non-empty Python slice is a run u[a..b] with its ends at u[a] and u[b - 1]. */
  lemma RunBounds(u: seq<int>, lo: int, hi: int) returns (a: nat, b: nat)
    requires PySlice(u, lo, hi) != []
    ensures a < b <= |u| && PySlice(u, lo, hi) == u[a..b]
    ensures PySlice(u, lo, hi)[0] == u[a] && PySlice(u, lo, hi)[|PySlice(u, lo, hi)| - 1] == u[b - 1]
    ensures lo == 0 ==> a == 0
  {
    a, b := SliceBound(lo, |u|), SliceBound(hi, |u|);
  }

  /** Every row's shot is among the sorted distinct shots. */
  lemma EveryShotListed(shots: seq<int>)
    ensures forall i :: 0 <= i < |shots| ==> shots[i] in Unique(shots)
  {
    forall i | 0 <= i < |shots| ensures shots[i] in Unique(shots) {
      assert shots[i] in shots;
    }
  }

  /**
   * The range tests select exactly the rows whose shot is in the list:
   * every row's shot is among the sorted distinct shots, and each list is a run of them.
   */
  lemma RangeTestIsMembership(shots: seq<int>, ftrain: real, fval: real)
    requires SplitIndices(shots, ftrain, fval).Success?
    ensures var ix := SplitIndices(shots, ftrain, fval).value;
      var l := ShotSlices(Unique(shots), ShotCounts(ftrain, fval, |Unique(shots)|));
      forall i :: 0 <= i < |shots| ==>
        && (i in ix.train <==> shots[i] in l.train)
        && (i in ix.val <==> shots[i] in l.val)
        && (i in ix.test <==> shots[i] in l.test)
  {
    var u, c, l, ix := SplitParts(shots, ftrain, fval);
    RunSelects(shots, 0, c.train, false, l.train, ix.train);
    RunSelects(shots, c.train, c.train + c.val, true, l.val, ix.val);
    RunSelects(shots, c.train + c.val, |u|, true, l.test, ix.test);
  }

  /** A successful split's lists are the three slices, and its index vectors are the range tests over their ends. */
  lemma SplitParts(shots: seq<int>, ftrain: real, fval: real) returns (u: seq<int>, c: Counts, l: ShotLists, ix: SplitIndex)
    requires SplitIndices(shots, ftrain, fval).Success?
    ensures u == Unique(shots) && c == ShotCounts(ftrain, fval, |u|) && l == ShotSlices(u, c)
    ensures ix == SplitIndices(shots, ftrain, fval).value
    ensures l.train == PySlice(u, 0, c.train) && l.val == PySlice(u, c.train, c.train + c.val)
    ensures l.test == PySlice(u, c.train + c.val, |u|)
    ensures l.train != [] && l.val != [] && l.test != []
    ensures ix.train == InRange(shots, None, l.train[|l.train| - 1])
    ensures ix.val == InRange(shots, Some(l.val[0]), l.val[|l.val| - 1])
    ensures ix.test == InRange(shots, Some(l.test[0]), l.test[|l.test| - 1])
  {
    u := Unique(shots);
    c := ShotCounts(ftrain, fval, |u|);
    l := ShotSlices(u, c);
    ix := SplitIndices(shots, ftrain, fval).value;
  }

  /** SliceRangeIsMembership with the slice and the selected rows named. */
  lemma RunSelects(shots: seq<int>, lo: int, hi: int, lower: bool, run: seq<int>, sel: seq<nat>)
    requires run == PySlice(Unique(shots), lo, hi) && run != [] && (lower || lo == 0)
    requires sel == InRange(shots, if lower then Some(run[0]) else None, run[|run| - 1])
    ensures forall i :: 0 <= i < |shots| ==> (i in sel <==> shots[i] in run)
  {
    SliceRangeIsMembership(shots, lo, hi, lower);
  }

  /**
   * Whatever the fractions, when no list is empty every row lands in exactly one
   * of itrain, ival and itest: the three non-empty slices cut the sorted shots at two points.
   */
  lemma EveryRowInExactlyOne(shots: seq<int>, ftrain: real, fval: real)
    requires SplitIndices(shots, ftrain, fval).Success?
    ensures var ix := SplitIndices(shots, ftrain, fval).value;
      forall i :: 0 <= i < |shots| ==>
        && (i in ix.train || i in ix.val || i in ix.test)
        && !(i in ix.train && i in ix.val)
        && !(i in ix.train && i in ix.test)
        && !(i in ix.val && i in ix.test)
  {
    var u := Unique(shots);
    var c := ShotCounts(ftrain, fval, |u|);
    var l := ShotSlices(u, c);
    RangeTestIsMembership(shots, ftrain, fval);
    var p, q := SlicesAtCuts(u, c);
    forall i | 0 <= i < |shots|
      ensures && (shots[i] in l.train || shots[i] in l.val || shots[i] in l.test)
              && !(shots[i] in l.train && shots[i] in l.val)
              && !(shots[i] in l.train && shots[i] in l.test)
              && !(shots[i] in l.val && shots[i] in l.test)
    {
      InExactlyOneRun(u, p, q, shots[i]);
    }
  }

  /** Three non-empty slices, whatever the signs of the counts, are the list cut at two points. */
  lemma SlicesAtCuts(u: seq<int>, c: Counts) returns (p: nat, q: nat)
    requires var l := ShotSlices(u, c); l.train != [] && l.val != [] && l.test != []
    ensures p <= q <= |u|
    ensures var l := ShotSlices(u, c); l.train == u[..p] && l.val == u[p..q] && l.test == u[q..]
  {
    p, q := SliceBound(c.train, |u|), SliceBound(c.train + c.val, |u|);
  }

  /** Cut at two points, a strictly increasing list puts each of its values in exactly one of the three runs. */
  lemma InExactlyOneRun(u: seq<int>, p: int, q: int, x: int)
    requires StrictlyIncreasing(u) && 0 <= p <= q <= |u| && x in u
    ensures x in u[..p] || x in u[p..q] || x in u[q..]
    ensures !(x in u[..p] && x in u[p..q]) && !(x in u[..p] && x in u[q..]) && !(x in u[p..q] && x in u[q..])
  {
    var j :| 0 <= j < |u| && u[j] == x;
    forall k | 0 <= k < |u| && u[k] == x ensures k == j {
      OrderByPosition(u, j, k);
      OrderByPosition(u, k, j);
    }
    if j < p {
      assert u[..p][j] == x;
    } else if j < q {
      assert u[p..q][j - p] == x;
    } else {
      assert u[q..][j - q] == x;
    }
  }

  /** The table with the entries named in done already replaced by their rows at idx. */
  function PartlySelected(t: Table, idx: seq<nat>, done: set<string>): Table
    requires Aligned(t) && InBounds(idx, |t.shot|)
  {
    Table(if "shot" in done then Gather(t.shot, idx) else t.shot,
          if "time" in done then Gather(t.time, idx) else t.time,
          map key | key in t.signals ::
            if key in done then t.signals[key].(coeff := SelectRows(t.signals[key].coeff, idx)) else t.signals[key])
  }

  /** Replaces one entry of a partly selected copy, as one pass of the loop over keys does. */
  function SelectKey(copy: Table, t: Table, idx: seq<nat>, key: string): Table
    requires Aligned(t) && InBounds(idx, |t.shot|)
  {
    if key == "time" || key == "shot" then
      if key == "time" then copy.(time := Gather(t.time, idx)) else copy.(shot := Gather(t.shot, idx))
    else if key in t.signals then
      copy.(signals := copy.signals[key := t.signals[key].(coeff := SelectRows(t.signals[key].coeff, idx))])
    else copy
  }

  lemma SelectKeyStep(t: Table, idx: seq<nat>, done: set<string>, key: string)
    requires Aligned(t) && InBounds(idx, |t.shot|)
    ensures SelectKey(PartlySelected(t, idx, done), t, idx, key) == PartlySelected(t, idx, done + {key})
  {
    var before := PartlySelected(t, idx, done);
    var after := PartlySelected(t, idx, done + {key});
    if key != "time" && key != "shot" && key in t.signals {
      assert before.signals[key := t.signals[key].(coeff := SelectRows(t.signals[key].coeff, idx))] == after.signals;
    }
  }

  /**
   * train_val_test_split: the three tables are deep copies of the input in which
   * shot, time and each coeff_ are replaced, key by key, by their rows at the
   * split's index vectors.
   */
  method TrainValTestSplit(data: Table, ftrain: real, fval: real, ftest: real)
    returns (r: Result<(Table, Table, Table), SplitError>)
    requires Aligned(data)
    ensures r.Failure? <==> SplitIndices(data.shot, ftrain, fval).Failure?
    ensures r.Success? ==>
      var ix := SplitIndices(data.shot, ftrain, fval).value;
      && r.value.0 == SelectTable(data, ix.train)
      && r.value.1 == SelectTable(data, ix.val)
      && r.value.2 == SelectTable(data, ix.test)
  {
    var split := SplitIndices(data.shot, ftrain, fval);
    if split.Failure? {
      return Failure(split.error);
    }
    var ix := split.value;
    var train, val, test := SelectAll(data, ix);
    r := Success((train, val, test));
  }

  /** The loop of lines 34-49: every key of the copies, shot and time included, is replaced by its rows at the three index vectors. */
  method SelectAll(data: Table, ix: SplitIndex) returns (train: Table, val: Table, test: Table)
    requires Aligned(data)
    requires InBounds(ix.train, |data.shot|) && InBounds(ix.val, |data.shot|) && InBounds(ix.test, |data.shot|)
    ensures train == SelectTable(data, ix.train)
    ensures val == SelectTable(data, ix.val)
    ensures test == SelectTable(data, ix.test)
  {
    train, val, test := data, data, data;
    var keys := data.signals.Keys + {"shot", "time"};
    ghost var done: set<string> := {};
    while keys != {}
      invariant keys + done == data.signals.Keys + {"shot", "time"}
      invariant train == PartlySelected(data, ix.train, done)
      invariant val == PartlySelected(data, ix.val, done)
      invariant test == PartlySelected(data, ix.test, done)
      decreases keys
    {
      var key :| key in keys;
      SelectKeyStep(data, ix.train, done, key);
      SelectKeyStep(data, ix.val, done, key);
      SelectKeyStep(data, ix.test, done, key);
      train := SelectKey(train, data, ix.train, key);
      val := SelectKey(val, data, ix.val, key);
      test := SelectKey(test, data, ix.test, key);
      keys := keys - {key};
      done := done + {key};
    }
    AllSelected(data, ix.train, done);
    AllSelected(data, ix.val, done);
    AllSelected(data, ix.test, done);
  }

  /** Once every key is done, the copy is the selected table. */
  lemma AllSelected(t: Table, idx: seq<nat>, done: set<string>)
    requires Aligned(t) && InBounds(idx, |t.shot|)
    requires done == t.signals.Keys + {"shot", "time"}
    ensures PartlySelected(t, idx, done) == SelectTable(t, idx)
  {
  }
}
