/**
 * The split of one signal's sample indices into ramp-up, flat-top and
 * ramp-down groups, done before the three per-phase PCA fits
 * (pertnet/data/preprocess_pertdata3.py, lines 142-158).
 */
module PhaseSegmentation {
  import opened Indexing

  /** Ramp-up: every sample whose time is below t_rampup, over all shots at once. */
  function RampUp(times: seq<real>, tUp: real): (r: seq<nat>)
    ensures InBounds(r, |times|) && Ascending(r)
    ensures forall i :: 0 <= i < |times| ==> (i in r <==> times[i] < tUp)
  {
    Where(seq(|times|, i requires 0 <= i < |times| => times[i] < tUp))
  }

  /** np.where(shots == u)[0]: the samples of shot u, ascending. */
  function ShotIndices(shots: seq<int>, u: int): (r: seq<nat>)
    ensures InBounds(r, |shots|) && Ascending(r)
    ensures forall i :: 0 <= i < |shots| ==> (i in r <==> shots[i] == u)
    ensures u in shots ==> |r| > 0
  {
    var r := Where(seq(|shots|, i requires 0 <= i < |shots| => shots[i] == u));
    assert u in shots ==> exists i :: 0 <= i < |shots| && shots[i] == u && i in r;
    r
  }

  /** Python's max() over a non-empty sequence. */
  function Max(s: seq<real>): (m: real)
    requires |s| > 0
    ensures m in s
    ensures forall i :: 0 <= i < |s| ==> s[i] <= m
  {
    if |s| == 1 then s[0]
    else
      var m := Max(s[1..]);
      if s[0] >= m then s[0] else m
  }

  /** tend: the latest time among the samples of shot u. */
  function ShotEnd(shots: seq<int>, times: seq<real>, u: int): (tend: real)
    requires |shots| == |times| && u in shots
    ensures var ishot := ShotIndices(shots, u);
      && (forall k :: 0 <= k < |ishot| ==> times[ishot[k]] <= tend)
      && exists k :: 0 <= k < |ishot| && times[ishot[k]] == tend
  {
    var ishot := ShotIndices(shots, u);
    var st := Gather(times, ishot);
    assert forall k :: 0 <= k < |ishot| ==> st[k] == times[ishot[k]];
    Max(st)
  }

  /** ShotEnd bounds every time of the shot and is the time of one of its samples. */
  lemma ShotEndIsLatest(shots: seq<int>, times: seq<real>, u: int)
    requires |shots| == |times| && u in shots
    ensures forall i :: 0 <= i < |shots| && shots[i] == u ==> times[i] <= ShotEnd(shots, times, u)
    ensures exists i :: 0 <= i < |shots| && shots[i] == u && times[i] == ShotEnd(shots, times, u)
  {
    var ishot := ShotIndices(shots, u);
    var st := Gather(times, ishot);
    forall i | 0 <= i < |shots| && shots[i] == u
      ensures times[i] <= ShotEnd(shots, times, u)
    {
      var j :| 0 <= j < |ishot| && ishot[j] == i;
      assert st[j] == times[i];
    }
    var j :| 0 <= j < |st| && st[j] == ShotEnd(shots, times, u);
    assert shots[ishot[j]] == u && times[ishot[j]] == st[j];
  }

  /** The ramp-down samples of one shot (lines 148-152): those later than tend - t_rampdown. */
  function ShotTail(shots: seq<int>, times: seq<real>, u: int, tDown: real): (tail: seq<nat>)
    requires |shots| == |times| && u in shots
    ensures InBounds(tail, |shots|)
    ensures forall i :: i in tail <==>
      0 <= i < |shots| && shots[i] == u && times[i] > ShotEnd(shots, times, u) - tDown
  {
    var ishot := ShotIndices(shots, u);
    var shottimes := Gather(times, ishot);
    var tend := Max(shottimes);
    var k := Where(Later(shottimes, tend - tDown));
    TailSound(ishot, shottimes, k, shots, times, u, tend - tDown);
    TailComplete(ishot, shottimes, Later(shottimes, tend - tDown), k, shots, times, u, tend - tDown);
    Gather(ishot, k)
  }

  /** The boolean vector shottimes > cut. */
  function Later(shottimes: seq<real>, cut: real): (mask: seq<bool>)
    ensures |mask| == |shottimes|
  {
    seq(|shottimes|, m requires 0 <= m < |shottimes| => shottimes[m] > cut)
  }

  /** Each entry of the gathered tail belongs to shot u and is past the cut. */
  lemma TailSound(ishot: seq<nat>, st: seq<real>, k: seq<nat>, shots: seq<int>, times: seq<real>, u: int, cut: real)
    requires |shots| == |times| && InBounds(ishot, |shots|) && InBounds(k, |ishot|)
    requires forall j :: 0 <= j < |ishot| ==> shots[ishot[j]] == u
    requires st == Gather(times, ishot)
    requires forall m :: 0 <= m < |k| ==> st[k[m]] > cut
    ensures InBounds(Gather(ishot, k), |shots|)
    ensures forall i :: i in Gather(ishot, k) ==> 0 <= i < |shots| && shots[i] == u && times[i] > cut
  {
    var tail := Gather(ishot, k);
    forall i | i in tail
      ensures 0 <= i < |shots| && shots[i] == u && times[i] > cut
    {
      var m :| 0 <= m < |tail| && tail[m] == i;
      assert st[k[m]] == times[i];
    }
  }

  /** Every sample of shot u past the cut is in the gathered tail. */
  lemma TailComplete(ishot: seq<nat>, st: seq<real>, mask: seq<bool>, k: seq<nat>,
                     shots: seq<int>, times: seq<real>, u: int, cut: real)
    requires |shots| == |times| && InBounds(ishot, |shots|) && InBounds(k, |ishot|)
    requires forall i :: 0 <= i < |shots| && shots[i] == u ==> i in ishot
    requires st == Gather(times, ishot)
    requires |mask| == |st| && forall m :: 0 <= m < |st| ==> (mask[m] <==> st[m] > cut)
    requires forall m :: 0 <= m < |mask| && mask[m] ==> m in k
    ensures forall i :: 0 <= i < |shots| && shots[i] == u && times[i] > cut ==> i in Gather(ishot, k)
  {
    var tail := Gather(ishot, k);
    forall i | 0 <= i < |shots| && shots[i] == u && times[i] > cut
      ensures i in tail
    {
      var j :| 0 <= j < |ishot| && ishot[j] == i;
      assert mask[j];
      var m :| 0 <= m < |k| && k[m] == j;
      assert tail[m] == i;
    }
  }

  /** The ramp-down list built over the shots us, one shot after the other. */
  function RampDownOver(shots: seq<int>, times: seq<real>, us: seq<int>, tDown: real): seq<nat>
    requires |shots| == |times|
    requires forall j :: 0 <= j < |us| ==> us[j] in shots
  {
    if us == [] then []
    else RampDownOver(shots, times, us[..|us| - 1], tDown) + ShotTail(shots, times, us[|us| - 1], tDown)
  }

  /** A sample is in the ramp-down list over us exactly when its shot is in us and it is late enough in that shot. */
  lemma {:induction false} RampDownOverMembers(shots: seq<int>, times: seq<real>, us: seq<int>, tDown: real)
    requires |shots| == |times|
    requires forall j :: 0 <= j < |us| ==> us[j] in shots
    ensures InBounds(RampDownOver(shots, times, us, tDown), |shots|)
    ensures forall i :: i in RampDownOver(shots, times, us, tDown) <==>
      0 <= i < |shots| && shots[i] in us && times[i] > ShotEnd(shots, times, shots[i]) - tDown
  {
    if us != [] {
      var init := us[..|us| - 1];
      var u := us[|us| - 1];
      RampDownOverMembers(shots, times, init, tDown);
      assert RampDownOver(shots, times, us, tDown)
        == RampDownOver(shots, times, init, tDown) + ShotTail(shots, times, u, tDown);
      assert forall x :: x in us <==> x in init || x == u;
    }
  }

  /** Ramp-down (lines 146-153): one shot at a time, in ascending shot order, extend by that shot's late samples. */
  method RampDown(shots: seq<int>, times: seq<real>, tDown: real) returns (idown: seq<nat>)
    requires |shots| == |times|
    ensures idown == RampDownOver(shots, times, Unique(shots), tDown)
    ensures InBounds(idown, |shots|)
    ensures forall i :: i in idown <==>
      0 <= i < |shots| && times[i] > ShotEnd(shots, times, shots[i]) - tDown
  {
    var uniq := Unique(shots);
    idown := [];
    for j := 0 to |uniq|
      invariant idown == RampDownOver(shots, times, uniq[..j], tDown)
    {
      var shot := uniq[j];
      idown := idown + ShotTail(shots, times, shot, tDown);
      assert uniq[..j + 1][..j] == uniq[..j];
    }
    assert uniq[..|uniq|] == uniq;
    RampDownOverMembers(shots, times, uniq, tDown);
  }

  /** With t_rampdown > 0, every shot puts at least its latest sample into the ramp-down list. */
  lemma RampDownCoversEveryShot(shots: seq<int>, times: seq<real>, tDown: real)
    requires |shots| == |times| && tDown > 0.0
    ensures forall u :: u in shots ==>
      exists i :: 0 <= i < |shots| && i in RampDownOver(shots, times, Unique(shots), tDown)
                  && shots[i] == u && times[i] == ShotEnd(shots, times, u)
  {
    RampDownOverMembers(shots, times, Unique(shots), tDown);
    forall u | u in shots
      ensures exists i :: 0 <= i < |shots| && i in RampDownOver(shots, times, Unique(shots), tDown)
                          && shots[i] == u && times[i] == ShotEnd(shots, times, u)
    {
      ShotEndIsLatest(shots, times, u);
    }
  }

  /** Flat-top (lines 156-158): np.arange(N) minus ramp-up minus ramp-down, sorted. */
  function FlatTop(n: nat, up: seq<nat>, down: seq<nat>): (flat: seq<nat>)
    ensures Ascending(flat)
    ensures forall i :: i in flat <==> 0 <= i < n && i !in up && i !in down
  {
    Where(seq(n, i requires 0 <= i < n => i !in up && i !in down))
  }

  /**
   * Flat-top is ascending and shares no index with ramp-up or ramp-down,
   * and the three groups together are exactly 0..n-1 (ramp-up and ramp-down may overlap).
   */
  lemma FlatTopPartition(n: nat, up: seq<nat>, down: seq<nat>)
    requires InBounds(up, n) && InBounds(down, n)
    ensures InBounds(FlatTop(n, up, down), n) && Ascending(FlatTop(n, up, down))
    ensures forall i :: i in FlatTop(n, up, down) ==> i !in up && i !in down
    ensures forall i :: i in up + FlatTop(n, up, down) + down <==> 0 <= i < n
  {
    var flat := FlatTop(n, up, down);
    forall i | i in up + flat + down ensures 0 <= i < n {
      if i in up {
        var k :| 0 <= k < |up| && up[k] == i;
      } else if i in down {
        var k :| 0 <= k < |down| && down[k] == i;
      } else {
        var k :| 0 <= k < |flat| && flat[k] == i;
      }
    }
  }

  /** The three phase groups of one signal's samples. */
  datatype Phases = Phases(up: seq<nat>, flat: seq<nat>, down: seq<nat>)

  /** The phases segmentation returns: each is one of the definitions above, and together they partition 0..N-1. */
  function PhasesOf(shots: seq<int>, times: seq<real>, tUp: real, tDown: real): (p: Phases)
    requires |shots| == |times|
    ensures p.up == RampUp(times, tUp)
    ensures p.down == RampDownOver(shots, times, Unique(shots), tDown)
    ensures p.flat == FlatTop(|times|, p.up, p.down)
    ensures InBounds(p.up, |times|) && InBounds(p.flat, |times|) && InBounds(p.down, |times|)
    ensures forall i :: i in p.flat ==> i !in p.up && i !in p.down
    ensures forall i :: i in p.up + p.flat + p.down <==> 0 <= i < |times|
  {
    var up := RampUp(times, tUp);
    var down := RampDownOver(shots, times, Unique(shots), tDown);
    RampDownOverMembers(shots, times, Unique(shots), tDown);
    FlatTopPartition(|times|, up, down);
    Phases(up, FlatTop(|times|, up, down), down)
  }

  /** Lines 142-158: ramp-up, ramp-down, then flat-top as the rest; the statements compute PhasesOf. */
  method Segment(shots: seq<int>, times: seq<real>, tUp: real, tDown: real) returns (p: Phases)
    requires |shots| == |times|
    ensures p == PhasesOf(shots, times, tUp, tDown)
    ensures p.up == RampUp(times, tUp)
    ensures p.down == RampDownOver(shots, times, Unique(shots), tDown)
    ensures p.flat == FlatTop(|times|, p.up, p.down)
    ensures InBounds(p.up, |times|) && InBounds(p.flat, |times|) && InBounds(p.down, |times|)
    ensures Ascending(p.flat)
    ensures forall i :: i in p.flat ==> i !in p.up && i !in p.down
    ensures forall i :: i in p.up + p.flat + p.down <==> 0 <= i < |times|
  {
    var iup := RampUp(times, tUp);
    var idown := RampDown(shots, times, tDown);
    var iflat := FlatTop(|times|, iup, idown);
    FlatTopPartition(|times|, iup, idown);
    p := Phases(iup, iflat, idown);
  }
}
