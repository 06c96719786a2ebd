/**
 * The numpy / Python index arithmetic the pipeline is built from:
 * np.where on a boolean vector, fancy indexing with an index vector,
 * np.unique, Python slices (negative bounds included), int() on a float,
 * np.cumsum and np.sum.
 */
module Indexing {
  import opened Results

  /** Every entry of idx is a valid position of a sequence of length n. */
  predicate InBounds(idx: seq<nat>, n: nat) {
    forall k :: 0 <= k < |idx| ==> idx[k] < n
  }

  predicate Ascending(s: seq<nat>) {
    forall a, b :: 0 <= a < b < |s| ==> s[a] < s[b]
  }

  predicate StrictlyIncreasing(s: seq<int>) {
    forall a, b :: 0 <= a < b < |s| ==> s[a] < s[b]
  }

  predicate Distinct<T(==)>(s: seq<T>) {
    forall a, b :: 0 <= a < b < |s| ==> s[a] != s[b]
  }

  /** np.where(mask)[0]: the positions at which mask holds, ascending. */
  function Where(mask: seq<bool>): (r: seq<nat>)
    ensures InBounds(r, |mask|) && Ascending(r)
    ensures forall k :: 0 <= k < |r| ==> mask[r[k]]
    ensures forall i :: 0 <= i < |mask| && mask[i] ==> i in r
  {
    if mask == [] then []
    else Where(mask[..|mask| - 1]) + (if mask[|mask| - 1] then [|mask| - 1] else [])
  }

  /** The first position at which mask holds: element [0] of np.where(mask)[0]. */
  function FirstWhere(mask: seq<bool>): (r: Option<nat>)
    ensures r.Some? ==> r.value < |mask| && mask[r.value]
    ensures r.Some? ==> forall i :: 0 <= i < r.value ==> !mask[i]
    ensures r.None? ==> forall i :: 0 <= i < |mask| ==> !mask[i]
  {
    var w := Where(mask);
    if w == [] then None
    else
      assert forall k :: 0 <= k < |w| ==> w[0] <= w[k];
      Some(w[0])
  }

  /** s[idx]: numpy fancy indexing with an index vector. */
  function Gather<T>(s: seq<T>, idx: seq<nat>): seq<T>
    requires InBounds(idx, |s|)
  {
    seq(|idx|, k requires 0 <= k < |idx| => s[idx[k]])
  }

  /** Gathering twice is gathering once with the composed index vector. */
  lemma GatherGather<T>(s: seq<T>, i: seq<nat>, j: seq<nat>)
    requires InBounds(i, |s|) && InBounds(j, |i|)
    ensures InBounds(Gather(i, j), |s|)
    ensures Gather(Gather(s, i), j) == Gather(s, Gather(i, j))
  {
  }

  /** The ascending indices 0, 1, ..., n-1 (np.arange). */
  function Range(n: nat): (r: seq<nat>)
    ensures |r| == n && InBounds(r, n) && Ascending(r)
    ensures forall k :: 0 <= k < n ==> r[k] == k
  {
    seq(n, k requires 0 <= k < n => k)
  }

  /** Inserts x into a strictly increasing sequence, keeping it so. */
  function Insert(u: seq<int>, x: int): (r: seq<int>)
    requires StrictlyIncreasing(u)
    ensures StrictlyIncreasing(r)
    ensures forall y :: y in r <==> y in u || y == x
    ensures |r| > 0 && r[0] == if u == [] || x < u[0] then x else u[0]
  {
    if u == [] then [x]
    else if x < u[0] then [x] + u
    else if x == u[0] then u
    else
      var r := Insert(u[1..], x);
      assert u[0] < r[0];
      assert forall k :: 0 < k < |r| ==> r[0] < r[k];
      [u[0]] + r
  }

  /** np.unique: the distinct values of s, sorted ascending. */
  function Unique(s: seq<int>): (u: seq<int>)
    ensures StrictlyIncreasing(u)
    ensures forall y :: y in u <==> y in s
  {
    if s == [] then [] else Insert(Unique(s[..|s| - 1]), s[|s| - 1])
  }

  /** int(x) on a Python float: truncation toward zero. */
  function Trunc(x: real): (r: int)
    ensures 0.0 <= x ==> 0 <= r && r as real <= x < r as real + 1.0
    ensures x < 0.0 ==> r <= 0 && r as real - 1.0 < x <= r as real
  {
    if x >= 0.0 then x.Floor else -((-x).Floor)
  }

  /** Where a Python slice bound i lands in a sequence of length n. */
  function SliceBound(i: int, n: nat): (b: nat)
    ensures b <= n
    ensures 0 <= i <= n ==> b == i
    ensures i > n ==> b == n
    ensures i < 0 ==> b == if i + n < 0 then 0 else i + n
  {
    if i < 0 then (if i + n < 0 then 0 else i + n)
    else if i > n then n
    else i
  }

  /** s[lo:hi] with Python's slice semantics (negative bounds count from the end). */
  function PySlice<T>(s: seq<T>, lo: int, hi: int): (r: seq<T>)
    ensures |r| <= |s|
  {
    var a, b := SliceBound(lo, |s|), SliceBound(hi, |s|);
    if a <= b then s[a..b] else []
  }

  /** Bounds inside s slice as written, a negative start counts from the end, and crossed bounds give nothing. */
  lemma PySliceCases<T>(s: seq<T>, lo: int, hi: int)
    ensures 0 <= lo <= hi <= |s| ==> PySlice(s, lo, hi) == s[lo..hi]
    ensures -|s| <= lo < 0 && hi == |s| ==> PySlice(s, lo, hi) == s[|s| + lo..]
    ensures 0 <= hi <= lo ==> PySlice(s, lo, hi) == []
  {
  }

  function Sum(s: seq<real>): real {
    if s == [] then 0.0 else Sum(s[..|s| - 1]) + s[|s| - 1]
  }

  predicate NonNegative(s: seq<real>) {
    forall i :: 0 <= i < |s| ==> 0.0 <= s[i]
  }

  /** np.cumsum: entry j is the sum of the first j+1 entries. */
  function CumSum(s: seq<real>): (c: seq<real>)
    ensures |c| == |s|
    ensures forall j :: 0 <= j < |s| ==> c[j] == Sum(s[..j + 1])
  {
    if s == [] then []
    else
      var c := CumSum(s[..|s| - 1]);
      forall j | 0 <= j < |c| ensures c[j] == Sum(s[..j + 1]) {
        assert s[..|s| - 1][..j + 1] == s[..j + 1];
      }
      assert s[..|s|] == s;
      c + [Sum(s)]
  }

  /** The cumulative sums of non-negative values never decrease, and end at the total. */
  lemma {:induction false} CumSumMonotone(s: seq<real>)
    requires NonNegative(s)
    ensures forall i, j :: 0 <= i <= j < |s| ==> CumSum(s)[i] <= CumSum(s)[j]
    ensures |s| > 0 ==> CumSum(s)[|s| - 1] == Sum(s)
  {
    if s != [] {
      var t := s[..|s| - 1];
      CumSumMonotone(t);
      assert CumSum(s) == CumSum(t) + [Sum(s)];
      assert s[..|s|] == s;
      forall i | 0 <= i < |t| ensures CumSum(s)[i] <= Sum(s) {
        SumPrefixBelow(s, i + 1);
      }
    }
  }

  /** A prefix of non-negative values sums to at most the whole. */
  lemma {:induction false} SumPrefixBelow(s: seq<real>, n: nat)
    requires NonNegative(s) && n <= |s|
    ensures Sum(s[..n]) <= Sum(s)
  {
    if n < |s| {
      var t := s[..|s| - 1];
      assert t[..n] == s[..n];
      SumPrefixBelow(t, n);
    } else {
      assert s[..n] == s;
    }
  }
}
