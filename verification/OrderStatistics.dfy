/** Sorting, counting, medians and the nearest-rank percentile over the reals:
    the order statistics behind the seasonal factors and the anomaly threshold. */
module OrderStatistics {

  function Abs(x: real): real {
    if x < 0.0 then -x else x
  }

  function AbsAll(s: seq<real>): (r: seq<real>)
    ensures |r| == |s| && forall i :: 0 <= i < |s| ==> r[i] == Abs(s[i])
  {
    seq(|s|, i requires 0 <= i < |s| => Abs(s[i]))
  }

  predicate Ascending(s: seq<real>) {
    forall i, j :: 0 <= i < j < |s| ==> s[i] <= s[j]
  }

  // ---- Counting ----

  function Count(s: seq<real>, p: real -> bool): (c: nat)
    ensures c <= |s|
  {
    if s == [] then 0 else (if p(s[0]) then 1 else 0) + Count(s[1..], p)
  }

  function AtMost(t: real): real -> bool {
    x => x <= t
  }

  function Below(t: real): real -> bool {
    x => x < t
  }

  lemma {:induction false} CountConcat(a: seq<real>, b: seq<real>, p: real -> bool)
    ensures Count(a + b, p) == Count(a, p) + Count(b, p)
  {
    if a == [] {
      assert a + b == b;
    } else {
      assert (a + b)[1..] == a[1..] + b;
      CountConcat(a[1..], b, p);
    }
  }

  /** The positions that pass. */
  function Where(s: seq<real>, p: real -> bool): set<nat> {
    set i: nat | i < |s| && p(s[i])
  }

  lemma CountOne(x: real, p: real -> bool)
    ensures Count([x], p) == if p(x) then 1 else 0
  {
    assert [x][1..] == [];
  }

  lemma {:induction false} CountIsCardinality(s: seq<real>, p: real -> bool)
    ensures Count(s, p) == |Where(s, p)|
  {
    if s == [] {
      assert Where(s, p) == {};
    } else {
      var n := |s| - 1;
      CountIsCardinality(s[..n], p);
      assert s == s[..n] + [s[n]];
      CountConcat(s[..n], [s[n]], p);
      CountOne(s[n], p);
      assert Where(s, p) == Where(s[..n], p) + if p(s[n]) then {n} else {};
      hide Count;
    }
  }

  lemma {:induction false} CountUniform(s: seq<real>, p: real -> bool)
    ensures (forall i :: 0 <= i < |s| ==> p(s[i])) ==> Count(s, p) == |s|
    ensures (forall i :: 0 <= i < |s| ==> !p(s[i])) ==> Count(s, p) == 0
  {
    if s != [] {
      CountUniform(s[1..], p);
    }
  }

  function Without(s: seq<real>, j: nat): seq<real>
    requires j < |s|
  {
    s[..j] + s[j + 1..]
  }

  lemma MultisetWithout(s: seq<real>, j: nat)
    requires j < |s|
    ensures multiset(Without(s, j)) == multiset(s) - multiset{s[j]}
  {
    assert s == s[..j] + ([s[j]] + s[j + 1..]);
  }

  lemma {:induction false} CountWithout(s: seq<real>, j: nat, p: real -> bool)
    requires j < |s|
    ensures Count(s, p) == (if p(s[j]) then 1 else 0) + Count(Without(s, j), p)
  {
    var rest := Without(s, j);
    if j == 0 {
      assert rest == s[1..];
    } else {
      CountWithout(s[1..], j - 1, p);
      assert rest[0] == s[0] && rest[1..] == Without(s[1..], j - 1);
    }
  }

  lemma SameLength(a: seq<real>, b: seq<real>)
    requires multiset(a) == multiset(b)
    ensures |a| == |b|
  {
    assert |multiset(a)| == |multiset(b)|;
  }

  lemma {:induction false} CountIsPermutationInvariant(a: seq<real>, b: seq<real>, p: real -> bool)
    requires multiset(a) == multiset(b)
    ensures Count(a, p) == Count(b, p)
    decreases |a|
  {
    SameLength(a, b);
    if a != [] {
      assert a[0] in multiset(b);
      var j :| 0 <= j < |b| && b[j] == a[0];
      CountWithout(a, 0, p);
      CountWithout(b, j, p);
      MultisetWithout(a, 0);
      MultisetWithout(b, j);
      CountIsPermutationInvariant(Without(a, 0), Without(b, j), p);
    }
  }

  lemma {:induction false} CountIsPointwise(a: seq<real>, b: seq<real>, t: real)
    requires |a| == |b| && forall i :: 0 <= i < |a| ==> a[i] <= b[i]
    ensures Count(b, AtMost(t)) <= Count(a, AtMost(t))
  {
    if a != [] {
      CountIsPointwise(a[1..], b[1..], t);
    }
  }

  ghost predicate DownwardClosed(p: real -> bool) {
    forall x, y :: x <= y && p(y) ==> p(x)
  }

  /** Rank and count are two views of one thing: for a downward-closed test, the
      entry of rank k passes exactly when more than k entries pass. */
  lemma RankIsCount(s: seq<real>, k: nat, p: real -> bool)
    requires Ascending(s) && k < |s|
    requires DownwardClosed(p)
    ensures p(s[k]) <==> Count(s, p) > k
  {
    hide Count;
    if p(s[k]) {
      var low := s[..k + 1];
      assert s == low + s[k + 1..];
      CountConcat(low, s[k + 1..], p);
      forall i | 0 <= i < |low| ensures p(low[i]) {
        assert low[i] <= s[k];
      }
      CountUniform(low, p);
    } else {
      var high := s[k..];
      assert s == s[..k] + high;
      CountConcat(s[..k], high, p);
      forall i | 0 <= i < |high| ensures !p(high[i]) {
        assert s[k] <= high[i];
      }
      CountUniform(high, p);
    }
  }

  lemma RanksAreCounts(s: seq<real>, p: real -> bool)
    requires Ascending(s) && DownwardClosed(p)
    ensures forall k :: 0 <= k < |s| ==> (p(s[k]) <==> Count(s, p) > k)
  {
    forall k | 0 <= k < |s| ensures p(s[k]) <==> Count(s, p) > k {
      RankIsCount(s, k, p);
    }
  }

  // ---- Sorting ----

  /** Puts `x` after the entries below it. */
  function Insert(x: real, s: seq<real>): (r: seq<real>)
    requires Ascending(s)
    ensures Ascending(r) && multiset(r) == multiset{x} + multiset(s) && |r| == |s| + 1
  {
    var k := Count(s, Below(x));
    RanksAreCounts(s, Below(x));
    SplitAround(s, k, x);
    s[..k] + [x] + s[k..]
  }

  lemma SplitAround(s: seq<real>, k: nat, x: real)
    requires Ascending(s) && k <= |s|
    requires forall i :: 0 <= i < |s| ==> (s[i] < x <==> i < k)
    ensures var r := s[..k] + [x] + s[k..];
            Ascending(r) && multiset(r) == multiset{x} + multiset(s)
  {
    var r := s[..k] + [x] + s[k..];
    forall i, j | 0 <= i < j < |r| ensures r[i] <= r[j] {
      assert i < k ==> r[i] == s[i];
      assert i > k ==> r[i] == s[i - 1];
      assert j < k ==> r[j] == s[j];
      assert j > k ==> r[j] == s[j - 1];
    }
    assert s == s[..k] + s[k..];
  }

  /** The ascending arrangement of `s`; SortIsUnique shows there is only one,
      so it does not matter which sorting algorithm produced it. */
  function Sort(s: seq<real>): (r: seq<real>)
    ensures Ascending(r) && multiset(r) == multiset(s) && |r| == |s|
  {
    if s == [] then []
    else
      assert s == [s[0]] + s[1..];
      Insert(s[0], Sort(s[1..]))
  }

  method SortInPlace(a: array<real>)
    modifies a
    ensures a[..] == Sort(old(a[..]))
  {
    var sorted := Sort(a[..]);
    forall i | 0 <= i < a.Length {
      a[i] := sorted[i];
    }
  }

  lemma SortedCount(s: seq<real>, k: nat, p: real -> bool)
    requires k < |s| && DownwardClosed(p)
    ensures p(Sort(s)[k]) <==> Count(s, p) > k
  {
    CountIsPermutationInvariant(s, Sort(s), p);
    RankIsCount(Sort(s), k, p);
  }

  lemma SortedAtMost(s: seq<real>, k: nat, t: real)
    requires k < |s|
    ensures Sort(s)[k] <= t <==> Count(s, AtMost(t)) > k
  {
    hide Count, Sort;
    SortedCount(s, k, AtMost(t));
  }

  lemma SortedBelow(s: seq<real>, k: nat, t: real)
    requires k < |s|
    ensures Sort(s)[k] < t <==> Count(s, Below(t)) > k
  {
    hide Count, Sort;
    SortedCount(s, k, Below(t));
  }

  lemma SortIsUnique(s: seq<real>, r: seq<real>)
    requires Ascending(r) && multiset(r) == multiset(s)
    ensures r == Sort(s)
  {
    assert |multiset(r)| == |multiset(s)|;
    forall k | 0 <= k < |r| ensures r[k] == Sort(s)[k] {
      CountIsPermutationInvariant(r, Sort(s), AtMost(r[k]));
      CountIsPermutationInvariant(r, Sort(s), AtMost(Sort(s)[k]));
      RankIsCount(r, k, AtMost(r[k]));
      RankIsCount(Sort(s), k, AtMost(r[k]));
      RankIsCount(r, k, AtMost(Sort(s)[k]));
      RankIsCount(Sort(s), k, AtMost(Sort(s)[k]));
    }
  }

  // ---- Median ----

  function Median(s: seq<real>): real
    requires s != []
  {
    MedianOfSorted(Sort(s))
  }

  function MedianOfSorted(sorted: seq<real>): real
    requires sorted != []
  {
    var len := |sorted|;
    if len % 2 == 0 then (sorted[len / 2 - 1] + sorted[len / 2]) / 2.0 else sorted[len / 2]
  }

  lemma SortsAgree(a: seq<real>, b: seq<real>)
    requires multiset(a) == multiset(b)
    ensures Sort(a) == Sort(b) && |a| == |b|
  {
    SortIsUnique(b, Sort(a));
    SameLength(a, b);
  }

  /** Values in lo..hi, counted as those at most hi less those below lo. */
  function CountWithin(s: seq<real>, lo: real, hi: real): int {
    Count(s, AtMost(hi)) - Count(s, Below(lo))
  }

  /** A strict majority inside a band pins the median inside it, however wild the rest. */
  lemma MedianIsRobust(s: seq<real>, lo: real, hi: real)
    requires s != [] && 2 * CountWithin(s, lo, hi) > |s|
    ensures lo <= Median(s) <= hi
  {
    var upper, lower := |s| / 2, (|s| - 1) / 2;
    SortedAtMost(s, upper, hi);
    SortedBelow(s, lower, lo);
    hide Count, Sort, AtMost, Below;
    assert Sort(s)[lower] <= Sort(s)[upper];
  }

  lemma MedianIsPermutationInvariant(a: seq<real>, b: seq<real>)
    requires a != [] && multiset(a) == multiset(b)
    ensures b != [] && Median(a) == Median(b)
  {
    SortsAgree(a, b);
  }

  /** The value of rank k, counted from 0: at most k values are below it, more than k are at most it. */
  predicate IsRank(s: seq<real>, k: nat, x: real) {
    x in s && Count(s, Below(x)) <= k < Count(s, AtMost(x))
  }

  lemma RankIsSorted(s: seq<real>, k: nat, x: real)
    requires k < |s|
    ensures IsRank(s, k, x) <==> x == Sort(s)[k]
  {
    SortedAtMost(s, k, x);
    SortedBelow(s, k, x);
    hide Count, Sort;
    assert Sort(s)[k] in multiset(Sort(s));
    assert Sort(s)[k] in multiset(s);
  }

  /** The median is halfway between the two middle ranks, which are one for an odd number of values. */
  lemma MedianIsMiddle(s: seq<real>) returns (lo: real, hi: real)
    requires s != []
    ensures IsRank(s, (|s| - 1) / 2, lo) && IsRank(s, |s| / 2, hi) && 2.0 * Median(s) == lo + hi
  {
    hide Sort, IsRank;
    lo, hi := Sort(s)[(|s| - 1) / 2], Sort(s)[|s| / 2];
    RankIsSorted(s, (|s| - 1) / 2, lo);
    RankIsSorted(s, |s| / 2, hi);
  }

  lemma MedianOfConstant(s: seq<real>, c: real)
    requires s != [] && forall i :: 0 <= i < |s| ==> s[i] == c
    ensures Median(s) == c
  {
    CountUniform(s, AtMost(c));
    CountUniform(s, Below(c));
    MedianIsRobust(s, c, c);
  }

  // ---- Nearest-rank 95th percentile ----

  const DEFAULT_THRESHOLD := 50.0

  /** ceil(0.95 n), the rank the percentile asks for. */
  function P95Rank(n: nat): nat {
    (19 * n + 19) / 20
  }

  function SatSub(a: nat, b: nat): nat {
    if a < b then 0 else a - b
  }

  function Min(a: nat, b: nat): nat {
    if a <= b then a else b
  }

  function P95Threshold(residuals: seq<real>): real {
    if residuals == [] then DEFAULT_THRESHOLD
    else
      var sorted := Sort(AbsAll(residuals));
      var v := sorted[Min(SatSub(P95Rank(|sorted|), 1), |sorted| - 1)];
      if v < 1.0 then 1.0 else v
  }

  method ComputeP95Threshold(residuals: seq<real>) returns (threshold: real)
    ensures threshold == P95Threshold(residuals)
  {
    if |residuals| == 0 {
      return DEFAULT_THRESHOLD;
    }
    var absVals := new real[|residuals|];
    for i := 0 to |residuals|
      invariant forall k :: 0 <= k < i ==> absVals[k] == Abs(residuals[k])
    {
      absVals[i] := Abs(residuals[i]);
    }
    assert absVals[..] == AbsAll(residuals);
    SortInPlace(absVals);
    var idx := P95Rank(absVals.Length);
    idx := Min(SatSub(idx, 1), absVals.Length - 1);
    threshold := if absVals[idx] < 1.0 then 1.0 else absVals[idx];
  }

  /** `t` is at least 1 and covers at least 19 in 20 of the absolute residuals. */
  predicate Covers(residuals: seq<real>, t: real) {
    t >= 1.0 && 20 * |Within(residuals, t)| >= 19 * |residuals|
  }

  /** The positions of the residuals between -t and t. */
  function Within(residuals: seq<real>, t: real): (r: set<nat>)
    ensures forall i :: i in r ==> i < |residuals|
  {
    set i: nat | i < |residuals| && -t <= residuals[i] <= t
  }

  lemma WithinIsCount(residuals: seq<real>, t: real)
    ensures |Within(residuals, t)| == Count(AbsAll(residuals), AtMost(t))
  {
    assert Within(residuals, t) == Where(AbsAll(residuals), AtMost(t));
    CountIsCardinality(AbsAll(residuals), AtMost(t));
  }

  /** The threshold covers, and a value covers exactly when it is no smaller. */
  lemma P95IsLeastCover(residuals: seq<real>, t: real)
    requires residuals != []
    ensures Covers(residuals, t) <==> t >= P95Threshold(residuals)
  {
    hide Count, Sort, AtMost, Within;
    WithinIsCount(residuals, t);
    SortedAtMost(AbsAll(residuals), P95Rank(|residuals|) - 1, t);
  }

  /** At most one residual in twenty exceeds the threshold computed from them. */
  lemma FewExceedTheThreshold(residuals: seq<real>)
    ensures |residuals| - |Within(residuals, P95Threshold(residuals))| <= |residuals| / 20
  {
    if residuals != [] {
      P95IsLeastCover(residuals, P95Threshold(residuals));
      hide Within, P95Threshold;
    } else {
      assert Within(residuals, P95Threshold(residuals)) == {};
    }
  }

  lemma P95IsPermutationInvariant(a: seq<real>, b: seq<real>)
    requires multiset(AbsAll(a)) == multiset(AbsAll(b))
    ensures P95Threshold(a) == P95Threshold(b)
  {
    SortsAgree(AbsAll(a), AbsAll(b));
  }

  lemma P95IsMonotone(a: seq<real>, b: seq<real>)
    requires |a| == |b| && forall i :: 0 <= i < |a| ==> Abs(a[i]) <= Abs(b[i])
    ensures P95Threshold(a) <= P95Threshold(b)
  {
    if a != [] {
      var t := P95Threshold(b);
      P95IsLeastCover(b, t);
      CountIsPointwise(AbsAll(a), AbsAll(b), t);
      WithinIsCount(a, t);
      WithinIsCount(b, t);
      P95IsLeastCover(a, t);
    }
  }
}
