/** Nearest-rank percentiles, and sorting as the program's library sort is used for them. */
module Quantiles {
  import opened Numbers

  predicate Ascending(s: seq<real>) {
    forall i, j :: 0 <= i <= j < |s| ==> s[i] <= s[j]
  }

  /** How many samples do not exceed v. */
  function AtMost(s: seq<real>, v: real): nat {
    if s == [] then 0 else AtMost(s[1..], v) + if s[0] <= v then 1 else 0
  }

  function Insert(x: real, s: seq<real>): seq<real> {
    if s == [] || x <= s[0] then [x] + s else [s[0]] + Insert(x, s[1..])
  }

  /** Ascending order, as the library sort of a typed array leaves it. */
  function Sort(s: seq<real>): seq<real> {
    if s == [] then [] else Insert(s[0], Sort(s[1..]))
  }

  lemma {:induction false} InsertSorts(x: real, s: seq<real>)
    requires Ascending(s)
    ensures Ascending(Insert(x, s)) && multiset(Insert(x, s)) == multiset{x} + multiset(s)
    ensures |Insert(x, s)| == |s| + 1
    ensures Insert(x, s)[0] == x || (s != [] && Insert(x, s)[0] == s[0])
  {
    if s != [] && x > s[0] {
      InsertSorts(x, s[1..]);
      assert s == [s[0]] + s[1..];
    }
  }

  lemma {:induction false} SortSorts(s: seq<real>)
    ensures Ascending(Sort(s)) && multiset(Sort(s)) == multiset(s) && |Sort(s)| == |s|
  {
    if s != [] {
      SortSorts(s[1..]);
      InsertSorts(s[0], Sort(s[1..]));
      assert s == [s[0]] + s[1..];
    }
  }

  /** The first of an ascending sequence is not above any element of a rearrangement. */
  lemma FirstIsLeast(a: seq<real>, b: seq<real>)
    requires Ascending(a) && multiset(a) == multiset(b) && |a| == |b| > 0
    ensures a[0] <= b[0]
  {
    assert b[0] in multiset(b);
    assert b[0] in a;
  }

  lemma TailMultiset(a: seq<real>)
    requires a != []
    ensures multiset(a[1..]) == multiset(a) - multiset{a[0]}
  {
    assert a == [a[0]] + a[1..];
  }

  lemma {:induction false} SortedUnique(a: seq<real>, b: seq<real>)
    requires Ascending(a) && Ascending(b) && multiset(a) == multiset(b) && |a| == |b|
    ensures a == b
  {
    if a != [] {
      FirstIsLeast(a, b);
      FirstIsLeast(b, a);
      TailMultiset(a);
      TailMultiset(b);
      SortedUnique(a[1..], b[1..]);
    }
  }

  lemma {:induction false} InsertCounts(x: real, s: seq<real>, v: real)
    ensures AtMost(Insert(x, s), v) == AtMost(s, v) + if x <= v then 1 else 0
  {
    if s == [] || x <= s[0] {
      assert ([x] + s)[1..] == s;
    } else {
      InsertCounts(x, s[1..], v);
      assert ([s[0]] + Insert(x, s[1..]))[1..] == Insert(x, s[1..]);
    }
  }

  lemma {:induction false} SortCounts(s: seq<real>, v: real)
    ensures AtMost(Sort(s), v) == AtMost(s, v)
  {
    if s != [] {
      SortCounts(s[1..], v);
      InsertCounts(s[0], Sort(s[1..]), v);
    }
  }

  /** In ascending order, the sample at index i has more than i samples at or below it. */
  lemma {:induction false} ReachesRank(s: seq<real>, i: nat)
    requires Ascending(s) && i < |s|
    ensures AtMost(s, s[i]) >= i + 1
  {
    if i > 0 {
      ReachesRank(s[1..], i - 1);
    }
  }

  /** Below the sample at index i there are at most i samples. */
  lemma {:induction false} BelowRank(s: seq<real>, i: nat, v: real)
    requires Ascending(s) && i < |s| && v < s[i]
    ensures AtMost(s, v) <= i
  {
    if i > 0 {
      BelowRank(s[1..], i - 1, v);
    } else {
      NoneBelow(s, v);
    }
  }

  lemma {:induction false} NoneBelow(s: seq<real>, v: real)
    requires forall k :: 0 <= k < |s| ==> v < s[k]
    ensures AtMost(s, v) == 0
  {
    if s != [] {
      NoneBelow(s[1..], v);
    }
  }

  /** The least integer not below p * n / 100. */
  function Rank(n: nat, p: int): int {
    (p * n + 99) / 100
  }

  function QuantileIndex(n: nat, p: int): int {
    Min(n - 1, Max(0, Rank(n, p) - 1))
  }

  /** v is the p-th percentile by nearest rank: the least sample that at least p percent of the samples
      do not exceed. */
  ghost predicate NearestRank(s: seq<real>, p: int, v: real) {
    && v in s && 100 * AtMost(s, v) >= p * |s|
    && forall u :: u in s && u < v ==> 100 * AtMost(s, u) < p * |s|
  }

  lemma Scaled(n: nat, p: int, q: int)
    requires p <= q
    ensures p * n <= q * n
  {}

  /** The index is in range, and its position times 100 is the first multiple to reach p * n. */
  lemma IndexBounds(n: nat, p: int)
    requires n > 0 && p <= 100
    ensures 0 <= QuantileIndex(n, p) < n && 100 * (QuantileIndex(n, p) + 1) >= p * n
    ensures QuantileIndex(n, p) > 0 ==> 100 * QuantileIndex(n, p) < p * n
  {
    Scaled(n, p, 100);
  }

  lemma SortKeepsMembers(s: seq<real>, u: real)
    ensures u in s <==> u in Sort(s)
  {
    SortSorts(s);
    assert u in s <==> u in multiset(s);
    assert u in Sort(s) <==> u in multiset(Sort(s));
  }

  /** A sample below the percentile is exceeded by too many: it is not the first in order, and fewer than
      p percent lie at or below it. */
  lemma BelowFallsShort(s: seq<real>, p: int, u: real)
    requires |s| > 0 && p <= 100 && |Sort(s)| == |s| && 0 <= QuantileIndex(|s|, p) < |s|
    requires u in s && u < Sort(s)[QuantileIndex(|s|, p)]
    ensures 100 * AtMost(s, u) < p * |s|
  {
    SortSorts(s);
    IndexBounds(|s|, p);
    BelowRank(Sort(s), QuantileIndex(|s|, p), u);
    SortCounts(s, u);
    SomeAtMost(s, u);
  }

  /** The index the program computes picks the nearest-rank percentile out of the sorted samples. */
  lemma IndexIsNearestRank(s: seq<real>, p: int)
    requires |s| > 0 && p <= 100
    ensures |Sort(s)| == |s| && 0 <= QuantileIndex(|s|, p) < |s|
    ensures NearestRank(s, p, Sort(s)[QuantileIndex(|s|, p)])
  {
    SortSorts(s);
    IndexBounds(|s|, p);
    var v := Sort(s)[QuantileIndex(|s|, p)];
    SortKeepsMembers(s, v);
    ReachesRank(Sort(s), QuantileIndex(|s|, p));
    SortCounts(s, v);
    forall u | u in s && u < v ensures 100 * AtMost(s, u) < p * |s| {
      BelowFallsShort(s, p, u);
    }
  }

  lemma {:induction false} SomeAtMost(s: seq<real>, u: real)
    requires u in s
    ensures AtMost(s, u) >= 1
  {
    if s[0] != u {
      SomeAtMost(s[1..], u);
    }
  }

  /** There is only one nearest-rank value, so the order of the samples does not matter. */
  lemma NearestRankUnique(s: seq<real>, p: int, v: real, w: real)
    requires NearestRank(s, p, v) && NearestRank(s, p, w)
    ensures v == w
  {}

  lemma IndexIsMonotone(n: nat, p: int, q: int)
    requires n > 0 && p <= q
    ensures 0 <= QuantileIndex(n, p) <= QuantileIndex(n, q) < n
  {
    Scaled(n, p, q);
  }

  /** A larger percentile is never a smaller value, and none exceeds the last sorted sample. */
  lemma QuantilesAreOrdered(s: seq<real>, p: int, q: int)
    requires |s| > 0 && p <= q
    ensures |Sort(s)| == |s| && 0 <= QuantileIndex(|s|, p) <= QuantileIndex(|s|, q) < |s|
    ensures Sort(s)[QuantileIndex(|s|, p)] <= Sort(s)[QuantileIndex(|s|, q)] <= Sort(s)[|s| - 1]
  {
    SortSorts(s);
    IndexIsMonotone(|s|, p, q);
  }

  lemma LastIsMaximum(s: seq<real>)
    requires |s| > 0
    ensures |Sort(s)| == |s| && Sort(s)[|s| - 1] in s && forall u :: u in s ==> u <= Sort(s)[|s| - 1]
  {
    SortSorts(s);
    SortKeepsMembers(s, Sort(s)[|s| - 1]);
    forall u | u in s ensures u <= Sort(s)[|s| - 1] {
      SortKeepsMembers(s, u);
    }
  }
}
