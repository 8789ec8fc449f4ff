/**
 * The statistics computed over the filtered view: the record count, column means,
 * the awareness gauge, per-platform means (pandas `groupby("Platform").mean()`)
 * and the awareness leaderboard. Means are exact reals; an undefined mean (the
 * mean of no values, NaN in pandas) is `None`.
 */
module Aggregates {
  import opened Wrappers
  import opened Text
  import opened Records
  import opened Filters

  function Sum(xs: seq<real>): real {
    if xs == [] then 0.0 else xs[0] + Sum(xs[1..])
  }

  /** `Series.mean()`: undefined exactly for no values. */
  function Mean(xs: seq<real>): (m: Option<real>)
    ensures m.None? <==> xs == []
  {
    if xs == [] then None else Some(Sum(xs) / (|xs| as real))
  }

  function ColumnMean(rows: seq<Record>, col: Column): Option<real> {
    Mean(ColumnValues(rows, col))
  }

  lemma {:induction false} SumBounds(xs: seq<real>, lo: real, hi: real)
    requires forall i :: 0 <= i < |xs| ==> lo <= xs[i] <= hi
    ensures (|xs| as real) * lo <= Sum(xs) <= (|xs| as real) * hi
  {
    if xs != [] {
      SumBounds(xs[1..], lo, hi);
    }
  }

  /** A mean lies between any lower and upper bound of its values. */
  lemma MeanBounds(xs: seq<real>, lo: real, hi: real)
    requires forall i :: 0 <= i < |xs| ==> lo <= xs[i] <= hi
    ensures Mean(xs).Some? ==> lo <= Mean(xs).value <= hi
  {
    if xs != [] {
      SumBounds(xs, lo, hi);
      QuotientBounds(Sum(xs), |xs| as real, lo, hi);
    }
  }

  lemma QuotientBounds(s: real, n: real, lo: real, hi: real)
    requires n > 0.0 && n * lo <= s <= n * hi
    ensures lo <= s / n <= hi
  {
  }

  /** Bounds on a column carry over to its mean. */
  lemma ColumnMeanBounds(rows: seq<Record>, col: Column, lo: real, hi: real)
    requires forall r :: r in rows ==> lo <= ValueOf(r, col) <= hi
    ensures ColumnMean(rows, col).Some? ==> lo <= ColumnMean(rows, col).value <= hi
  {
    MeanBounds(ColumnValues(rows, col), lo, hi);
  }

  /** The four "Quick Insights" metrics. */
  datatype Summary = Summary(records: nat, avgTime: Option<real>, avgDataShared: Option<real>, avgAwareness: Option<real>)

  function Summarize(view: seq<Record>): (s: Summary)
    ensures s.records == |view|
    ensures s.avgTime.None? <==> view == []
    ensures s.avgDataShared.None? <==> view == []
    ensures s.avgAwareness.None? <==> view == []
  {
    Summary(|view|, ColumnMean(view, TimeSpent), ColumnMean(view, DataShared), ColumnMean(view, Awareness))
  }

  /** The gauge shows the mean awareness, or 0 when that mean is undefined. */
  function Gauge(view: seq<Record>): (g: real)
    ensures view == [] ==> g == 0.0
    ensures view != [] ==> ColumnMean(view, Awareness) == Some(g)
  {
    ColumnMean(view, Awareness).GetOr(0.0)
  }

  const AWARENESS_MIN := 0.0
  const AWARENESS_MAX := 5.0

  /** When every awareness answer is on the 0-5 scale, so is the gauge's value. */
  lemma GaugeOnScale(view: seq<Record>)
    requires forall r :: r in view ==> AWARENESS_MIN <= r.awareness <= AWARENESS_MAX
    ensures AWARENESS_MIN <= Gauge(view) <= AWARENESS_MAX
  {
    ColumnMeanBounds(view, Awareness, AWARENESS_MIN, AWARENESS_MAX);
  }

  /** The distinct platforms present in a view. */
  function Platforms(view: seq<Record>): set<string> {
    set r | r in view :: r.platform
  }

  predicate StrictlyAscending(keys: seq<string>) {
    forall i, j :: 0 <= i < j < |keys| ==> Less(keys[i], keys[j])
  }

  /** Adds `k` to a sorted key list, keeping it sorted and free of repeats. */
  function InsertKey(keys: seq<string>, k: string): (r: seq<string>)
    requires StrictlyAscending(keys)
    ensures StrictlyAscending(r)
    ensures forall x :: x in r <==> x in keys || x == k
  {
    if keys == [] then [k]
    else if k == keys[0] then keys
    else if Less(k, keys[0]) then
      assert forall j :: 0 <= j < |keys| ==> Less(k, keys[j]) by {
        forall j | 0 < j < |keys| ensures Less(k, keys[j]) {
          LessTransitive(k, keys[0], keys[j]);
        }
      }
      [k] + keys
    else
      LessTotal(k, keys[0]);
      var rest := InsertKey(keys[1..], k);
      assert forall x :: x in rest ==> Less(keys[0], x);
      [keys[0]] + rest
  }

  /** The group keys of `groupby("Platform")`: each platform once, in ascending order. */
  function GroupKeys(view: seq<Record>): (keys: seq<string>)
    ensures StrictlyAscending(keys)
    ensures forall p :: p in keys <==> p in Platforms(view)
  {
    if view == [] then []
    else
      assert forall r :: r in view <==> r == view[0] || r in view[1..];
      InsertKey(GroupKeys(view[1..]), view[0].platform)
  }

  /** The rows of one platform, in order. */
  function PlatformRows(view: seq<Record>, p: string): seq<Record> {
    Select(view, (r: Record) => r.platform == p)
  }

  /** One row of a per-platform table. */
  datatype GroupRow = GroupRow(platform: string, value: real)

  /** The mean of `col` over the rows of platform `p`, which is present. */
  function GroupMean(view: seq<Record>, p: string, col: Column): (m: real)
    requires p in Platforms(view)
    ensures ColumnMean(PlatformRows(view, p), col) == Some(m)
  {
    var r :| r in view && r.platform == p;
    assert r in PlatformRows(view, p);
    ColumnMean(PlatformRows(view, p), col).value
  }

  /**
   * `groupby("Platform", as_index=False)[col].mean()`: exactly one row for each
   * platform present in the view, in ascending platform order, each holding the
   * mean of that platform's rows.
   */
  function Groups(view: seq<Record>, col: Column): (g: seq<GroupRow>)
    ensures forall i, j :: 0 <= i < j < |g| ==> Less(g[i].platform, g[j].platform)
    ensures DistinctPlatforms(g)
    ensures PlatformTable(view, g, col)
  {
    var keys := GroupKeys(view);
    var g := seq(|keys|, i requires 0 <= i < |keys| => GroupRow(keys[i], GroupMean(view, keys[i], col)));
    KeyedTable(view, keys, g, col);
    g
  }

  predicate DistinctPlatforms(g: seq<GroupRow>) {
    forall i, j :: 0 <= i < j < |g| ==> g[i].platform != g[j].platform
  }

  /** A table built on the sorted group keys has the properties `Groups` promises. */
  lemma KeyedTable(view: seq<Record>, keys: seq<string>, g: seq<GroupRow>, col: Column)
    requires StrictlyAscending(keys)
    requires forall p :: p in keys <==> p in Platforms(view)
    requires |g| == |keys|
    requires forall i :: 0 <= i < |g| ==> g[i].platform == keys[i]
    requires forall i :: 0 <= i < |g| ==> ColumnMean(PlatformRows(view, keys[i]), col) == Some(g[i].value)
    ensures forall i, j :: 0 <= i < j < |g| ==> Less(g[i].platform, g[j].platform)
    ensures DistinctPlatforms(g)
    ensures PlatformTable(view, g, col)
  {
    forall i, j | 0 <= i < j < |g| ensures g[i].platform != g[j].platform {
      LessIrreflexive(g[i].platform);
    }
    forall p | p in Platforms(view) ensures exists i :: 0 <= i < |g| && g[i].platform == p {
      var i :| 0 <= i < |keys| && keys[i] == p;
      assert g[i].platform == p;
    }
  }

  predicate NonIncreasing(g: seq<GroupRow>) {
    forall i, j :: 0 <= i < j < |g| ==> g[i].value >= g[j].value
  }

  lemma HeadIsLargest(g: seq<GroupRow>)
    requires NonIncreasing(g)
    ensures g != [] ==> forall y :: y in g ==> g[0].value >= y.value
  {
  }

  lemma ConsNonIncreasing(h: GroupRow, rest: seq<GroupRow>)
    requires NonIncreasing(rest)
    requires forall y :: y in rest ==> h.value >= y.value
    ensures NonIncreasing([h] + rest)
  {
    var r := [h] + rest;
    forall i, j | 0 <= i < j < |r| ensures r[i].value >= r[j].value {
      assert r[j] == rest[j - 1];
      if i > 0 {
        assert r[i] == rest[i - 1];
      }
    }
  }

  /** Places `x` into a list ordered by descending value. */
  function InsertByValue(x: GroupRow, g: seq<GroupRow>): (r: seq<GroupRow>)
    requires NonIncreasing(g)
    ensures NonIncreasing(r)
    ensures multiset(r) == multiset(g) + multiset{x}
  {
    if g == [] || x.value >= g[0].value then
      HeadIsLargest(g);
      ConsNonIncreasing(x, g);
      [x] + g
    else
      assert g == [g[0]] + g[1..];
      var rest := InsertByValue(x, g[1..]);
      SameElements(rest, g[1..] + [x]);
      HeadIsLargest(g);
      ConsNonIncreasing(g[0], rest);
      [g[0]] + rest
  }

  /** Inserting a row of a new platform into rows of distinct platforms keeps them distinct. */
  lemma {:induction false} InsertKeepsDistinct(x: GroupRow, g: seq<GroupRow>)
    requires NonIncreasing(g) && DistinctPlatforms(g)
    requires forall y :: y in g ==> y.platform != x.platform
    ensures DistinctPlatforms(InsertByValue(x, g))
  {
    if g != [] && x.value < g[0].value {
      var rest := InsertByValue(x, g[1..]);
      InsertKeepsDistinct(x, g[1..]);
      SameElements(rest, g[1..] + [x]);
      var r := [g[0]] + rest;
      forall i, j | 0 <= i < j < |r| ensures r[i].platform != r[j].platform {
        assert r[j] == rest[j - 1];
        if i > 0 {
          assert r[i] == rest[i - 1];
        } else {
          assert r[j] in rest;
          assert r[j] in g[1..] + [x];
          if r[j] != x {
            var k :| 0 <= k < |g[1..]| && g[1..][k] == r[j];
            assert g[k + 1] == r[j];
          }
        }
      }
    }
  }

  /**
   * `sort_values(ascending=False)`: ordered by descending value and a permutation
   * of the input. Which of several equal values comes first is not part of what
   * pandas promises.
   */
  function SortByValueDesc(g: seq<GroupRow>): (r: seq<GroupRow>)
    ensures NonIncreasing(r)
    ensures multiset(r) == multiset(g)
  {
    if g == [] then []
    else
      assert g == [g[0]] + g[1..];
      InsertByValue(g[0], SortByValueDesc(g[1..]))
  }

  /** Sorting rows of distinct platforms keeps them distinct. */
  lemma {:induction false} SortKeepsDistinct(g: seq<GroupRow>)
    requires DistinctPlatforms(g)
    ensures DistinctPlatforms(SortByValueDesc(g))
  {
    if g != [] {
      var rest := SortByValueDesc(g[1..]);
      SortKeepsDistinct(g[1..]);
      SameElements(rest, g[1..]);
      InsertKeepsDistinct(g[0], rest);
    }
  }

  /** Permutations have the same elements. */
  lemma SameElements(a: seq<GroupRow>, b: seq<GroupRow>)
    requires multiset(a) == multiset(b)
    ensures forall y :: y in a <==> y in b
  {
    forall y ensures y in a <==> y in b {
      assert y in a <==> y in multiset(a);
      assert y in b <==> y in multiset(b);
    }
  }

  /**
   * The awareness leaderboard, before rounding for display: ordered by
   * non-increasing mean awareness, with exactly one row per platform present in
   * the view, holding that platform's mean awareness.
   */
  function Leaderboard(view: seq<Record>): (lb: seq<GroupRow>)
    ensures NonIncreasing(lb)
    ensures DistinctPlatforms(lb)
    ensures PlatformTable(view, lb, Awareness)
  {
    var g := Groups(view, Awareness);
    SortKeepsDistinct(g);
    PermutedTable(view, g, SortByValueDesc(g), Awareness);
    SortByValueDesc(g)
  }

  /**
   * `g` lists the platforms of `view`, and each row holds the mean of `col` over
   * that platform's rows.
   */
  ghost predicate PlatformTable(view: seq<Record>, g: seq<GroupRow>, col: Column) {
    && (forall p :: p in Platforms(view) <==> exists i :: 0 <= i < |g| && g[i].platform == p)
    && (forall i :: 0 <= i < |g| ==> ColumnMean(PlatformRows(view, g[i].platform), col) == Some(g[i].value))
  }

  lemma PermutedTable(view: seq<Record>, g: seq<GroupRow>, h: seq<GroupRow>, col: Column)
    requires PlatformTable(view, g, col)
    requires multiset(h) == multiset(g)
    ensures PlatformTable(view, h, col)
  {
    SameElements(h, g);
    forall p | p in Platforms(view) ensures exists i :: 0 <= i < |h| && h[i].platform == p {
      var k :| 0 <= k < |g| && g[k].platform == p;
      assert g[k] in h;
      var i :| 0 <= i < |h| && h[i] == g[k];
    }
    forall i | 0 <= i < |h| ensures ColumnMean(PlatformRows(view, h[i].platform), col) == Some(h[i].value) {
      assert h[i] in g;
      var k :| 0 <= k < |g| && g[k] == h[i];
    }
  }

  /** The value column of a table. */
  function Values(g: seq<GroupRow>): seq<real> {
    seq(|g|, i requires 0 <= i < |g| => g[i].value)
  }

  /** `g` with position `k` removed. */
  function Without(g: seq<GroupRow>, k: nat): (r: seq<GroupRow>)
    requires k < |g|
    ensures |r| == |g| - 1
    ensures forall i :: 0 <= i < k ==> r[i] == g[i]
    ensures forall i :: k <= i < |r| ==> r[i] == g[i + 1]
    ensures multiset(r) == multiset(g) - multiset{g[k]}
  {
    assert g == g[..k] + [g[k]] + g[k + 1..];
    g[..k] + g[k + 1..]
  }

  lemma WithoutNonIncreasing(g: seq<GroupRow>, k: nat)
    requires k < |g| && NonIncreasing(g)
    ensures NonIncreasing(Without(g, k))
  {
    var r := Without(g, k);
    forall i, j | 0 <= i < j < |r| ensures r[i].value >= r[j].value {
      var i0 := if i < k then i else i + 1;
      var j0 := if j < k then j else j + 1;
      assert r[i] == g[i0] && r[j] == g[j0];
    }
  }

  /** In a descending list, everything between two equal values is equal to them. */
  lemma TiedRun(g: seq<GroupRow>, k: nat)
    requires NonIncreasing(g) && k < |g| && g[0].value == g[k].value
    ensures forall i :: 0 <= i <= k ==> g[i].value == g[0].value
  {
  }

  /**
   * Any two descending orderings of the same rows show the same values position by
   * position: however ties are broken, the means read the same top to bottom.
   */
  lemma {:induction false} DescendingOrdersAgree(a: seq<GroupRow>, b: seq<GroupRow>)
    requires NonIncreasing(a) && NonIncreasing(b)
    requires multiset(a) == multiset(b)
    ensures |a| == |b|
    ensures forall i :: 0 <= i < |a| ==> a[i].value == b[i].value
    decreases |a|
  {
    assert |a| == |multiset(a)| == |multiset(b)| == |b|;
    if a != [] {
      SameElements(a, b);
      assert a[0] in b && b[0] in a;
      var k :| 0 <= k < |b| && b[k] == a[0];
      HeadIsLargest(a);
      HeadIsLargest(b);
      assert a[0].value == b[0].value;
      var rest := Without(b, k);
      assert a == [a[0]] + a[1..];
      assert multiset(rest) == multiset(a[1..]);
      WithoutNonIncreasing(b, k);
      DescendingOrdersAgree(a[1..], rest);
      TiedRun(b, k);
      forall i | 0 < i < |a| ensures a[i].value == b[i].value {
        assert a[i] == a[1..][i - 1];
        if i <= k {
          assert rest[i - 1] == b[i - 1];
        } else {
          assert rest[i - 1] == b[i];
        }
      }
    }
  }

  /** Whatever tie order a descending sort picks, the leaderboard's values are the same. */
  lemma LeaderboardTieIndependent(view: seq<Record>, other: seq<GroupRow>)
    requires NonIncreasing(other)
    requires multiset(other) == multiset(Groups(view, Awareness))
    ensures Values(other) == Values(Leaderboard(view))
  {
    var lb := Leaderboard(view);
    DescendingOrdersAgree(other, lb);
    assert forall i :: 0 <= i < |lb| ==> Values(other)[i] == Values(lb)[i];
  }
}
