/**
 * The filter engine: the filtered view is rebuilt from all rows by an age-group
 * step, a platform step and an inclusive date-range step, each a selection that
 * keeps row order.
 */
module Filters {
  import opened Wrappers
  import opened Records

  /** `xs` is `ys` with some elements removed, the rest kept in order. */
  predicate IsSubsequence<T(==)>(xs: seq<T>, ys: seq<T>)
    decreases |ys|
  {
    if xs == [] then true
    else if ys == [] then false
    else (xs[0] == ys[0] && IsSubsequence(xs[1..], ys[1..])) || IsSubsequence(xs, ys[1..])
  }

  /** pandas boolean indexing `rows[mask]`: the rows satisfying `keep`, in order. */
  function Select(rows: seq<Record>, keep: Record -> bool): (r: seq<Record>)
    ensures IsSubsequence(r, rows)
    ensures forall x :: x in r <==> x in rows && keep(x)
    ensures forall x :: multiset(r)[x] == if keep(x) then multiset(rows)[x] else 0
  {
    if rows == [] then []
    else
      assert rows == [rows[0]] + rows[1..];
      var rest := Select(rows[1..], keep);
      if keep(rows[0]) then [rows[0]] + rest else rest
  }

  lemma {:induction false} SelectAll(rows: seq<Record>, keep: Record -> bool)
    requires forall x :: x in rows ==> keep(x)
    ensures Select(rows, keep) == rows
  {
    if rows != [] {
      SelectAll(rows[1..], keep);
    }
  }

  lemma {:induction false} SelectSame(rows: seq<Record>, p: Record -> bool, q: Record -> bool)
    requires forall x :: p(x) == q(x)
    ensures Select(rows, p) == Select(rows, q)
  {
    if rows != [] {
      SelectSame(rows[1..], p, q);
    }
  }

  /** Selecting by `p` and then by `q` is selecting by their conjunction. */
  lemma {:induction false} SelectThenSelect(rows: seq<Record>, p: Record -> bool, q: Record -> bool, both: Record -> bool)
    requires forall x :: both(x) == (p(x) && q(x))
    ensures Select(Select(rows, p), q) == Select(rows, both)
  {
    if rows != [] {
      SelectThenSelect(rows[1..], p, q, both);
    }
  }

  /** A weaker condition selects a supersequence. */
  lemma {:induction false} SelectWeaker(rows: seq<Record>, p: Record -> bool, q: Record -> bool)
    requires forall x :: p(x) ==> q(x)
    ensures IsSubsequence(Select(rows, p), Select(rows, q))
  {
    if rows != [] {
      SelectWeaker(rows[1..], p, q);
      var rp, rq := Select(rows[1..], p), Select(rows[1..], q);
      if p(rows[0]) {
        assert ([rows[0]] + rp)[1..] == rp;
      } else if q(rows[0]) {
        if rp != [] {
          assert ([rows[0]] + rq)[1..] == rq;
        }
      }
    }
  }

  /** An inclusive range of days, as picked in the sidebar. */
  datatype DateRange = DateRange(start: Day, end: Day)

  /**
   * What the user picked: the age groups and platforms (empty means no restriction)
   * and the date range, which is only offered when a date column was recognised.
   */
  datatype Selection = Selection(ages: set<string>, platforms: set<string>, range: Option<DateRange>)

  /** A multi-select admits a value when nothing is picked or the value is picked. */
  predicate Admits(chosen: set<string>, v: string) {
    chosen == {} || v in chosen
  }

  /** `start <= date <= end`; a missing date compares false. */
  predicate InRange(d: Option<Day>, range: DateRange) {
    d.Some? && range.start <= d.value <= range.end
  }

  /** `if date_col and date_range`. */
  predicate DateFilterActive(dateCol: Option<string>, sel: Selection) {
    dateCol.Some? && sel.range.Some?
  }

  /** `filtered["Age_Group"].isin(age_filter)`, applied only when some age group is picked. */
  function ByAge(rows: seq<Record>, ages: set<string>): (r: seq<Record>)
    ensures r == Select(rows, (x: Record) => Admits(ages, x.ageGroup))
    ensures ages == {} ==> r == rows
    ensures IsSubsequence(r, rows)
    ensures forall x :: x in r <==> x in rows && Admits(ages, x.ageGroup)
  {
    if ages == {} then
      SelectAll(rows, (x: Record) => Admits(ages, x.ageGroup));
      rows
    else
      SelectSame(rows, (x: Record) => x.ageGroup in ages, (x: Record) => Admits(ages, x.ageGroup));
      Select(rows, (x: Record) => x.ageGroup in ages)
  }

  /** `filtered["Platform"].isin(platform_filter)`, applied only when some platform is picked. */
  function ByPlatform(rows: seq<Record>, platforms: set<string>): (r: seq<Record>)
    ensures r == Select(rows, (x: Record) => Admits(platforms, x.platform))
    ensures platforms == {} ==> r == rows
    ensures IsSubsequence(r, rows)
    ensures forall x :: x in r <==> x in rows && Admits(platforms, x.platform)
  {
    if platforms == {} then
      SelectAll(rows, (x: Record) => Admits(platforms, x.platform));
      rows
    else
      SelectSame(rows, (x: Record) => x.platform in platforms, (x: Record) => Admits(platforms, x.platform));
      Select(rows, (x: Record) => x.platform in platforms)
  }

  /** `(filtered[date_col] >= start) & (filtered[date_col] <= end)`. */
  function ByDate(rows: seq<Record>, range: DateRange): (r: seq<Record>)
    ensures r == Select(rows, (x: Record) => InRange(x.date, range))
    ensures IsSubsequence(r, rows)
    ensures forall x :: x in r <==> x in rows && x.date.Some? && range.start <= x.date.value <= range.end
    ensures forall x :: multiset(r)[x] == if InRange(x.date, range) then multiset(rows)[x] else 0
  {
    Select(rows, (x: Record) => InRange(x.date, range))
  }

  /** The date step, active or not, is a selection by `date`. */
  lemma DateStep(rows: seq<Record>, dateCol: Option<string>, sel: Selection, date: Record -> bool)
    requires forall r :: date(r) == (DateFilterActive(dateCol, sel) ==> InRange(r.date, sel.range.value))
    ensures (if DateFilterActive(dateCol, sel) then ByDate(rows, sel.range.value) else rows) == Select(rows, date)
  {
    if DateFilterActive(dateCol, sel) {
      SelectSame(rows, (x: Record) => InRange(x.date, sel.range.value), date);
    } else {
      SelectAll(rows, date);
    }
  }

  /** Whether a row satisfies every active filter. */
  predicate Matches(dateCol: Option<string>, sel: Selection, r: Record) {
    && Admits(sel.ages, r.ageGroup)
    && Admits(sel.platforms, r.platform)
    && (DateFilterActive(dateCol, sel) ==> InRange(r.date, sel.range.value))
  }

  /**
   * The filtered view: the three steps applied one after the other. Together they
   * are one selection by `Matches`, so the view keeps the order of the data and is
   * exactly the rows matching every active filter, each as often as in the data.
   */
  function FilterView(rows: seq<Record>, dateCol: Option<string>, sel: Selection): (v: seq<Record>)
    ensures v == Select(rows, (r: Record) => Matches(dateCol, sel, r))
    ensures IsSubsequence(v, rows)
    ensures forall r :: r in v <==> r in rows && Matches(dateCol, sel, r)
    ensures forall r :: multiset(v)[r] == if Matches(dateCol, sel, r) then multiset(rows)[r] else 0
  {
    var age := (r: Record) => Admits(sel.ages, r.ageGroup);
    var platform := (r: Record) => Admits(sel.platforms, r.platform);
    var agePlatform := (r: Record) => age(r) && platform(r);
    var date := (r: Record) => DateFilterActive(dateCol, sel) ==> InRange(r.date, sel.range.value);
    var byAge := ByAge(rows, sel.ages);
    var byPlatform := ByPlatform(byAge, sel.platforms);
    SelectThenSelect(rows, age, platform, agePlatform);
    var v := if DateFilterActive(dateCol, sel) then ByDate(byPlatform, sel.range.value) else byPlatform;
    DateStep(byPlatform, dateCol, sel, date);
    SelectThenSelect(rows, agePlatform, date, (r: Record) => Matches(dateCol, sel, r));
    v
  }

  /** With nothing picked and no date filter the view is the whole dataset. */
  lemma EmptySelectionKeepsAll(rows: seq<Record>, dateCol: Option<string>, sel: Selection)
    requires sel.ages == {} && sel.platforms == {} && !DateFilterActive(dateCol, sel)
    ensures FilterView(rows, dateCol, sel) == rows
  {
  }

  /**
   * Adding values to a multi-select that already has values never removes a row.
   * (Adding the first value to an empty multi-select does narrow the view.)
   */
  lemma AddingValuesKeepsRows(rows: seq<Record>, dateCol: Option<string>, sel: Selection,
                              moreAges: set<string>, morePlatforms: set<string>)
    requires sel.ages != {} || moreAges == {}
    requires sel.platforms != {} || morePlatforms == {}
    ensures IsSubsequence(FilterView(rows, dateCol, sel),
                          FilterView(rows, dateCol, sel.(ages := sel.ages + moreAges,
                                                         platforms := sel.platforms + morePlatforms)))
  {
    var wider := sel.(ages := sel.ages + moreAges, platforms := sel.platforms + morePlatforms);
    SelectWeaker(rows, (r: Record) => Matches(dateCol, sel, r), (r: Record) => Matches(dateCol, wider, r));
  }

  /**
   * Picking the first age group does narrow the view: an empty multi-select is no
   * restriction, so a row of another age group that the view kept is dropped.
   */
  lemma FirstValueCanNarrow(rows: seq<Record>, dateCol: Option<string>, sel: Selection, age: string, r: Record)
    requires sel.ages == {}
    requires r in rows && Matches(dateCol, sel, r) && r.ageGroup != age
    ensures r in FilterView(rows, dateCol, sel)
    ensures r !in FilterView(rows, dateCol, sel.(ages := {age}))
  {
    var narrower := sel.(ages := {age});
    assert !Matches(dateCol, narrower, r);
    var v := FilterView(rows, dateCol, narrower);
    assert r in v <==> r in rows && Matches(dateCol, narrower, r);
  }

  /** `data[date_col].min()` and `.max()`: the earliest and latest dates present. */
  function DateBounds(rows: seq<Record>): (b: Option<DateRange>)
    ensures b.None? <==> forall r :: r in rows ==> r.date.None?
    ensures b.Some? ==> b.value.start <= b.value.end
    ensures b.Some? ==> forall r :: r in rows && r.date.Some? ==> InRange(r.date, b.value)
    ensures b.Some? ==> exists r :: r in rows && r.date == Some(b.value.start)
    ensures b.Some? ==> exists r :: r in rows && r.date == Some(b.value.end)
  {
    if rows == [] then None
    else
      var rest := DateBounds(rows[1..]);
      assert forall r :: r in rows <==> r == rows[0] || r in rows[1..];
      match rows[0].date
      case None => rest
      case Some(d) =>
        match rest
        case None => Some(DateRange(d, d))
        case Some(b) =>
          Some(DateRange(if d < b.start then d else b.start, if d > b.end then d else b.end))
  }

  /**
   * The date picker starts at the full range of the data; when every row is dated,
   * that default range together with empty multi-selects keeps every row.
   */
  lemma DefaultRangeKeepsAll(rows: seq<Record>, dateCol: Option<string>)
    requires forall r :: r in rows ==> r.date.Some?
    ensures FilterView(rows, dateCol, Selection({}, {}, DateBounds(rows))) == rows
  {
    var sel := Selection({}, {}, DateBounds(rows));
    if DateFilterActive(dateCol, sel) {
      SelectAll(rows, (r: Record) => InRange(r.date, sel.range.value));
    }
  }
}
