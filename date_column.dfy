/**
 * Recognising the optional date column at load time: the first column whose
 * lower-cased name contains "date" is chosen, and if its values cannot be parsed
 * the dashboard runs without a date column. Later columns are never tried.
 */
module DateColumn {
  import opened Wrappers
  import opened Text

  const DATE_TOKEN := "date"

  /** `'date' in name.lower()`. */
  predicate IsDateName(name: string) {
    Contains(Lower(name), DATE_TOKEN)
  }

  /** The position of the first date-like column name, if any. */
  function FirstDateIndex(columns: seq<string>): (r: Option<nat>)
    ensures r.Some? ==> r.value < |columns| && IsDateName(columns[r.value])
    ensures r.Some? ==> forall j :: 0 <= j < r.value ==> !IsDateName(columns[j])
    ensures r.None? ==> forall j :: 0 <= j < |columns| ==> !IsDateName(columns[j])
  {
    if columns == [] then None
    else if IsDateName(columns[0]) then Some(0)
    else
      match FirstDateIndex(columns[1..])
      case None => None
      case Some(k) => Some(k + 1)
  }

  /**
   * The load-time scan. `parses(c)` says whether parsing every value of column `c`
   * as a date succeeds. The result is the first date-like column if it parses,
   * and no column otherwise.
   */
  method DetectDateColumn(columns: seq<string>, parses: string -> bool) returns (dateCol: Option<string>)
    ensures dateCol.Some? <==> FirstDateIndex(columns).Some? && parses(columns[FirstDateIndex(columns).value])
    ensures dateCol.Some? ==> dateCol.value == columns[FirstDateIndex(columns).value]
  {
    dateCol := None;
    var i := 0;
    while i < |columns|
      invariant 0 <= i <= |columns|
      invariant forall j :: 0 <= j < i ==> !IsDateName(columns[j])
      invariant dateCol == None
    {
      var c := columns[i];
      if IsDateName(c) {
        dateCol := Some(c);
        if !parses(c) {
          dateCol := None;
        }
        break;
      }
      i := i + 1;
    }
  }
}
