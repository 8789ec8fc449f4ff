/** One survey response: a row of the dataset. */
module Records {
  import opened Wrappers

  /** A calendar date, as a day number. */
  type Day = int

  /**
   * The columns the dashboard reads. `date` is the row's value in the recognised
   * date column after parsing; `None` is a missing value (pandas' NaT).
   */
  datatype Record = Record(
    ageGroup: string,
    platform: string,
    timeSpent: real,
    dataShared: real,
    awareness: real,
    privacyTools: string,
    date: Option<Day>)

  /** The numeric columns that are averaged. */
  datatype Column = TimeSpent | DataShared | Awareness

  function ValueOf(r: Record, col: Column): real {
    match col
    case TimeSpent => r.timeSpent
    case DataShared => r.dataShared
    case Awareness => r.awareness
  }

  /** One numeric column of a table, in row order. */
  function ColumnValues(rows: seq<Record>, col: Column): seq<real> {
    seq(|rows|, i requires 0 <= i < |rows| => ValueOf(rows[i], col))
  }
}
