/**
 * The content of the one-page PDF summary: the record count, the three means and
 * at most five leaderboard rows, drawn one below the other.
 */
module Report {
  import opened Wrappers
  import opened Records
  import opened Aggregates

  const TOP_COUNT := 5
  /** Vertical position of the first leaderboard line and the step between lines. */
  const FIRST_LINE_Y := 600
  const LINE_STEP := 16

  /** One drawn leaderboard line: its vertical position, platform and mean awareness. */
  datatype PdfLine = PdfLine(y: int, platform: string, awareness: real)

  datatype PdfReport = PdfReport(
    records: nat,
    avgTime: Option<real>,
    avgDataShared: Option<real>,
    avgAwareness: Option<real>,
    lines: seq<PdfLine>)

  function Min(a: int, b: int): int {
    if a < b then a else b
  }

  /**
   * `generate_pdf_bytes(df)`, drawing the leaderboard `lb` of the dashboard.
   * The figures are those of the dashboard's own metrics for `df`; the lines are
   * the first `min(5, |lb|)` leaderboard rows in order, each 16 units below the last.
   * For any descending leaderboard, whatever its tie order, the lines descend too
   * and no row left out has a higher mean than a listed one.
   */
  method GeneratePdf(df: seq<Record>, lb: seq<GroupRow>) returns (report: PdfReport)
    ensures report.records == Summarize(df).records == |df|
    ensures report.avgTime == Summarize(df).avgTime
    ensures report.avgDataShared == Summarize(df).avgDataShared
    ensures report.avgAwareness == Summarize(df).avgAwareness
    ensures |report.lines| == Min(TOP_COUNT, |lb|)
    ensures forall i :: 0 <= i < |report.lines| ==>
              report.lines[i] == PdfLine(FIRST_LINE_Y - LINE_STEP * i, lb[i].platform, lb[i].value)
    ensures NonIncreasing(lb) ==>
              forall i, j :: 0 <= i < j < |report.lines| ==> report.lines[i].awareness >= report.lines[j].awareness
    ensures NonIncreasing(lb) ==>
              forall i, j :: 0 <= i < |report.lines| <= j < |lb| ==> report.lines[i].awareness >= lb[j].value
  {
    var summary := Summarize(df);
    var top := lb[..Min(TOP_COUNT, |lb|)];
    var lines: seq<PdfLine> := [];
    var y := FIRST_LINE_Y;
    for i := 0 to |top|
      invariant |lines| == i
      invariant y == FIRST_LINE_Y - LINE_STEP * i
      invariant forall k :: 0 <= k < i ==> lines[k] == PdfLine(FIRST_LINE_Y - LINE_STEP * k, top[k].platform, top[k].value)
    {
      lines := lines + [PdfLine(y, top[i].platform, top[i].value)];
      y := y - LINE_STEP;
    }
    report := PdfReport(summary.records, summary.avgTime, summary.avgDataShared, summary.avgAwareness, lines);
  }
}
