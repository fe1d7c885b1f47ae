/** The shape shared by the bar and area charts: one row per month with one
    number per sport key, in the order the keys were first set, and the
    headline total shown above the chart. */
module Charts {
  import opened Strava
  import opened Buckets

  /** `{ month, [sport]: number, ... }`. */
  datatype ChartRow = ChartRow(month: Month, cells: seq<Entry<string>>)

  /** `{ chartData, total }`. */
  datatype ChartResult = ChartResult(chartData: seq<ChartRow>, total: int)

  /** `{ chartData: [], total: 0 }`, what a chart with nothing to show gets. */
  const NoChart: ChartResult := ChartResult([], 0)

  function RowMonths(rows: seq<ChartRow>): (r: seq<Month>)
    ensures |r| == |rows|
    ensures forall i :: 0 <= i < |rows| ==> r[i] == rows[i].month
  {
    seq(|rows|, i requires 0 <= i < |rows| => rows[i].month)
  }
}
