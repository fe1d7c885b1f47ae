/** The KOMs-over-time chart's aggregation (`calculateKomsOverTime`): the
    KOM counts of the enrichment run, summed per month and sport. */
module KomsOverTime {
  import opened Common
  import opened Strava
  import opened Buckets
  import opened Classifier
  import opened Charts

  /** `komData.get(id) || 0`. */
  function KomValue(komData: map<int, int>, id: int): int
  {
    if id in komData then komData[id] else 0
  }

  /** An activity adds to the chart only with a positive count and a
      non-empty sport type (`koms > 0 && act.sport_type`). */
  predicate Counted(komData: map<int, int>, a: Activity)
  {
    KomValue(komData, a.id) > 0 && Truthy(a.sportType)
  }

  /** One row per month of `MONTHS`, every sport key set to 0. */
  function InitialRows(sports: seq<string>): (rows: seq<ChartRow>)
    ensures RowMonths(rows) == Months
    ensures forall i :: 0 <= i < |rows| ==> rows[i].cells == Zeros(sports)
  {
    seq(|Months|, i requires 0 <= i < |Months| => ChartRow(Months[i], Zeros(sports)))
  }

  /** `chartData.find(item => item.month === month)`, as the index of the
      first row of that month. */
  function FindMonth(rows: seq<ChartRow>, m: Month): (r: Option<nat>)
    ensures r.Some? ==> r.value < |rows| && rows[r.value].month == m
    ensures r.Some? ==> forall j :: 0 <= j < r.value ==> rows[j].month != m
    ensures r.None? ==> forall j :: 0 <= j < |rows| ==> rows[j].month != m
  {
    if |rows| == 0 then None
    else if rows[0].month == m then Some(0)
    else
      match FindMonth(rows[1..], m)
      case Some(i) => Some(i + 1)
      case None => None
  }

  /** Rows laid out as `MONTHS` is. */
  predicate MonthRows(rows: seq<ChartRow>)
  {
    RowMonths(rows) == Months
  }

  /** In rows laid out as `MONTHS`, the row of a month is found at its
      calendar position. */
  lemma FindMonthInMonthRows(rows: seq<ChartRow>, m: Month)
    requires MonthRows(rows)
    ensures FindMonth(rows, m) == Some(MonthIndex(m))
  {
    MonthsDistinct();
    assert rows[MonthIndex(m)].month == m;
  }

  /** The accumulator of the `reduce`: the rows and `totalKoms`. */
  datatype KomAcc = KomAcc(rows: seq<ChartRow>, total: int)

  /** The body of `activities.forEach`, for an activity of month `m`. */
  function AddActivity(acc: KomAcc, m: Month, a: Activity, komData: map<int, int>): KomAcc
  {
    var koms := KomValue(komData, a.id);
    if koms > 0 && Truthy(a.sportType) then
      match FindMonth(acc.rows, m)
      case Some(i) =>
        var row := acc.rows[i];
        KomAcc(acc.rows[i := row.(cells := AddTo(row.cells, SportKey(a), koms))], acc.total + koms)
      case None => acc
    else acc
  }

  /** `activities.forEach(...)` over one month's activities. */
  function AddActivities(acc: KomAcc, m: Month, acts: seq<Activity>, komData: map<int, int>): KomAcc
  {
    if |acts| == 0 then acc
    else AddActivity(AddActivities(acc, m, acts[..|acts| - 1], komData), m, acts[|acts| - 1], komData)
  }

  /** The `reduce` over `Object.entries(data.byMonth)`. */
  function AddMonths(acc: KomAcc, bs: seq<Bucket<Month, Activity>>, komData: map<int, int>): KomAcc
  {
    if |bs| == 0 then acc
    else
      var b := bs[|bs| - 1];
      AddActivities(AddMonths(acc, bs[..|bs| - 1], komData), b.key, b.items, komData)
  }

  /** `calculateKomsOverTime(data, komData)`. */
  function CalculateKomsOverTime(data: ActivityData, komData: map<int, int>): ChartResult
  {
    if |komData| == 0 then NoChart
    else
      var acc := AddMonths(KomAcc(InitialRows(Keys(data.byType)), 0), data.byMonth, komData);
      if acc.total > 0 then ChartResult(acc.rows, acc.total) else NoChart
  }

  // Reference definitions: what each cell and the total should hold.

  /** What an activity adds to the cell of sport `s`. */
  function SportKoms(komData: map<int, int>, s: string): Activity -> int
  {
    (a: Activity) => if Counted(komData, a) && SportKey(a) == s then KomValue(komData, a.id) else 0
  }

  /** What an activity adds to the total. */
  function ActivityKoms(komData: map<int, int>): Activity -> int
  {
    (a: Activity) => if Counted(komData, a) then KomValue(komData, a.id) else 0
  }

  /** What a bucket adds to the cell of month `m` and sport `s`. */
  function BucketSportKoms(komData: map<int, int>, m: Month, s: string): Bucket<Month, Activity> -> int
  {
    (b: Bucket<Month, Activity>) => if b.key == m then SumOf(b.items, SportKoms(komData, s)) else 0
  }

  /** What a bucket adds to the total. */
  function BucketKoms(komData: map<int, int>): Bucket<Month, Activity> -> int
  {
    (b: Bucket<Month, Activity>) => SumOf(b.items, ActivityKoms(komData))
  }

  /** The KOM count summed over all activities of month `m` and sport `s`. */
  function Cell(bs: seq<Bucket<Month, Activity>>, komData: map<int, int>, m: Month, s: string): int
  {
    SumOf(bs, BucketSportKoms(komData, m, s))
  }

  /** The KOM count summed over all activities. */
  function TotalKoms(bs: seq<Bucket<Month, Activity>>, komData: map<int, int>): int
  {
    SumOf(bs, BucketKoms(komData))
  }

  function RowValue(): ChartRow -> int
  {
    (row: ChartRow) => SumValues(row.cells)
  }

  /** The sum of every cell of every row. */
  function CellTotal(rows: seq<ChartRow>): int
  {
    SumOf(rows, RowValue())
  }

  /** Every cell of every row is at least zero. */
  predicate NonNegativeRows(rows: seq<ChartRow>)
  {
    forall i :: 0 <= i < |rows| ==> NonNegativeTally(rows[i].cells)
  }

  /** What the accumulator keeps throughout: the `MONTHS` layout, `totalKoms`
      equal to the sum of the cells, and no negative cell. */
  predicate Consistent(acc: KomAcc)
  {
    MonthRows(acc.rows) && CellTotal(acc.rows) == acc.total && NonNegativeRows(acc.rows)
  }

  /** Adding a positive amount to one cell of one row: the row months stay,
      the sum of the cells grows by the amount, no cell turns negative,
      and no other cell changes. */
  lemma AddToRow(rows: seq<ChartRow>, i: nat, k: string, v: int)
    requires i < |rows| && v > 0 && NonNegativeRows(rows)
    ensures var rows' := rows[i := rows[i].(cells := AddTo(rows[i].cells, k, v))];
      && RowMonths(rows') == RowMonths(rows)
      && CellTotal(rows') == CellTotal(rows) + v
      && NonNegativeRows(rows')
      && forall j, s :: 0 <= j < |rows| ==>
           Lookup(rows'[j].cells, s) == Lookup(rows[j].cells, s) + (if j == i && s == k then v else 0)
  {
    var row := rows[i];
    var row' := row.(cells := AddTo(row.cells, k, v));
    var rows' := rows[i := row'];
    assert RowMonths(rows') == RowMonths(rows);
    AddToSum(row.cells, k, v);
    SumOfUpdate(rows, i, row', RowValue());
    AddToNonNegative(row.cells, k, v);
    forall j, s | 0 <= j < |rows|
      ensures Lookup(rows'[j].cells, s) == Lookup(rows[j].cells, s) + (if j == i && s == k then v else 0)
    {
      AddToLookup(row.cells, k, v, s);
    }
  }

  /** One activity: the cell of its month and sport and the total grow by
      its count when it is counted; nothing else changes. */
  lemma AddActivityStep(acc: KomAcc, m: Month, a: Activity, komData: map<int, int>, m': Month, s: string)
    requires Consistent(acc)
    ensures var r := AddActivity(acc, m, a, komData);
      && Consistent(r)
      && r.total == acc.total + ActivityKoms(komData)(a)
      && Lookup(r.rows[MonthIndex(m')].cells, s)
         == Lookup(acc.rows[MonthIndex(m')].cells, s) + (if m' == m then SportKoms(komData, s)(a) else 0)
  {
    var koms := KomValue(komData, a.id);
    if koms > 0 && Truthy(a.sportType) {
      FindMonthInMonthRows(acc.rows, m);
      AddToRow(acc.rows, MonthIndex(m), SportKey(a), koms);
      MonthIndexInjective(m, m');
    }
  }

  /** One month's activities. */
  lemma {:induction false} AddActivitiesStep(acc: KomAcc, m: Month, acts: seq<Activity>, komData: map<int, int>, m': Month, s: string)
    requires Consistent(acc)
    ensures var r := AddActivities(acc, m, acts, komData);
      && Consistent(r)
      && r.total == acc.total + SumOf(acts, ActivityKoms(komData))
      && Lookup(r.rows[MonthIndex(m')].cells, s)
         == Lookup(acc.rows[MonthIndex(m')].cells, s) + (if m' == m then SumOf(acts, SportKoms(komData, s)) else 0)
  {
    if |acts| > 0 {
      var init, a := acts[..|acts| - 1], acts[|acts| - 1];
      AddActivitiesStep(acc, m, init, komData, m', s);
      AddActivityStep(AddActivities(acc, m, init, komData), m, a, komData, m', s);
    }
  }

  /** All months: every cell holds its reference sum and the total the sum
      over all activities. */
  lemma {:induction false} AddMonthsSums(acc: KomAcc, bs: seq<Bucket<Month, Activity>>, komData: map<int, int>, m: Month, s: string)
    requires Consistent(acc)
    ensures var r := AddMonths(acc, bs, komData);
      && Consistent(r)
      && r.total == acc.total + TotalKoms(bs, komData)
      && Lookup(r.rows[MonthIndex(m)].cells, s) == Lookup(acc.rows[MonthIndex(m)].cells, s) + Cell(bs, komData, m, s)
  {
    if |bs| > 0 {
      var init, b := bs[..|bs| - 1], bs[|bs| - 1];
      AddMonthsSums(acc, init, komData, m, s);
      AddActivitiesStep(AddMonths(acc, init, komData), b.key, b.items, komData, m, s);
    }
  }

  /** The starting rows: every cell zero. */
  lemma InitialConsistent(sports: seq<string>)
    ensures Consistent(KomAcc(InitialRows(sports), 0))
    ensures forall m, s :: Lookup(InitialRows(sports)[MonthIndex(m)].cells, s) == 0
  {
    var rows := InitialRows(sports);
    ZerosSum(sports);
    SumOfZeros(rows, RowValue());
    forall m, s ensures Lookup(rows[MonthIndex(m)].cells, s) == 0 {
      ZerosLookup(sports, s);
    }
  }

  /** An empty KOM map gives the empty chart. */
  lemma EmptyKomData(data: ActivityData)
    ensures CalculateKomsOverTime(data, map[]) == NoChart
  {
  }

  /** When the chart is shown: the twelve months in calendar order, each
      starting from every sport of `byType` at 0; the cell of month `m` and
      sport `s` holds the KOM count summed over that month's activities of
      that sport (activities with no or no positive count adding nothing);
      the total is the sum of all cells and of all counted activities; no
      cell is negative. */
  lemma ChartCells(data: ActivityData, komData: map<int, int>, m: Month, s: string)
    requires CalculateKomsOverTime(data, komData).total > 0
    ensures var r := CalculateKomsOverTime(data, komData);
      && RowMonths(r.chartData) == Months
      && Lookup(r.chartData[MonthIndex(m)].cells, s) == Cell(data.byMonth, komData, m, s)
      && r.total == CellTotal(r.chartData)
      && r.total == TotalKoms(data.byMonth, komData)
      && NonNegativeRows(r.chartData)
  {
    var sports := Keys(data.byType);
    InitialConsistent(sports);
    AddMonthsSums(KomAcc(InitialRows(sports), 0), data.byMonth, komData, m, s);
  }

  /** The chart is empty exactly when the KOM map is empty or no activity
      of the month buckets carries a positive count with a sport. */
  lemma EmptyChartIff(data: ActivityData, komData: map<int, int>)
    ensures CalculateKomsOverTime(data, komData) == NoChart
        <==> |komData| == 0 || TotalKoms(data.byMonth, komData) == 0
    ensures CalculateKomsOverTime(data, komData).total >= 0
  {
    var sports := Keys(data.byType);
    InitialConsistent(sports);
    AddMonthsSums(KomAcc(InitialRows(sports), 0), data.byMonth, komData, January, "");
    TotalKomsNonNegative(data.byMonth, komData);
  }

  lemma TotalKomsNonNegative(bs: seq<Bucket<Month, Activity>>, komData: map<int, int>)
    ensures TotalKoms(bs, komData) >= 0
  {
    forall i | 0 <= i < |bs| ensures BucketKoms(komData)(bs[i]) >= 0 {
      SumOfNonNegative(bs[i].items, ActivityKoms(komData));
    }
    SumOfNonNegative(bs, BucketKoms(komData));
  }
}
