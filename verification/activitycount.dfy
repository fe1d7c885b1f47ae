/** The activity-count chart's aggregation (`calculateMonthlyActivities`):
    per month bucket, the number of activities of each sport, and the total
    number of activities. */
module ActivityCount {
  import opened Common
  import opened Strava
  import opened Buckets
  import opened Classifier
  import opened Charts

  /** The inner `reduce`: one count per sport key, keys in order of first
      appearance. A key, once set, is at least 1, so `!acc[k]` holds exactly
      when the key is absent and both branches add one to `acc[k] || 0`. */
  function TallySports(acts: seq<Activity>): seq<Entry<string>>
  {
    if |acts| == 0 then []
    else AddTo(TallySports(acts[..|acts| - 1]), SportKey(acts[|acts| - 1]), 1)
  }

  /** The keys of the tally are the distinct sports of the bucket, in order
      of first appearance: a sport with no activity has no key. */
  lemma {:induction false} TallySportsKeys(acts: seq<Activity>)
    ensures TallyKeys(TallySports(acts)) == Distinct(Sports(acts))
  {
    if |acts| > 0 {
      var init, a := acts[..|acts| - 1], acts[|acts| - 1];
      assert acts == init + [a];
      TallySportsKeys(init);
      AddToKeys(TallySports(init), SportKey(a), 1);
      SportsSnoc(init, a);
      DistinctSnoc(Sports(init), SportKey(a));
      DistinctMembership(Sports(init), SportKey(a));
    }
  }

  /** The count under a sport is the number of the bucket's activities of
      that sport. */
  lemma {:induction false} TallySportsCounts(acts: seq<Activity>, s: string)
    ensures Lookup(TallySports(acts), s) == |Filter(acts, OfSport(s))|
  {
    if |acts| > 0 {
      var init, a := acts[..|acts| - 1], acts[|acts| - 1];
      assert acts == init + [a];
      TallySportsCounts(init, s);
      AddToLookup(TallySports(init), SportKey(a), 1, s);
      FilterSnoc(init, a, OfSport(s));
    }
  }

  /** The counts of one bucket add up to its size. */
  lemma {:induction false} TallySportsSum(acts: seq<Activity>)
    ensures SumValues(TallySports(acts)) == |acts|
  {
    if |acts| > 0 {
      TallySportsSum(acts[..|acts| - 1]);
      AddToSum(TallySports(acts[..|acts| - 1]), SportKey(acts[|acts| - 1]), 1);
    }
  }

  /** The row of one month bucket. */
  function MonthRow(b: Bucket<Month, Activity>): ChartRow
  {
    ChartRow(b.key, TallySports(b.items))
  }

  /** The outer `reduce` over `Object.entries(monthlyData)`: a row per bucket
      pushed in order, and the running number of activities. */
  function Accumulate(bs: seq<Bucket<Month, Activity>>): ChartResult
  {
    if |bs| == 0 then ChartResult([], 0)
    else
      var acc := Accumulate(bs[..|bs| - 1]);
      var b := bs[|bs| - 1];
      ChartResult(acc.chartData + [MonthRow(b)], acc.total + |b.items|)
  }

  /** `calculateMonthlyActivities`: the accumulated rows, unless no activity
      was counted at all. */
  function CalculateMonthlyActivities(monthly: seq<Bucket<Month, Activity>>): ChartResult
  {
    var r := Accumulate(monthly);
    if r.total > 0 then r else NoChart
  }

  /** The reduce yields one row per bucket, in order, and counts every activity. */
  lemma {:induction false} AccumulateRows(bs: seq<Bucket<Month, Activity>>)
    ensures |Accumulate(bs).chartData| == |bs|
    ensures forall i :: 0 <= i < |bs| ==> Accumulate(bs).chartData[i] == MonthRow(bs[i])
    ensures Accumulate(bs).total == TotalSize(bs)
  {
    if |bs| > 0 {
      var init, b := bs[..|bs| - 1], bs[|bs| - 1];
      AccumulateRows(init);
      assert bs == init + [b];
      SumOfSnoc(init, b, ItemCount());
    }
  }

  /** With at least one activity: one row per month key, in input order;
      each row holds, for exactly the sports present that month, the number
      of that month's activities of the sport, adding up to the bucket's
      size; the total is the number of activities over all months. */
  lemma MonthlyRows(monthly: seq<Bucket<Month, Activity>>, i: nat, s: string)
    requires TotalSize(monthly) > 0 && i < |monthly|
    ensures var r := CalculateMonthlyActivities(monthly);
      && |r.chartData| == |monthly|
      && r.total == TotalSize(monthly)
      && r.chartData[i].month == monthly[i].key
      && TallyKeys(r.chartData[i].cells) == Distinct(Sports(monthly[i].items))
      && Lookup(r.chartData[i].cells, s) == |Filter(monthly[i].items, OfSport(s))|
      && SumValues(r.chartData[i].cells) == |monthly[i].items|
  {
    AccumulateRows(monthly);
    TallySportsKeys(monthly[i].items);
    TallySportsCounts(monthly[i].items, s);
    TallySportsSum(monthly[i].items);
  }

  /** Every month empty gives the empty chart. */
  lemma AllMonthsEmpty(monthly: seq<Bucket<Month, Activity>>)
    requires forall i :: 0 <= i < |monthly| ==> |monthly[i].items| == 0
    ensures CalculateMonthlyActivities(monthly) == NoChart
  {
    AccumulateRows(monthly);
    SumOfZeros(monthly, ItemCount());
  }

  /** On the classifier's month buckets, the chart counts exactly the
      records that survived validation and the filter. */
  lemma CountsAllKept(xs: seq<Activity>, filters: seq<string>, dates: DateModel)
    ensures var r := ProcessActivities(xs, filters, dates);
      CalculateMonthlyActivities(r.byMonth).total == |r.all|
  {
    var r := ProcessActivities(xs, filters, dates);
    ProcessSizes(xs, filters, dates);
    AccumulateRows(r.byMonth);
  }
}
