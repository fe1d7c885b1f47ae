/** The activity classifier: validating the fetched activities, applying the
    sport filter and splitting the kept activities into month buckets, sport
    buckets and a with-photos list, plus the memoised `activitiesData` built
    from it. */
module Classifier {
  import opened Common
  import opened Strava
  import opened Buckets

  /** A record the classifier accepts: a non-empty sport type and a non-empty
      start date that `new Date(..)` can read. */
  predicate IsValid(a: Activity, dates: DateModel)
  {
    Truthy(a.sportType) && Truthy(a.startDate) && dates.parses(a.startDate.value)
  }

  /** The sport filter: an empty selection lets everything through. */
  predicate PassesFilter(a: Activity, filters: seq<string>)
  {
    |filters| == 0 || SportKey(a) in filters
  }

  /** `total_photo_count && total_photo_count > 0`. */
  predicate HasPhotos(a: Activity)
  {
    PositiveNumber(a.totalPhotoCount)
  }

  /** The local month of an activity's start date. */
  predicate InMonthOf(a: Activity, dates: DateModel, m: Month)
  {
    a.startDate.Some? && dates.monthOf(a.startDate.value) == m
  }

  function Valid(dates: DateModel): Activity -> bool
  {
    (a: Activity) => IsValid(a, dates)
  }

  function Kept(filters: seq<string>, dates: DateModel): Activity -> bool
  {
    (a: Activity) => IsValid(a, dates) && PassesFilter(a, filters)
  }

  function InMonth(dates: DateModel, m: Month): Activity -> bool
  {
    (a: Activity) => InMonthOf(a, dates, m)
  }

  function OfSport(s: string): Activity -> bool
  {
    (a: Activity) => SportKey(a) == s
  }

  function Photos(): Activity -> bool
  {
    (a: Activity) => HasPhotos(a)
  }

  /** One bucket per month, in calendar order, each empty. */
  function CreateEmptyMonthlyActivities(): (r: seq<Bucket<Month, Activity>>)
    ensures Keys(r) == Months
    ensures forall m :: Get(r, m) == []
    ensures TotalSize(r) == 0
  {
    var r := seq(|Months|, i requires 0 <= i < |Months| => Bucket(Months[i], []));
    assert Keys(r) == Months;
    assert TotalSize(r) == 0 by {
      SumOfZeros(r, ItemCount());
    }
    forall m ensures Get(r, m) == [] {
      MonthsDistinct();
      GetAt(r, MonthIndex(m));
    }
    r
  }

  /** What the classifier returns. */
  datatype Classified = Classified(
    all: seq<Activity>,
    allSports: seq<string>,
    byMonth: seq<Bucket<Month, Activity>>,
    byType: seq<Bucket<string, Activity>>,
    withPhotos: seq<Activity>)

  function Initial(): Classified
  {
    Classified([], [], CreateEmptyMonthlyActivities(), [], [])
  }

  /** One step of the `reduce`: an invalid record changes nothing; a valid
      one adds its sport to `allSports`; a valid one that passes the filter
      is also appended to its sport bucket, its month bucket, the photo list
      when it has photos, and the result list. */
  function Absorb(acc: Classified, a: Activity, filters: seq<string>, dates: DateModel): Classified
  {
    if !IsValid(a, dates) then acc
    else
      var sports := if SportKey(a) in acc.allSports then acc.allSports else acc.allSports + [SportKey(a)];
      if !PassesFilter(a, filters) then acc.(allSports := sports)
      else
        Classified(
          acc.all + [a],
          sports,
          Push(acc.byMonth, dates.monthOf(a.startDate.value), a),
          Push(acc.byType, SportKey(a), a),
          acc.withPhotos + (if HasPhotos(a) then [a] else []))
  }

  lemma AbsorbAllSports(acc: Classified, a: Activity, filters: seq<string>, dates: DateModel)
    ensures Absorb(acc, a, filters, dates).allSports
         == if !IsValid(a, dates) || SportKey(a) in acc.allSports then acc.allSports
            else acc.allSports + [SportKey(a)]
  {
  }

  lemma AbsorbByType(acc: Classified, a: Activity, filters: seq<string>, dates: DateModel)
    ensures Absorb(acc, a, filters, dates).byType
         == if IsValid(a, dates) && PassesFilter(a, filters) then Push(acc.byType, SportKey(a), a)
            else acc.byType
    ensures Absorb(acc, a, filters, dates).all
         == if IsValid(a, dates) && PassesFilter(a, filters) then acc.all + [a] else acc.all
  {
  }

  /** `processActivities(allActivities, filters)`. */
  function ProcessActivities(xs: seq<Activity>, filters: seq<string>, dates: DateModel): Classified
  {
    if |xs| == 0 then Initial()
    else Absorb(ProcessActivities(xs[..|xs| - 1], filters, dates), xs[|xs| - 1], filters, dates)
  }

  /** `all` holds exactly the valid records that pass the filter, in input order. */
  lemma {:induction false} ProcessAll(xs: seq<Activity>, filters: seq<string>, dates: DateModel)
    ensures ProcessActivities(xs, filters, dates).all == Filter(xs, Kept(filters, dates))
  {
    if |xs| > 0 {
      ProcessAll(xs[..|xs| - 1], filters, dates);
    }
  }

  /** `allSports` holds the distinct sports of the valid records, in order of
      first appearance, whatever the filter. */
  lemma {:induction false} ProcessAllSports(xs: seq<Activity>, filters: seq<string>, dates: DateModel)
    ensures ProcessActivities(xs, filters, dates).allSports == Distinct(Sports(Filter(xs, Valid(dates))))
  {
    if |xs| > 0 {
      var init, a := xs[..|xs| - 1], xs[|xs| - 1];
      var p := ProcessActivities(init, filters, dates);
      ProcessAllSports(init, filters, dates);
      assert ProcessActivities(xs, filters, dates) == Absorb(p, a, filters, dates);
      AbsorbAllSports(p, a, filters, dates);
      var f := Filter(init, Valid(dates));
      if IsValid(a, dates) {
        var k := SportKey(a);
        assert Filter(xs, Valid(dates)) == f + [a];
        assert Sports(f + [a]) == Sports(f) + [k] by {
          SportsSnoc(f, a);
        }
        assert Distinct(Sports(f) + [k]) == if k in Sports(f) then Distinct(Sports(f)) else Distinct(Sports(f)) + [k] by {
          DistinctSnoc(Sports(f), k);
        }
        assert k in p.allSports <==> k in Sports(f) by {
          DistinctMembership(Sports(f), k);
        }
      } else {
        assert Filter(xs, Valid(dates)) == f;
      }
    }
  }

  /** The sport filter has no effect on `allSports`. */
  lemma AllSportsIgnoresFilter(xs: seq<Activity>, f1: seq<string>, f2: seq<string>, dates: DateModel)
    ensures ProcessActivities(xs, f1, dates).allSports == ProcessActivities(xs, f2, dates).allSports
  {
    ProcessAllSports(xs, f1, dates);
    ProcessAllSports(xs, f2, dates);
  }

  /** An empty filter keeps every valid record. */
  lemma EmptyFiltersKeepAllValid(xs: seq<Activity>, dates: DateModel)
    ensures ProcessActivities(xs, [], dates).all == Filter(xs, Valid(dates))
  {
    ProcessAll(xs, [], dates);
    FilterCongruent(xs, Kept([], dates), Valid(dates));
  }

  /** A non-empty filter keeps exactly the valid records whose sport it lists. */
  lemma FilterSelectsSports(xs: seq<Activity>, filters: seq<string>, dates: DateModel, a: Activity)
    requires |filters| > 0
    ensures a in ProcessActivities(xs, filters, dates).all
        <==> a in xs && IsValid(a, dates) && SportKey(a) in filters
  {
    ProcessAll(xs, filters, dates);
    FilterMembership(xs, Kept(filters, dates), a);
  }

  /** Removing the invalid records beforehand changes nothing at all. */
  lemma {:induction false} InvalidRecordsIgnored(xs: seq<Activity>, filters: seq<string>, dates: DateModel)
    ensures ProcessActivities(xs, filters, dates)
         == ProcessActivities(Filter(xs, Valid(dates)), filters, dates)
  {
    if |xs| > 0 {
      var init, a := xs[..|xs| - 1], xs[|xs| - 1];
      InvalidRecordsIgnored(init, filters, dates);
      var f := Filter(init, Valid(dates));
      if IsValid(a, dates) {
        assert Filter(xs, Valid(dates)) == f + [a];
        assert (f + [a])[..|f|] == f;
        assert ProcessActivities(f + [a], filters, dates)
            == Absorb(ProcessActivities(f, filters, dates), a, filters, dates);
      } else {
        assert Filter(xs, Valid(dates)) == f;
      }
    }
  }

  /** The month buckets: all twelve months in order, each holding the kept
      records of that month, in input order. */
  lemma {:induction false} ProcessByMonth(xs: seq<Activity>, filters: seq<string>, dates: DateModel)
    ensures Keys(ProcessActivities(xs, filters, dates).byMonth) == Months
    ensures forall m :: Get(ProcessActivities(xs, filters, dates).byMonth, m)
                     == Filter(ProcessActivities(xs, filters, dates).all, InMonth(dates, m))
  {
    var r := ProcessActivities(xs, filters, dates);
    if |xs| > 0 {
      var init, a := xs[..|xs| - 1], xs[|xs| - 1];
      var p := ProcessActivities(init, filters, dates);
      ProcessByMonth(init, filters, dates);
      if IsValid(a, dates) && PassesFilter(a, filters) {
        var mo := dates.monthOf(a.startDate.value);
        MonthsDistinct();
        assert MonthIndex(mo) < |Months|;
        PushKeys(p.byMonth, mo, a);
        forall m ensures Get(r.byMonth, m) == Filter(r.all, InMonth(dates, m)) {
          PushGet(p.byMonth, mo, a, m);
          FilterSnoc(p.all, a, InMonth(dates, m));
        }
      }
    }
  }

  /** The sport buckets: one per distinct sport of the kept records, in order
      of first appearance, each holding that sport's kept records in order. */
  lemma {:induction false} ProcessByType(xs: seq<Activity>, filters: seq<string>, dates: DateModel)
    ensures Keys(ProcessActivities(xs, filters, dates).byType)
         == Distinct(Sports(ProcessActivities(xs, filters, dates).all))
    ensures forall s :: Get(ProcessActivities(xs, filters, dates).byType, s)
                     == Filter(ProcessActivities(xs, filters, dates).all, OfSport(s))
  {
    var r := ProcessActivities(xs, filters, dates);
    if |xs| > 0 {
      var init, a := xs[..|xs| - 1], xs[|xs| - 1];
      var p := ProcessActivities(init, filters, dates);
      ProcessByType(init, filters, dates);
      AbsorbByType(p, a, filters, dates);
      if IsValid(a, dates) && PassesFilter(a, filters) {
        SportsSnoc(p.all, a);
        DistinctSnoc(Sports(p.all), SportKey(a));
        DistinctMembership(Sports(p.all), SportKey(a));
        PushKeys(p.byType, SportKey(a), a);
        forall s ensures Get(r.byType, s) == Filter(r.all, OfSport(s)) {
          PushGet(p.byType, SportKey(a), a, s);
          FilterSnoc(p.all, a, OfSport(s));
        }
      }
    }
  }

  /** The photo list holds the kept records that have photos, in order. */
  lemma {:induction false} ProcessWithPhotos(xs: seq<Activity>, filters: seq<string>, dates: DateModel)
    ensures ProcessActivities(xs, filters, dates).withPhotos
         == Filter(ProcessActivities(xs, filters, dates).all, Photos())
  {
    if |xs| > 0 {
      var init, a := xs[..|xs| - 1], xs[|xs| - 1];
      ProcessWithPhotos(init, filters, dates);
      FilterSnoc(ProcessActivities(init, filters, dates).all, a, Photos());
    }
  }

  /** The month buckets and the sport buckets each hold as many records as `all`. */
  lemma {:induction false} ProcessSizes(xs: seq<Activity>, filters: seq<string>, dates: DateModel)
    ensures TotalSize(ProcessActivities(xs, filters, dates).byMonth) == |ProcessActivities(xs, filters, dates).all|
    ensures TotalSize(ProcessActivities(xs, filters, dates).byType) == |ProcessActivities(xs, filters, dates).all|
  {
    if |xs| == 0 {
      assert TotalSize<string, Activity>([]) == 0;
    } else {
      var init, a := xs[..|xs| - 1], xs[|xs| - 1];
      var p := ProcessActivities(init, filters, dates);
      ProcessSizes(init, filters, dates);
      if IsValid(a, dates) && PassesFilter(a, filters) {
        PushSize(p.byMonth, dates.monthOf(a.startDate.value), a);
        PushSize(p.byType, SportKey(a), a);
      }
    }
  }

  /** Each kept record sits in the bucket of its own month and in no other,
      and in the bucket of its own sport and in no other. */
  lemma Partition(xs: seq<Activity>, filters: seq<string>, dates: DateModel, i: nat)
    requires i < |ProcessActivities(xs, filters, dates).all|
    ensures var r := ProcessActivities(xs, filters, dates);
      var a := r.all[i];
      a.startDate.Some?
      && (forall m :: a in Get(r.byMonth, m) <==> m == dates.monthOf(a.startDate.value))
      && (forall s :: a in Get(r.byType, s) <==> s == SportKey(a))
  {
    var r := ProcessActivities(xs, filters, dates);
    var a := r.all[i];
    ProcessAll(xs, filters, dates);
    ProcessByMonth(xs, filters, dates);
    ProcessByType(xs, filters, dates);
    assert Kept(filters, dates)(a);
    forall m ensures a in Get(r.byMonth, m) <==> m == dates.monthOf(a.startDate.value) {
      FilterMembership(r.all, InMonth(dates, m), a);
    }
    forall s ensures a in Get(r.byType, s) <==> s == SportKey(a) {
      FilterMembership(r.all, OfSport(s), a);
    }
  }

  /** No sport bucket is empty. */
  lemma SportBucketsNonEmpty(xs: seq<Activity>, filters: seq<string>, dates: DateModel)
    ensures var bt := ProcessActivities(xs, filters, dates).byType;
      forall j :: 0 <= j < |bt| ==> |bt[j].items| > 0
  {
    var r := ProcessActivities(xs, filters, dates);
    ProcessByType(xs, filters, dates);
    forall j | 0 <= j < |r.byType| ensures |r.byType[j].items| > 0 {
      var s := r.byType[j].key;
      assert s == Keys(r.byType)[j];
      DistinctMembership(Sports(r.all), s);
      var i :| 0 <= i < |r.all| && Sports(r.all)[i] == s;
      GetAt(r.byType, j);
      FilterMembership(r.all, OfSport(s), r.all[i]);
    }
  }

  /** What the charts receive. */
  datatype ActivityData = ActivityData(
    all: seq<Activity>,
    byMonth: seq<Bucket<Month, Activity>>,
    byType: seq<Bucket<string, Activity>>)

  function EmptyActivityData(): ActivityData
  {
    ActivityData([], CreateEmptyMonthlyActivities(), [])
  }

  /** The memoised `activitiesData`: nothing fetched or an empty list gives
      the empty data, anything else the classifier's three collections. */
  function DeriveActivityData(fetched: Option<seq<Activity>>, filters: seq<string>, dates: DateModel): (r: ActivityData)
    ensures fetched.None? || |fetched.value| == 0 ==> r == EmptyActivityData()
    ensures Keys(r.byMonth) == Months
    ensures fetched.Some? && |fetched.value| > 0 ==> r.all == Filter(fetched.value, Kept(filters, dates))
    ensures forall m :: Get(r.byMonth, m) == Filter(r.all, InMonth(dates, m))
    ensures Keys(r.byType) == Distinct(Sports(r.all))
    ensures forall s :: Get(r.byType, s) == Filter(r.all, OfSport(s))
  {
    if fetched.None? || |fetched.value| == 0 then EmptyActivityData()
    else
      var c := ProcessActivities(fetched.value, filters, dates);
      ProcessAll(fetched.value, filters, dates);
      ProcessByMonth(fetched.value, filters, dates);
      ProcessByType(fetched.value, filters, dates);
      ActivityData(c.all, c.byMonth, c.byType)
  }
}
