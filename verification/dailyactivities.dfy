/** The daily-activity calendar's data preparation (`sanitizeData`): one
    entry per activity with a start time and a moving time, padded with the
    first and last day of the year, sorted by date. */
module DailyActivities {
  import opened Common
  import opened Decimal
  import opened Strava
  import opened Classifier
  import opened Sorting

  /** `{ date, count, level }`. */
  datatype CalendarEntry = CalendarEntry(date: string, count: int, level: int)

  /** `s.split("T")[0]`: the text before the first "T", all of `s` without one. */
  function DatePart(s: string): string
  {
    Before(s, 'T')
  }

  /** For a local date-time text the date part is the day. */
  lemma DatePartOfDateTime(day: string, time: string)
    requires 'T' !in day
    ensures DatePart(day + "T" + time) == day
  {
    BeforeOf(day, 'T', time);
  }

  /** `Math.min(Math.floor(t / 1000), 4)`. Dafny's `/` rounds down when the
      divisor is positive, as `Math.floor` of the quotient does. */
  function Level(t: int): (l: int)
    ensures l <= 4
    ensures t >= 0 ==> l >= 0
    ensures l < 4 ==> l * 1000 <= t < (l + 1) * 1000
    ensures l == 4 <==> t >= 4000
  {
    Min(t / 1000, 4)
  }

  /** `act.start_date_local && act.moving_time`: a non-empty local start and
      a moving time that is present and not 0. */
  predicate OnCalendar(a: Activity)
  {
    Truthy(a.startDateLocal) && a.movingTime.Some? && a.movingTime.value != 0
  }

  function CalendarKept(): Activity -> bool
  {
    (a: Activity) => OnCalendar(a)
  }

  /** The entry pushed for an activity. */
  function EntryOf(a: Activity): CalendarEntry
  {
    var local := if a.startDateLocal.Some? then a.startDateLocal.value else "";
    var moving := if a.movingTime.Some? then a.movingTime.value else 0;
    CalendarEntry(DatePart(local), 1, Level(moving))
  }

  /** The `reduce` that pushes one entry per activity on the calendar. */
  function ActivityEntries(acts: seq<Activity>): seq<CalendarEntry>
  {
    if |acts| == 0 then []
    else
      var a := acts[|acts| - 1];
      ActivityEntries(acts[..|acts| - 1]) + (if OnCalendar(a) then [EntryOf(a)] else [])
  }

  function Dates(es: seq<CalendarEntry>): (r: seq<string>)
    ensures |r| == |es|
    ensures forall i :: 0 <= i < |es| ==> r[i] == es[i].date
  {
    seq(|es|, i requires 0 <= i < |es| => es[i].date)
  }

  /** `${currentYear}-01-01`. */
  function StartDate(year: int): string
  {
    IntToString(year) + "-01-01"
  }

  /** `${currentYear}-12-31`. */
  function EndDate(year: int): string
  {
    IntToString(year) + "-12-31"
  }

  /** An empty day on the calendar. */
  function Blank(date: string): CalendarEntry
  {
    CalendarEntry(date, 0, 0)
  }

  /** The first and the last day of the year pushed when no activity fell on them. */
  function Padded(entries: seq<CalendarEntry>, year: int): seq<CalendarEntry>
  {
    var days := Dates(entries);
    var withStart := if StartDate(year) in days then entries else entries + [Blank(StartDate(year))];
    if EndDate(year) in days then withStart else withStart + [Blank(EndDate(year))]
  }

  /** `new Date(e.date).getTime()`. */
  function EntryTime(dates: DateModel): CalendarEntry -> int
  {
    (e: CalendarEntry) => dates.timeOf(e.date)
  }

  /** `sanitizeData(data, currentYear)`. */
  function SanitizeData(data: ActivityData, year: int, dates: DateModel): seq<CalendarEntry>
  {
    if |data.all| == 0 then []
    else SortBy(Padded(ActivityEntries(data.all), year), EntryTime(dates))
  }

  /** One entry per activity on the calendar, in input order: its day, a
      count of one and its level. */
  lemma {:induction false} EntriesOfKept(acts: seq<Activity>)
    ensures var es, kept := ActivityEntries(acts), Filter(acts, CalendarKept());
      |es| == |kept| && forall i :: 0 <= i < |es| ==> es[i] == EntryOf(kept[i])
  {
    if |acts| > 0 {
      var init, a := acts[..|acts| - 1], acts[|acts| - 1];
      EntriesOfKept(init);
      assert acts == init + [a];
      FilterSnoc(init, a, CalendarKept());
    }
  }

  /** The first and last day of a year are different days. */
  lemma BoundaryDatesDiffer(year: int)
    ensures StartDate(year) != EndDate(year)
  {
    var n := |IntToString(year)|;
    assert StartDate(year)[n + 1] == '0';
    assert EndDate(year)[n + 1] == '1';
  }

  /** No activity data gives no calendar. */
  lemma NoActivitiesNoCalendar(data: ActivityData, year: int, dates: DateModel)
    requires |data.all| == 0
    ensures SanitizeData(data, year, dates) == []
  {
  }

  /** The calendar is in ascending date order, and entries of the same date
      keep the order they were pushed in. */
  lemma CalendarSorted(data: ActivityData, year: int, dates: DateModel, t: int)
    requires |data.all| > 0
    ensures var r := SanitizeData(data, year, dates);
      && SortedBy(r, EntryTime(dates))
      && Filter(r, KeyIs(EntryTime(dates), t)) == Filter(Padded(ActivityEntries(data.all), year), KeyIs(EntryTime(dates), t))
  {
    var key := EntryTime(dates);
    SortBySorted(Padded(ActivityEntries(data.all), year), key);
    SortByStable(Padded(ActivityEntries(data.all), year), key, t);
  }

  function Shown(): CalendarEntry -> bool
  {
    (e: CalendarEntry) => e.count > 0
  }

  /** The padding adds only blank entries. */
  lemma PaddedParts(es: seq<CalendarEntry>, year: int)
    ensures var p := Padded(es, year);
      && |p| >= |es| && p[..|es|] == es
      && forall i :: |es| <= i < |p| ==> p[i] == Blank(StartDate(year)) || p[i] == Blank(EndDate(year))
  {
  }

  /** Of the padded entries, the shown ones are exactly the activities'. */
  lemma PaddedShown(es: seq<CalendarEntry>, year: int)
    requires forall i :: 0 <= i < |es| ==> es[i].count > 0
    ensures Filter(Padded(es, year), Shown()) == es
  {
    var days := Dates(es);
    FilterKeepsAll(es, Shown());
    var withStart := if StartDate(year) in days then es else es + [Blank(StartDate(year))];
    BlankNotShown(es, StartDate(year));
    BlankNotShown(withStart, EndDate(year));
  }

  /** A blank entry is not counted as shown. */
  lemma BlankNotShown(es: seq<CalendarEntry>, date: string)
    ensures Filter(es + [Blank(date)], Shown()) == Filter(es, Shown())
  {
    FilterSnoc(es, Blank(date), Shown());
  }

  /** The count above the calendar (`data.filter(d => d.count > 0).length`)
      is the number of activities on it: padding entries are not counted. */
  lemma ShownCountIsKeptCount(data: ActivityData, year: int, dates: DateModel)
    requires |data.all| > 0
    ensures |Filter(SanitizeData(data, year, dates), Shown())| == |Filter(data.all, CalendarKept())|
  {
    var es := ActivityEntries(data.all);
    var p := Padded(es, year);
    EntriesOfKept(data.all);
    PaddedShown(es, year);
    SortByPermutes(p, EntryTime(dates));
    FilterOfPermutation(SortBy(p, EntryTime(dates)), p, Shown());
  }

  /** Both ends of the year are on a non-empty calendar. */
  lemma CalendarBoundaries(data: ActivityData, year: int, dates: DateModel)
    requires |data.all| > 0
    ensures var r := SanitizeData(data, year, dates);
      StartDate(year) in Dates(r) && EndDate(year) in Dates(r)
  {
    var es := ActivityEntries(data.all);
    var p := Padded(es, year);
    SortByKeepsElements(p, EntryTime(dates));
    BoundaryInCalendar(es, year, StartDate(year), SanitizeData(data, year, dates));
    BoundaryInCalendar(es, year, EndDate(year), SanitizeData(data, year, dates));
  }

  /** An entry with a zero count is a blank first or last day of the year
      on which no activity fell; every other entry is an activity's entry. */
  lemma CalendarEntryKinds(data: ActivityData, year: int, dates: DateModel, i: nat)
    requires |data.all| > 0 && i < |SanitizeData(data, year, dates)|
    ensures var e, es := SanitizeData(data, year, dates)[i], ActivityEntries(data.all);
      && (e.count == 0 ==>
            e.level == 0 && (e.date == StartDate(year) || e.date == EndDate(year)) && e.date !in Dates(es))
      && (e.count != 0 ==> e in es)
  {
    var es := ActivityEntries(data.all);
    var p := Padded(es, year);
    var e := SanitizeData(data, year, dates)[i];
    EntriesOfKept(data.all);
    SortByKeepsElements(p, EntryTime(dates));
    PaddedMember(es, year, e);
  }

  /** What the padded list holds: the activities' entries and, for a
      boundary day no activity has, its blank entry. */
  lemma PaddedMember(es: seq<CalendarEntry>, year: int, e: CalendarEntry)
    requires e in Padded(es, year)
    ensures || e in es
            || (e == Blank(StartDate(year)) && StartDate(year) !in Dates(es))
            || (e == Blank(EndDate(year)) && EndDate(year) !in Dates(es))
  {
  }

  /** A boundary day is either an activity's day or padded in, so it is in
      any rearrangement of the padded entries. */
  lemma BoundaryInCalendar(es: seq<CalendarEntry>, year: int, day: string, r: seq<CalendarEntry>)
    requires day == StartDate(year) || day == EndDate(year)
    requires forall e :: e in r <==> e in Padded(es, year)
    ensures day in Dates(r)
  {
    var p := Padded(es, year);
    var e: CalendarEntry;
    if day in Dates(es) {
      var j :| 0 <= j < |es| && Dates(es)[j] == day;
      e := es[j];
    } else {
      e := Blank(day);
    }
    assert e in p;
    var k :| 0 <= k < |r| && r[k] == e;
    assert Dates(r)[k] == day;
  }
}
