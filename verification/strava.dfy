/** The records the dashboard receives from the fitness API, restricted to the
    fields the modelled logic reads, and the calendar months activities are
    bucketed into. */
module Strava {
  import opened Common

  datatype Month =
    | January | February | March | April | May | June
    | July | August | September | October | November | December

  /** The twelve months in calendar order (the `MONTHS` list). */
  const Months: seq<Month> :=
    [January, February, March, April, May, June,
     July, August, September, October, November, December]

  /** The position of a month in `Months`. */
  function MonthIndex(m: Month): (i: nat)
    ensures i < |Months| && Months[i] == m
  {
    match m
    case January => 0
    case February => 1
    case March => 2
    case April => 3
    case May => 4
    case June => 5
    case July => 6
    case August => 7
    case September => 8
    case October => 9
    case November => 10
    case December => 11
  }

  /** Every month occurs in `Months` exactly once. */
  lemma MonthsDistinct()
    ensures NoDup(Months)
    ensures forall i :: 0 <= i < |Months| ==> MonthIndex(Months[i]) == i
  {
  }

  /** Different months sit at different positions. */
  lemma MonthIndexInjective(m: Month, m': Month)
    ensures MonthIndex(m) == MonthIndex(m') <==> m == m'
  {
  }

  /** A summary activity of the list endpoint. Absent optional fields are
      `None`; display-only fields (distance, heart rate, ...) are left out. */
  datatype Activity = Activity(
    id: int,
    sportType: Option<string>,
    startDate: Option<string>,
    startDateLocal: Option<string>,
    movingTime: Option<int>,
    achievementCount: Option<int>,
    totalPhotoCount: Option<int>)

  /** One segment effort of a detailed activity; `komRank` is the rank among
      all athletes (1 = King/Queen of the Mountain), `None` for `null`. */
  datatype SegmentEffort = SegmentEffort(id: int, komRank: Option<int>)

  /** The part of the detail endpoint's answer the enrichment reads. */
  datatype ActivityDetail = ActivityDetail(id: int, segmentEfforts: Option<seq<SegmentEffort>>)

  /** What the browser's `Date` does with a date text, left uninterpreted:
      whether `new Date(s)` is a valid date, the local month it falls in,
      and its `getTime()` value. */
  datatype DateModel = DateModel(
    parses: string -> bool,
    monthOf: string -> Month,
    timeOf: string -> int)

  /** JavaScript truthiness of an optional string: present and not empty. */
  predicate Truthy(s: Option<string>)
  {
    s.Some? && s.value != ""
  }

  /** `n && n > 0` for an optional number. */
  predicate PositiveNumber(n: Option<int>)
  {
    n.Some? && n.value > 0
  }

  /** The object key a sport type becomes (`undefined` turns into "undefined"). */
  function SportKey(a: Activity): string
  {
    match a.sportType
    case Some(s) => s
    case None => "undefined"
  }

  /** The sport keys of a list of activities, in order. */
  function Sports(xs: seq<Activity>): (r: seq<string>)
    ensures |r| == |xs|
    ensures forall i :: 0 <= i < |xs| ==> r[i] == SportKey(xs[i])
  {
    seq(|xs|, i requires 0 <= i < |xs| => SportKey(xs[i]))
  }

  lemma SportsSnoc(xs: seq<Activity>, a: Activity)
    ensures Sports(xs + [a]) == Sports(xs) + [SportKey(a)]
  {
  }

  /** The ids of a list of activities, in order. */
  function Ids(xs: seq<Activity>): (r: seq<int>)
    ensures |r| == |xs|
    ensures forall i :: 0 <= i < |xs| ==> r[i] == xs[i].id
  {
    seq(|xs|, i requires 0 <= i < |xs| => xs[i].id)
  }

  lemma IdsSnoc(xs: seq<Activity>, a: Activity)
    ensures Ids(xs + [a]) == Ids(xs) + [a.id]
  {
  }

  /** The set of ids of a list of activities. */
  function IdSet(xs: seq<Activity>): set<int>
  {
    set a | a in xs :: a.id
  }

  /** No two activities of the list share an id. */
  predicate DistinctIds(xs: seq<Activity>)
  {
    forall i, j :: 0 <= i < j < |xs| ==> xs[i].id != xs[j].id
  }
}
