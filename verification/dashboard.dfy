/** The dashboard: which view it renders, the status code it reads back
    out of an API error message, and the shuffled order of the charts. */
module Dashboard {
  import opened Common
  import opened Decimal
  import opened Classifier
  import opened Api
  import opened Sorting

  /** The four views the dashboard renders. */
  datatype View =
    | LoadingView
    | ErrorView(message: string, code: Option<int>)
    | NoActivitiesView
    | ChartsView

  /** The render branches, tried in order: loading, then an error, then no
      activities, then the charts. */
  function Render(loading: bool, error: Option<string>, data: Option<ActivityData>): View
  {
    if loading then LoadingView
    else if error.Some? then ErrorView(error.value, ErrorCode(error.value))
    else if data.None? || |data.value.all| == 0 then NoActivitiesView
    else ChartsView
  }

  /** How `slice` reads an index: a negative one counts from the end, and
      the result is clamped to the text. */
  function SliceIndex(i: int, len: nat): (r: nat)
    ensures r <= len
    ensures 0 <= i <= len ==> r == i
    ensures -(len as int) <= i < 0 ==> r as int == len as int + i
  {
    if i < 0 then (if len + i < 0 then 0 else len + i)
    else if i > len then len
    else i
  }

  /** JavaScript `s.slice(start, end)`. */
  function JsSlice(s: string, start: int, end: int): string
  {
    var a, b := SliceIndex(start, |s|), SliceIndex(end, |s|);
    if a < b then s[a..b] else ""
  }

  /** `parseInt(message.slice(message.indexOf('<') + 1, message.indexOf('>')), 10) || null`:
      `NaN` and 0 both become `null` (`None`). */
  function ErrorCode(message: string): (r: Option<int>)
    ensures r.Some? ==> r.value != 0
  {
    var v := ParseIntJs(JsSlice(message, IndexOf(message, '<') + 1, IndexOf(message, '>')));
    if v.None? || v.value == 0 then None else v
  }

  /** Each view is rendered exactly under its condition. */
  lemma RenderPrecedence(loading: bool, error: Option<string>, data: Option<ActivityData>)
    ensures Render(loading, error, data) == LoadingView <==> loading
    ensures Render(loading, error, data).ErrorView? <==> !loading && error.Some?
    ensures Render(loading, error, data) == NoActivitiesView
        <==> !loading && error.None? && (data.None? || |data.value.all| == 0)
    ensures Render(loading, error, data) == ChartsView
        <==> !loading && error.None? && data.Some? && |data.value.all| > 0
  {
  }

  /** The error view shows the message it got and the code read out of it. */
  lemma ErrorViewCode(error: string, data: Option<ActivityData>)
    ensures Render(false, Some(error), data) == ErrorView(error, ErrorCode(error))
  {
  }

  /** In a text made of a head without brackets, "<", a middle without
      ">" and a final ">", the first "<" ends the head and the first ">" ends
      the middle. */
  lemma BracketPositions(head: string, middle: string)
    requires '<' !in head && '>' !in head && '>' !in middle
    ensures var m := head + "<" + middle + ">";
      && IndexOf(m, '<') == |head|
      && IndexOf(m, '>') == |head| + 1 + |middle|
      && m[|head| + 1..|head| + 1 + |middle|] == middle
  {
    var m := head + "<" + middle + ">";
    assert m == head + ['<'] + (middle + ">");
    IndexOfAfter(head, '<', middle + ">");
    assert '>' !in head + "<" + middle;
    assert m == (head + "<" + middle) + ['>'] + "";
    IndexOfAfter(head + "<" + middle, '>', "");
  }

  /** Where the status sits in the message of a failed API call. */
  lemma ErrorMessageParts(url: string, status: int)
    requires '<' !in url && '>' !in url
    ensures var m, head := ErrorMessage(url, status), "Failed api call to " + url + " ";
      && IndexOf(m, '<') == |head|
      && IndexOf(m, '>') == |head| + 1 + |IntToString(status)|
      && m[|head| + 1..|head| + 1 + |IntToString(status)|] == IntToString(status)
  {
    var prefix, d := "Failed api call to ", IntToString(status);
    var head := prefix + url + " ";
    assert '<' !in prefix && '>' !in prefix;
    assert '<' !in head && '>' !in head by {
      assert forall c :: c in head ==> c in prefix || c in url || c == ' ';
    }
    assert ErrorMessage(url, status) == head + "<" + d + ">";
    IntToStringAlphabet(status, '>');
    BracketPositions(head, d);
  }

  /** The code read back out of the message of a failed API call is the
      response's status, whenever the URL has no angle brackets (a status
      of 0 reads as no code). */
  lemma ErrorCodeOfMessage(url: string, status: int)
    requires '<' !in url && '>' !in url
    ensures ErrorCode(ErrorMessage(url, status)) == if status == 0 then None else Some(status)
  {
    var d := IntToString(status);
    var m := ErrorMessage(url, status);
    var start := |"Failed api call to " + url + " "| + 1;
    ErrorMessageParts(url, status);
    assert JsSlice(m, start, start + |d|) == d;
    ParseIntOfIntToString(status, "");
    assert d + "" == d;
  }

  /** The ids of `GRAPH_COMPONENTS`, in their declared order. */
  const GraphComponents: seq<string> := [
    "distance", "distanceByType", "elevation", "activityCount", "restDays",
    "sportTypes", "totalHours", "records", "streaks", "socials",
    "biggestActivity", "photo", "startTimes", "prsOverTime", "distanceRanges",
    "gear", "distanceVsElevation", "heartrateVsSpeed", "distanceVsPower",
    "tempVsSpeed", "distanceVsSpeed", "heartrateZones"]

  /** A chart id with the random number drawn for it. */
  datatype Draw = Draw(value: string, sort: int)

  function DrawSort(): Draw -> int
  {
    (d: Draw) => d.sort
  }

  function Draws(random: nat -> int): (r: seq<Draw>)
    ensures |r| == |GraphComponents|
    ensures forall i :: 0 <= i < |r| ==> r[i] == Draw(GraphComponents[i], random(i))
  {
    seq(|GraphComponents|, i requires 0 <= i < |GraphComponents| => Draw(GraphComponents[i], random(i)))
  }

  function Values(ds: seq<Draw>): (r: seq<string>)
    ensures |r| == |ds|
    ensures forall i :: 0 <= i < |ds| ==> r[i] == ds[i].value
  {
    seq(|ds|, i requires 0 <= i < |ds| => ds[i].value)
  }

  /** `shuffleGraphComponents`: each chart gets a random number (the `i`-th
      draw is `random(i)`), the charts are sorted by it, and the ids are
      read off in that order. */
  function ShuffleGraphComponents(random: nat -> int): seq<string>
  {
    Values(SortBy(Draws(random), DrawSort()))
  }

  lemma GraphComponentsDistinct()
    ensures NoDup(GraphComponents)
  {
  }

  /** The sorted draws are the draws rearranged, none twice. */
  lemma SortedDraws(random: nat -> int)
    ensures var ds := Draws(random); var sorted := SortBy(ds, DrawSort());
      && |sorted| == |ds| && NoDup(sorted)
      && forall x :: x in sorted <==> x in ds
  {
    var ds := Draws(random);
    var sorted := SortBy(ds, DrawSort());
    GraphComponentsDistinct();
    SortByPermutes(ds, DrawSort());
    SortByKeepsElements(ds, DrawSort());
    assert |sorted| == |ds| by {
      assert |multiset(sorted)| == |multiset(ds)|;
    }
    PermutationKeepsNoDup(ds, sorted);
  }

  /** No chart id is listed twice. */
  lemma ShuffleDistinct(random: nat -> int)
    ensures NoDup(ShuffleGraphComponents(random))
  {
    var ds := Draws(random);
    var sorted := SortBy(ds, DrawSort());
    var r := ShuffleGraphComponents(random);
    SortedDraws(random);
    GraphComponentsDistinct();
    forall i, j | 0 <= i < j < |r| ensures r[i] != r[j] {
      assert sorted[i] in sorted && sorted[j] in sorted;
      var a :| 0 <= a < |ds| && ds[a] == sorted[i];
      var b :| 0 <= b < |ds| && ds[b] == sorted[j];
      assert sorted[i] != sorted[j];
    }
  }

  /** The shuffled ids are exactly the chart ids. */
  lemma ShuffleMembers(random: nat -> int, id: string)
    ensures id in ShuffleGraphComponents(random) <==> id in GraphComponents
  {
    var ds := Draws(random);
    var sorted := SortBy(ds, DrawSort());
    var r := ShuffleGraphComponents(random);
    SortedDraws(random);
    if id in r {
      var i :| 0 <= i < |r| && r[i] == id;
      assert sorted[i] in sorted;
      var a :| 0 <= a < |ds| && ds[a] == sorted[i];
    }
    if id in GraphComponents {
      var a :| 0 <= a < |GraphComponents| && GraphComponents[a] == id;
      assert ds[a] in sorted;
      var i :| 0 <= i < |sorted| && sorted[i] == ds[a];
      assert r[i] == id;
    }
  }

  /** Whatever the random numbers, the shuffled order lists every chart
      exactly once and nothing else. */
  lemma ShuffleIsPermutation(random: nat -> int)
    ensures var r := ShuffleGraphComponents(random);
      && |r| == |GraphComponents|
      && NoDup(r)
      && forall id :: id in r <==> id in GraphComponents
  {
    SortedDraws(random);
    ShuffleDistinct(random);
    forall id ensures id in ShuffleGraphComponents(random) <==> id in GraphComponents {
      ShuffleMembers(random, id);
    }
  }
}
