/** The year the dashboard shows: read from the first segment of the page
    path on load, switched to the calendar year at the bare root path, and
    written back to the path whenever it changes. */
module CurrentYear {
  import opened Common
  import opened Decimal

  /** `path.split("/")[1]`: the text between the first and the second "/";
      `None` (`undefined`) when the path has no "/". */
  function PathSegment(path: string): Option<string>
  {
    var i := IndexOf(path, '/');
    if i < 0 then None else Some(Before(path[i + 1..], '/'))
  }

  /** `Number(path.split("/")[1]) || 0`: `undefined`, `NaN` and 0 all give 0. */
  function InitialYear(path: string): int
  {
    match PathSegment(path)
    case None => 0
    case Some(segment) =>
      match NumberOf(segment)
      case Some(v) => v
      case None => 0
  }

  /** The context's state: the year and the page path. */
  datatype YearState = YearState(currentYear: int, path: string)

  function Load(path: string): YearState
  {
    YearState(InitialYear(path), path)
  }

  /** `updateYear(year)`: set the year and push the path `/${year}`. */
  function UpdateYear(s: YearState, year: int): YearState
  {
    YearState(year, "/" + IntToString(year))
  }

  /** The mount effect: at the bare root path switch to the calendar year. */
  function Mount(s: YearState, nowYear: int): YearState
  {
    if s.path == "/" then UpdateYear(s, nowYear) else s
  }

  /** The segment after a leading "/" runs up to the next "/". */
  lemma PathSegmentOf(segment: string, rest: string)
    requires '/' !in segment
    requires rest == "" || rest[0] == '/'
    ensures PathSegment("/" + segment + rest) == Some(segment)
  {
    var path := "/" + segment + rest;
    IndexOfAfter("", '/', segment + rest);
    assert "" + ['/'] + (segment + rest) == path;
    assert path[1..] == segment + rest;
    if rest == "" {
      assert segment + rest == segment;
      BeforeOfWhole(segment, '/');
    } else {
      assert segment + rest == segment + ['/'] + rest[1..];
      BeforeOf(segment, '/', rest[1..]);
    }
  }

  /** A path's first segment is read as a number when it is one, and as 0
      when it is empty, blank or not a number. */
  lemma InitialYearOfSegment(segment: string, rest: string)
    requires '/' !in segment
    requires rest == "" || rest[0] == '/'
    ensures InitialYear("/" + segment + rest) == match NumberOf(segment) case Some(v) => v case None => 0
  {
    PathSegmentOf(segment, rest);
  }

  /** A path without "/" has no first segment and gives 0. */
  lemma InitialYearWithoutSlash(path: string)
    requires '/' !in path
    ensures InitialYear(path) == 0
  {
  }

  /** Reloading the page at the path `updateYear(y)` pushed shows year `y`
      again, for every integer `y`. */
  lemma UpdateYearRoundTrip(s: YearState, y: int)
    ensures Load(UpdateYear(s, y).path) == UpdateYear(s, y)
    ensures InitialYear(UpdateYear(s, y).path) == y
  {
    var d := IntToString(y);
    IntToStringAlphabet(y, '/');
    PathSegmentOf(d, "");
    assert "/" + d + "" == "/" + d;
    NumberOfIntToString(y);
  }

  /** At the bare root path the year first reads as 0 and the mount effect
      then switches to the calendar year and its path; at any other path the
      effect does nothing. */
  lemma MountAtRoot(nowYear: int)
    ensures Load("/").currentYear == 0
    ensures Mount(Load("/"), nowYear) == YearState(nowYear, "/" + IntToString(nowYear))
  {
    PathSegmentOf("", "");
    assert "/" + "" + "" == "/";
  }

  lemma MountElsewhere(s: YearState, nowYear: int)
    requires s.path != "/"
    ensures Mount(s, nowYear) == s
  {
  }
}
