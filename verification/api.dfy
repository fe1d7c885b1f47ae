/** The fitness API client: request URLs, the error thrown for a failed
    response, the per-page activity request with its year guard, the
    pagination loop over all pages of a year, and the redirect address. */
module Api {
  import opened Common
  import opened Decimal
  import opened Strava

  /** `params ? `${baseUrl}?${params}` : baseUrl`. */
  function RequestUrl(baseUrl: string, params: Option<string>): (url: string)
    ensures |baseUrl| <= |url| && url[..|baseUrl|] == baseUrl
    ensures |url| == |baseUrl| <==> !Truthy(params)
    ensures Truthy(params) ==> url[|baseUrl|] == '?' && url[|baseUrl| + 1..] == params.value
  {
    if Truthy(params) then baseUrl + "?" + params.value else baseUrl
  }

  /** The message of the error thrown for a response that is not ok. */
  function ErrorMessage(url: string, status: int): (m: string)
    ensures EndsWith(m, "<" + IntToString(status) + ">")
    ensures 19 + |url| <= |m| && m[..19] == "Failed api call to " && m[19..19 + |url|] == url
  {
    var m := "Failed api call to " + url + " <" + IntToString(status) + ">";
    assert m[|m| - |IntToString(status)| - 2..] == "<" + IntToString(status) + ">";
    m
  }

  /** What `fetch` delivers: a response with a status and a parsed body, or a
      rejection with an error message. */
  datatype HttpReply<B> = Reply(status: int, body: B) | NetworkFailure(message: string)

  /** `res.ok`: a status in 200..299. */
  predicate IsOk(status: int)
  {
    200 <= status <= 299
  }

  /** `getData`: the body of an ok response, otherwise a thrown error. */
  function GetData<B>(url: string, reply: HttpReply<B>): (r: Result<B>)
    ensures reply.Reply? && IsOk(reply.status) ==> r == Ok(reply.body)
    ensures reply.Reply? && !IsOk(reply.status) ==>
      r.Err? && EndsWith(r.message, "<" + IntToString(reply.status) + ">") && r.message == ErrorMessage(url, reply.status)
    ensures reply.NetworkFailure? ==> r == Err(reply.message)
  {
    match reply
    case NetworkFailure(msg) => Err(msg)
    case Reply(status, body) => if IsOk(status) then Ok(body) else Err(ErrorMessage(url, status))
  }

  /** The rate-limit test applied to a caught error:
      `err.message && err.message.includes('429')`. */
  predicate MentionsRateLimit(message: string)
  {
    message != "" && Contains(message, "429")
  }

  /** A 429 response is always recognised as rate limiting. */
  lemma RateLimitReplyRecognised(url: string)
    ensures MentionsRateLimit(ErrorMessage(url, 429))
  {
    var m := ErrorMessage(url, 429);
    var i := |m| - 4;
    assert IntToString(429) == "429";
    assert m[i..i + 3] == "429";
    ContainsIffOccurs(m, "429");
    assert OccursAt(m, "429", i);
  }

  /** The test reads the whole message, URL included: any failed status on a
      URL that contains "429" counts as rate limiting too. */
  lemma RateLimitTestReadsUrl(url: string, status: int)
    requires Contains(url, "429")
    ensures MentionsRateLimit(ErrorMessage(url, status))
  {
    var m := ErrorMessage(url, status);
    ContainsIffOccurs(url, "429");
    var i :| OccursAt(url, "429", i);
    assert m[19 + i..19 + i + 3] == url[i..i + 3];
    assert OccursAt(m, "429", 19 + i);
    ContainsIffOccurs(m, "429");
  }

  /** The fixed parts of the environment of a list request: the base URL,
      the current calendar year, and the epoch second at which a year
      starts (`Math.floor(new Date(`${y}-01-01`).getTime() / 1000)`). */
  datatype ApiEnv = ApiEnv(baseUrl: string, nowYear: int, yearStart: int -> int)

  const PerPage: nat := 200

  /** `year < 2010 || year >= new Date().getFullYear() + 1`. */
  predicate YearOutOfRange(year: int, nowYear: int)
  {
    year < 2010 || year >= nowYear + 1
  }

  /** The query string of a list request. */
  function ListParams(env: ApiEnv, year: int, page: int): string
  {
    "after=" + IntToString(env.yearStart(year)) + "&before=" + IntToString(env.yearStart(year + 1))
    + "&page=" + IntToString(page) + "&per_page=" + IntToString(PerPage)
  }

  function ListUrl(env: ApiEnv, year: int, page: int): string
  {
    RequestUrl(env.baseUrl + "/api/v3/athlete/activities", Some(ListParams(env, year, page)))
  }

  /** A list answer and the pages requested to get it. */
  datatype Fetch<T> = Fetch(result: Result<T>, requests: seq<int>)

  /** The answer the server gives for page `p`: the recorded replies for
      pages 1..|pages|, an empty page after them. */
  function PageReply(pages: seq<HttpReply<seq<Activity>>>, p: int): HttpReply<seq<Activity>>
  {
    if 1 <= p <= |pages| then pages[p - 1] else Reply(200, [])
  }

  /** `getActivities(token, {page, perPage: 200, year})`. */
  function GetActivities(env: ApiEnv, year: int, page: int, pages: seq<HttpReply<seq<Activity>>>): (r: Fetch<seq<Activity>>)
    ensures YearOutOfRange(year, env.nowYear) ==> r == Fetch(Ok([]), [])
    ensures !YearOutOfRange(year, env.nowYear) ==> r.requests == [page]
    ensures !YearOutOfRange(year, env.nowYear) && r.result.Ok? ==>
      PageReply(pages, page).Reply? && r.result.value == Reverse(PageReply(pages, page).body)
    ensures !YearOutOfRange(year, env.nowYear) && r.result.Err? ==>
      r.result == GetData(ListUrl(env, year, page), PageReply(pages, page))
  {
    if YearOutOfRange(year, env.nowYear) then Fetch(Ok([]), [])
    else
      match GetData(ListUrl(env, year, page), PageReply(pages, page))
      case Ok(body) => Fetch(Ok(Reverse(body)), [page])
      case Err(msg) => Fetch(Err(msg), [page])
  }

  /** The `while (true)` loop of `getAllActivities` from page `page` on:
      append each page, stop after the first one shorter than 200; a thrown
      error ends the loop and is passed on. */
  function AllFrom(env: ApiEnv, year: int, page: nat, pages: seq<HttpReply<seq<Activity>>>): Fetch<seq<Activity>>
    requires page >= 1
    decreases |pages| + 1 - page
  {
    var f := GetActivities(env, year, page, pages);
    match f.result
    case Err(msg) => f
    case Ok(acts) =>
      if |acts| < PerPage then f
      else
        assert page <= |pages|;
        var rest := AllFrom(env, year, page + 1, pages);
        match rest.result
        case Err(msg) => Fetch(Err(msg), f.requests + rest.requests)
        case Ok(more) => Fetch(Ok(acts + more), f.requests + rest.requests)
  }

  /** `getAllActivities(token, year)`. */
  function GetAllActivities(env: ApiEnv, year: int, pages: seq<HttpReply<seq<Activity>>>): Fetch<seq<Activity>>
  {
    AllFrom(env, year, 1, pages)
  }

  /** A year outside 2010..current year yields the empty list without any request. */
  lemma YearGuard(env: ApiEnv, year: int, pages: seq<HttpReply<seq<Activity>>>)
    requires YearOutOfRange(year, env.nowYear)
    ensures GetAllActivities(env, year, pages) == Fetch(Ok([]), [])
  {
  }

  lemma ReverseReverse<T>(xs: seq<T>)
    ensures Reverse(Reverse(xs)) == xs
  {
  }

  /** Page `p` (from 1) of a list served 200 at a time, as the server sends
      it; the client reverses each page it receives. */
  function Slice(items: seq<Activity>, p: nat): seq<Activity>
    requires p >= 1
  {
    var lo := Min((p - 1) * 200, |items|);
    var hi := Min(p * 200, |items|);
    items[lo..hi]
  }

  /** A server holding `items` that answers every page with status 200. */
  function SliceServer(items: seq<Activity>): (pages: seq<HttpReply<seq<Activity>>>)
    ensures |pages| == |items| / 200 + 1
  {
    seq(|items| / 200 + 1, i requires 0 <= i < |items| / 200 + 1 => Reply(200, Reverse(Slice(items, i + 1))))
  }

  /** The pages `from..to` in order. */
  function PageRange(from: int, to: int): (r: seq<int>)
    decreases to - from
    ensures |r| == if from <= to then to - from + 1 else 0
    ensures forall i :: 0 <= i < |r| ==> r[i] == from + i
  {
    if from > to then [] else [from] + PageRange(from + 1, to)
  }

  /** Where page `page` of `items` starts and ends. */
  lemma SliceBounds(items: seq<Activity>, page: nat)
    requires 1 <= page <= |items| / 200 + 1
    ensures page <= |items| / 200 ==>
      page * 200 <= |items| && |Slice(items, page)| == PerPage
      && items[(page - 1) * 200..] == Slice(items, page) + items[page * 200..]
    ensures page == |items| / 200 + 1 ==>
      (page - 1) * 200 <= |items| && |Slice(items, page)| < PerPage
      && Slice(items, page) == items[(page - 1) * 200..]
  {
    var n := |items| / 200;
    assert n * 200 <= |items| < n * 200 + PerPage;
    var lo := (page - 1) * 200;
    assert page * 200 == lo + PerPage;
    if page <= n {
      assert page * 200 <= n * 200;
    } else {
      assert lo == n * 200;
    }
  }

  /** What the client makes of page `page` of a slice server. */
  lemma GetActivitiesSliceServer(env: ApiEnv, year: int, items: seq<Activity>, page: nat)
    requires !YearOutOfRange(year, env.nowYear)
    requires 1 <= page <= |items| / 200 + 1
    ensures GetActivities(env, year, page, SliceServer(items)) == Fetch(Ok(Slice(items, page)), [page])
  {
    var s := Slice(items, page);
    assert PageReply(SliceServer(items), page) == Reply(200, Reverse(s));
    ReverseReverse(s);
  }

  /** A full page: the loop appends it and goes on with the next page. */
  lemma AllFromFullPage(env: ApiEnv, year: int, page: nat, pages: seq<HttpReply<seq<Activity>>>, acts: seq<Activity>)
    requires page >= 1 && |acts| == PerPage
    requires GetActivities(env, year, page, pages) == Fetch(Ok(acts), [page])
    ensures page <= |pages|
    ensures var rest := AllFrom(env, year, page + 1, pages);
      AllFrom(env, year, page, pages)
      == Fetch(if rest.result.Ok? then Ok(acts + rest.result.value) else rest.result, [page] + rest.requests)
  {
    assert PageReply(pages, page).Reply?;
    assert |PageReply(pages, page).body| == PerPage;
  }

  /** A short page ends the loop. */
  lemma AllFromShortPage(env: ApiEnv, year: int, page: nat, pages: seq<HttpReply<seq<Activity>>>, acts: seq<Activity>)
    requires page >= 1 && |acts| < PerPage
    requires GetActivities(env, year, page, pages) == Fetch(Ok(acts), [page])
    ensures AllFrom(env, year, page, pages) == Fetch(Ok(acts), [page])
  {
  }

  /** One full page of a slice server followed by the rest of the items. */
  lemma SliceServerStep(env: ApiEnv, year: int, items: seq<Activity>, page: nat)
    requires !YearOutOfRange(year, env.nowYear)
    requires 1 <= page <= |items| / 200
    requires page * 200 <= |items|
    requires AllFrom(env, year, page + 1, SliceServer(items))
          == Fetch(Ok(items[page * 200..]), PageRange(page + 1, |items| / 200 + 1))
    ensures (page - 1) * 200 <= |items|
    ensures AllFrom(env, year, page, SliceServer(items))
         == Fetch(Ok(items[(page - 1) * 200..]), PageRange(page, |items| / 200 + 1))
  {
    GetActivitiesSliceServer(env, year, items, page);
    SliceBounds(items, page);
    AllFromFullPage(env, year, page, SliceServer(items), Slice(items, page));
    var n := |items| / 200;
    assert PageRange(page, n + 1) == [page] + PageRange(page + 1, n + 1);
  }

  /** The last page of a slice server is short and ends the loop. */
  lemma SliceServerLast(env: ApiEnv, year: int, items: seq<Activity>, page: nat)
    requires !YearOutOfRange(year, env.nowYear)
    requires page == |items| / 200 + 1
    ensures (page - 1) * 200 <= |items|
    ensures AllFrom(env, year, page, SliceServer(items))
         == Fetch(Ok(items[(page - 1) * 200..]), PageRange(page, |items| / 200 + 1))
  {
    GetActivitiesSliceServer(env, year, items, page);
    SliceBounds(items, page);
    AllFromShortPage(env, year, page, SliceServer(items), Slice(items, page));
  }

  /** Against a server holding `items`, the loop from page `page` collects
      the items from position 200 * (page - 1) on and asks for every page up
      to the first short one, which is empty when the count is a multiple
      of 200. */
  lemma {:induction false} AllFromSliceServer(env: ApiEnv, year: int, items: seq<Activity>, page: nat)
    requires !YearOutOfRange(year, env.nowYear)
    requires 1 <= page <= |items| / 200 + 1
    ensures (page - 1) * 200 <= |items|
    ensures AllFrom(env, year, page, SliceServer(items))
         == Fetch(Ok(items[(page - 1) * 200..]), PageRange(page, |items| / 200 + 1))
    decreases |items| / 200 + 1 - page
  {
    if page <= |items| / 200 {
      AllFromSliceServer(env, year, items, page + 1);
      SliceBounds(items, page);
      assert (page + 1 - 1) * 200 == page * 200;
      SliceServerStep(env, year, items, page);
    } else {
      SliceServerLast(env, year, items, page);
    }
  }

  /** All items come back in order, with |items| / 200 + 1 requests. */
  lemma GetAllActivitiesSliceServer(env: ApiEnv, year: int, items: seq<Activity>)
    requires !YearOutOfRange(year, env.nowYear)
    ensures GetAllActivities(env, year, SliceServer(items))
         == Fetch(Ok(items), PageRange(1, |items| / 200 + 1))
    ensures |GetAllActivities(env, year, SliceServer(items)).requests| == |items| / 200 + 1
  {
    AllFromSliceServer(env, year, items, 1);
  }

  /** When the count is a multiple of 200, the last page requested is empty. */
  lemma ExtraRequestOnFullLastPage(env: ApiEnv, year: int, items: seq<Activity>)
    requires !YearOutOfRange(year, env.nowYear)
    requires |items| % 200 == 0
    ensures var reqs := GetAllActivities(env, year, SliceServer(items)).requests;
      |reqs| == |items| / 200 + 1 && reqs[|reqs| - 1] == |items| / 200 + 1
      && Slice(items, |items| / 200 + 1) == []
  {
    GetAllActivitiesSliceServer(env, year, items);
    var n := |items| / 200;
    var reqs := GetAllActivities(env, year, SliceServer(items)).requests;
    assert reqs == PageRange(1, n + 1);
    assert reqs[|reqs| - 1] == n + 1;
    LastSliceEmpty(items);
  }

  lemma LastSliceEmpty(items: seq<Activity>)
    requires |items| % 200 == 0
    ensures Slice(items, |items| / 200 + 1) == []
  {
    var n := |items| / 200;
    assert n * 200 == |items|;
    assert (n + 1 - 1) * 200 == |items|;
  }

  /** The redirect address setting: the default and the one in use. */
  datatype RedirectConfig = RedirectConfig(defaultRedirectUri: string, redirectUri: string)

  /** `updateRedirectUri(year)`: the default address with `/year` appended. */
  function UpdateRedirectUri(c: RedirectConfig, year: int): (r: RedirectConfig)
    ensures r.defaultRedirectUri == c.defaultRedirectUri
    ensures |c.defaultRedirectUri| < |r.redirectUri|
    ensures r.redirectUri[..|c.defaultRedirectUri|] == c.defaultRedirectUri
    ensures r.redirectUri[|c.defaultRedirectUri|] == '/'
    ensures r.redirectUri[|c.defaultRedirectUri| + 1..] == IntToString(year)
    ensures ParseIntJs(r.redirectUri[|c.defaultRedirectUri| + 1..]) == Some(year)
  {
    var d, y := c.defaultRedirectUri, IntToString(year);
    SeparatedParts(d, '/', y);
    ParseIntOfIntToString(year, "");
    assert y + "" == y;
    c.(redirectUri := d + "/" + y)
  }

  /** The parts of `head + sep + tail` can be read back by position. */
  lemma SeparatedParts(head: string, sep: char, tail: string)
    ensures var u := head + [sep] + tail;
      |u| == |head| + 1 + |tail| && u[..|head|] == head && u[|head|] == sep && u[|head| + 1..] == tail
  {
  }

  /** Updating never builds on an earlier update: only the last year counts. */
  lemma RedirectUriDoesNotAccumulate(c: RedirectConfig, y1: int, y2: int)
    ensures UpdateRedirectUri(UpdateRedirectUri(c, y1), y2) == UpdateRedirectUri(c, y2)
  {
  }
}
