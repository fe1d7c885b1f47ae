/** The activity-list query with its cache fallback: a successful fetch is
    cached under the year; a rate-limited fetch falls back to a non-empty
    cached list; every other failure is passed on. */
module ListFetch {
  import opened Common
  import opened Strava
  import opened Storage
  import opened Api

  /** The query's answer, the storage after it and the `activitiesFromCache` flag. */
  datatype ListOutcome = ListOutcome(result: Result<seq<Activity>>, store: Store, fromCache: bool)

  /** The list query for `year`, given what `getAllActivities` produced. */
  function FetchActivityList(fetched: Result<seq<Activity>>, store: Store, year: int, fromCache: bool): (r: ListOutcome)
    ensures fetched.Ok? ==>
      r.result == fetched && !r.fromCache && CachedActivities(r.store, year) == fetched.value
    ensures fetched.Ok? ==> r.store.Keys == store.Keys + {ActivitiesCacheKey(year)}
    ensures fetched.Ok? ==> forall k :: k in store && k != ActivitiesCacheKey(year) ==> r.store[k] == store[k]
    ensures fetched.Err? ==> r.store == store
    ensures r.fromCache && !fromCache ==> fetched.Err? && MentionsRateLimit(fetched.message)
    ensures r.result.Ok? && fetched.Err? ==>
      r.fromCache && r.result.value == CachedActivities(store, year) && |r.result.value| > 0
    ensures r.result.Err? ==> r.result == fetched && r.fromCache == fromCache
  {
    match fetched
    case Ok(data) =>
      ListOutcome(Ok(data), store[ActivitiesCacheKey(year) := ActivityList(data)], false)
    case Err(msg) =>
      var cached := CachedActivities(store, year);
      if MentionsRateLimit(msg) && |cached| > 0 then ListOutcome(Ok(cached), store, true)
      else ListOutcome(Err(msg), store, fromCache)
  }

  /** A rate-limited fetch after a successful one returns the list of the
      successful one, as long as that list was not empty. */
  lemma FallbackReturnsLastSuccess(data: seq<Activity>, store: Store, year: int, flag: bool, msg: string, flag2: bool)
    requires |data| > 0 && MentionsRateLimit(msg)
    ensures var first := FetchActivityList(Ok(data), store, year, flag);
      FetchActivityList(Err(msg), first.store, year, flag2) == ListOutcome(Ok(data), first.store, true)
  {
  }

  /** A failure that is not rate limiting is always passed on, cache or not. */
  lemma OtherErrorsRethrown(msg: string, store: Store, year: int, flag: bool)
    requires !MentionsRateLimit(msg)
    ensures FetchActivityList(Err(msg), store, year, flag) == ListOutcome(Err(msg), store, flag)
  {
  }

  /** A rate-limited fetch with nothing cached for the year is passed on. */
  lemma RateLimitWithoutCacheRethrown(msg: string, store: Store, year: int, flag: bool)
    requires CachedActivities(store, year) == []
    ensures FetchActivityList(Err(msg), store, year, flag) == ListOutcome(Err(msg), store, flag)
  {
  }

  /** Caching one year leaves every other year's cached list as it was. */
  lemma CacheWriteIsPerYear(data: seq<Activity>, store: Store, year: int, other: int, flag: bool)
    requires other != year
    ensures CachedActivities(FetchActivityList(Ok(data), store, year, flag).store, other)
         == CachedActivities(store, other)
  {
    CacheKeysDistinct(year, other);
  }

  /** `retryFetchActivities`: clear the flag, then query again. */
  function RetryFetchActivities(fetched: Result<seq<Activity>>, store: Store, year: int): (r: ListOutcome)
    ensures r.fromCache ==> fetched.Err? && MentionsRateLimit(fetched.message)
  {
    FetchActivityList(fetched, store, year, false)
  }
}
