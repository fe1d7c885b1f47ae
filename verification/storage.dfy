/** The browser storage the dashboard caches into, as a map from key to
    stored value, and the two per-year cache keys. */
module Storage {
  import opened Common
  import opened Decimal
  import opened Strava

  /** A stored value: an activity list, or a KOM-count object keyed by
      activity id. */
  datatype Stored = ActivityList(activities: seq<Activity>) | KomCounts(counts: map<int, int>)

  type Store = map<string, Stored>

  /** `activities_cache_${year}`. */
  function ActivitiesCacheKey(year: int): string
  {
    "activities_cache_" + IntToString(year)
  }

  /** `kom_cache_${year}`. */
  function KomCacheKey(year: int): string
  {
    "kom_cache_" + IntToString(year)
  }

  /** `storage.get(activities_cache_${year}, [])`. */
  function CachedActivities(store: Store, year: int): seq<Activity>
  {
    var key := ActivitiesCacheKey(year);
    if key in store && store[key].ActivityList? then store[key].activities else []
  }

  /** `storage.get(kom_cache_${year}, {})`, with its keys read back as numbers. */
  function CachedKoms(store: Store, year: int): map<int, int>
  {
    var key := KomCacheKey(year);
    if key in store && store[key].KomCounts? then store[key].counts else map[]
  }

  /** Each year has its own keys, and the two caches never share a key. */
  lemma CacheKeysDistinct(y1: int, y2: int)
    ensures ActivitiesCacheKey(y1) != KomCacheKey(y2)
    ensures ActivitiesCacheKey(y1) == ActivitiesCacheKey(y2) ==> y1 == y2
    ensures KomCacheKey(y1) == KomCacheKey(y2) ==> y1 == y2
  {
    assert ActivitiesCacheKey(y1)[0] == 'a';
    assert KomCacheKey(y2)[0] == 'k';
    if ActivitiesCacheKey(y1) == ActivitiesCacheKey(y2) {
      assert IntToString(y1) == ActivitiesCacheKey(y1)[17..];
      assert IntToString(y2) == ActivitiesCacheKey(y2)[17..];
      IntToStringInjective(y1, y2);
    }
    if KomCacheKey(y1) == KomCacheKey(y2) {
      assert IntToString(y1) == KomCacheKey(y1)[10..];
      assert IntToString(y2) == KomCacheKey(y2)[10..];
      IntToStringInjective(y1, y2);
    }
  }

  /** The KOM cache is written as a JSON object, whose keys are the ids'
      decimal texts, and read back with `parseInt`: every id survives. */
  lemma KomCacheIdRoundTrip(id: int)
    ensures ParseIntJs(IntToString(id)) == Some(id)
  {
    ParseIntOfIntToString(id, "");
    assert IntToString(id) + "" == IntToString(id);
  }
}
