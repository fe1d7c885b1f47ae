/** What a KOM enrichment run promises: which ids it fetches, what it leaves
    in the cache, when it pauses and what a paused run leaves for the resume,
    and what a second run after a complete one does. */
module KomRunProperties {
  import opened Common
  import opened Strava
  import opened Storage
  import opened KomFetch

  /** How many of the activities to fetch a run resolves before it stops. */
  function ResolvedCount(hasToken: bool, activities: seq<Activity>, resume: bool, s: KomState,
                         store: Store, year: int, oracle: Oracle): (n: nat)
    ensures n <= |ToFetch(activities, resume, s, store, year)|
  {
    if hasToken then PauseIndex(ToFetch(activities, resume, s, store, year), oracle) else 0
  }

  /** No activity to fetch has a cached id, and each is a candidate. */
  lemma ToFetchFacts(activities: seq<Activity>, resume: bool, s: KomState, store: Store, year: int)
    ensures var t := ToFetch(activities, resume, s, store, year);
      forall j :: 0 <= j < |t| ==>
        t[j].id !in CachedKoms(store, year) && t[j] in Candidates(activities, resume, s.remaining)
  {
    var t := ToFetch(activities, resume, s, store, year);
    forall j | 0 <= j < |t|
      ensures t[j].id !in CachedKoms(store, year) && t[j] in Candidates(activities, resume, s.remaining)
    {
      assert NotIn(CachedKoms(store, year))(t[j]);
    }
  }

  /** With a token and something to fetch, a run is the resolution of the
      activities to fetch, in order, against the KOM cache of the year. */
  lemma RunResolves(hasToken: bool, activities: seq<Activity>, resume: bool, s: KomState,
                    store: Store, year: int, oracle: Oracle)
    requires hasToken && |ToFetch(activities, resume, s, store, year)| > 0
    ensures var c := CachedKoms(store, year);
      KomRun(hasToken, activities, resume, s, store, year, oracle)
      == ResolveRun(c, if |c| > 0 then c else s.komData, |Candidates(activities, resume, s.remaining)|,
                    ToFetch(activities, resume, s, store, year), store, KomCacheKey(year), oracle)
  {
  }

  /** The storage after resolving: the counts recorded under the key when
      at least one activity was resolved; nothing else changes. */
  lemma ResolveStore(cached: map<int, int>, shown: map<int, int>, ncand: int, t: seq<Activity>,
                     store: Store, key: string, oracle: Oracle)
    requires |t| > 0
    ensures var r := ResolveRun(cached, shown, ncand, t, store, key, oracle);
      var k := PauseIndex(t, oracle);
      (k > 0 ==> r.store == store[key := KomCounts(Record(cached, t[..k], oracle))])
      && (k == 0 ==> r.store == store)
  {
  }

  /** The ids requested while resolving: the activities up to and
      including the one that was rate limited, or all of them. */
  lemma ResolveRequests(cached: map<int, int>, shown: map<int, int>, ncand: int, t: seq<Activity>,
                        store: Store, key: string, oracle: Oracle)
    requires |t| > 0
    ensures var r := ResolveRun(cached, shown, ncand, t, store, key, oracle);
      var k := PauseIndex(t, oracle);
      |r.requests| == (if k < |t| then k + 1 else |t|)
      && r.requests == Ids(t)[..|r.requests|]
  {
    var k := PauseIndex(t, oracle);
    var m := if k < |t| then k + 1 else |t|;
    assert Ids(t[..m]) == Ids(t)[..m];
  }

  /** The storage after a run: the KOM counts written under the year's key
      once at least one activity was resolved, and nothing else. */
  lemma RunStoreShape(hasToken: bool, activities: seq<Activity>, resume: bool, s: KomState,
                      store: Store, year: int, oracle: Oracle)
    ensures var r := KomRun(hasToken, activities, resume, s, store, year, oracle);
      var t := ToFetch(activities, resume, s, store, year);
      var n := ResolvedCount(hasToken, activities, resume, s, store, year, oracle);
      r.store == if n > 0 then store[KomCacheKey(year) := KomCounts(Record(CachedKoms(store, year), t[..n], oracle))]
                 else store
  {
    var t := ToFetch(activities, resume, s, store, year);
    var c := CachedKoms(store, year);
    if hasToken && |t| > 0 {
      RunResolves(hasToken, activities, resume, s, store, year, oracle);
      ResolveStore(c, if |c| > 0 then c else s.komData, |Candidates(activities, resume, s.remaining)|,
                   t, store, KomCacheKey(year), oracle);
    }
  }

  /** The KOM cache after a run: the counts it started from, with the
      resolved activities recorded. */
  lemma RunStore(hasToken: bool, activities: seq<Activity>, resume: bool, s: KomState,
                 store: Store, year: int, oracle: Oracle)
    ensures var r := KomRun(hasToken, activities, resume, s, store, year, oracle);
      var t := ToFetch(activities, resume, s, store, year);
      var n := ResolvedCount(hasToken, activities, resume, s, store, year, oracle);
      CachedKoms(r.store, year) == Record(CachedKoms(store, year), t[..n], oracle)
  {
    var t := ToFetch(activities, resume, s, store, year);
    var n := ResolvedCount(hasToken, activities, resume, s, store, year, oracle);
    RunStoreShape(hasToken, activities, resume, s, store, year, oracle);
    if n == 0 {
      assert t[..n] == [];
    }
  }

  /** Every storage key other than the year's KOM cache is left as it was. */
  lemma RunKeepsOtherKeys(hasToken: bool, activities: seq<Activity>, resume: bool, s: KomState,
                          store: Store, year: int, oracle: Oracle, key: string)
    requires key != KomCacheKey(year)
    ensures var r := KomRun(hasToken, activities, resume, s, store, year, oracle);
      (key in r.store <==> key in store) && (key in store ==> r.store[key] == store[key])
  {
    RunStoreShape(hasToken, activities, resume, s, store, year, oracle);
  }

  /** No key of the KOM cache is ever removed, and the ids a run adds are
      exactly those of the activities it resolved. */
  lemma CacheKeysOnlyGrow(hasToken: bool, activities: seq<Activity>, resume: bool, s: KomState,
                          store: Store, year: int, oracle: Oracle)
    ensures var r := KomRun(hasToken, activities, resume, s, store, year, oracle);
      var t := ToFetch(activities, resume, s, store, year);
      var n := ResolvedCount(hasToken, activities, resume, s, store, year, oracle);
      CachedKoms(r.store, year).Keys == CachedKoms(store, year).Keys + IdSet(t[..n])
  {
    var t := ToFetch(activities, resume, s, store, year);
    var n := ResolvedCount(hasToken, activities, resume, s, store, year, oracle);
    RunStore(hasToken, activities, resume, s, store, year, oracle);
    RecordKeys(CachedKoms(store, year), t[..n], oracle);
  }

  /** The ids a run requests are those of the activities to fetch, in order,
      from the first on; none of them was cached. */
  lemma RequestsFollowToFetch(hasToken: bool, activities: seq<Activity>, resume: bool, s: KomState,
                              store: Store, year: int, oracle: Oracle)
    ensures var r := KomRun(hasToken, activities, resume, s, store, year, oracle);
      var t := ToFetch(activities, resume, s, store, year);
      r.requests <= Ids(t) && (hasToken && |t| > 0 ==> |r.requests| > 0)
    ensures var r := KomRun(hasToken, activities, resume, s, store, year, oracle);
      forall i :: 0 <= i < |r.requests| ==> r.requests[i] !in CachedKoms(store, year)
  {
    var r := KomRun(hasToken, activities, resume, s, store, year, oracle);
    var t := ToFetch(activities, resume, s, store, year);
    var c := CachedKoms(store, year);
    if hasToken && |t| > 0 {
      RunResolves(hasToken, activities, resume, s, store, year, oracle);
      ResolveRequests(c, if |c| > 0 then c else s.komData, |Candidates(activities, resume, s.remaining)|,
                      t, store, KomCacheKey(year), oracle);
      ToFetchFacts(activities, resume, s, store, year);
      forall i | 0 <= i < |r.requests| ensures r.requests[i] !in c {
        assert r.requests[i] == t[i].id;
      }
    } else {
      assert r.requests == [];
    }
  }

  /** A fresh run (not a resume) asks only for activities of its input that
      have achievements: the candidates come from the filtered list it is given. */
  lemma FreshRunFetchesAchievers(hasToken: bool, all: seq<Activity>, s: KomState,
                                 store: Store, year: int, oracle: Oracle)
    ensures var r := RefreshKomData(hasToken, all, s, store, year, oracle);
      forall i :: 0 <= i < |r.requests| ==>
        exists a :: a in all && PositiveNumber(a.achievementCount) && a.id == r.requests[i]
  {
    var r := KomRun(hasToken, all, false, s, store, year, oracle);
    var t := ToFetch(all, false, s, store, year);
    RequestsFollowToFetch(hasToken, all, false, s, store, year, oracle);
    ToFetchFacts(all, false, s, store, year);
    forall i | 0 <= i < |r.requests|
      ensures exists a :: a in all && PositiveNumber(a.achievementCount) && a.id == r.requests[i]
    {
      var a := t[i];
      assert r.requests[i] == a.id;
      FilterMembership(all, Achievers(), a);
    }
  }

  /** The activity a run stopped at has an id that was not resolved before
      it: an earlier activity with the same id would have been rate limited too. */
  lemma PausedIdUnresolved(t: seq<Activity>, oracle: Oracle)
    requires PauseIndex(t, oracle) < |t|
    ensures t[PauseIndex(t, oracle)].id !in IdSet(t[..PauseIndex(t, oracle)])
  {
  }

  /** The state after resolving: nothing loading; paused exactly when it
      stopped early, with the rest saved; progress one per resolved activity. */
  lemma ResolveState(cached: map<int, int>, shown: map<int, int>, ncand: int, t: seq<Activity>,
                     store: Store, key: string, oracle: Oracle)
    requires |t| > 0
    ensures var r := ResolveRun(cached, shown, ncand, t, store, key, oracle);
      var k := PauseIndex(t, oracle);
      !r.state.loading && (r.state.paused <==> k < |t|)
      && r.state.progress == Progress(ncand - |t| + k, ncand)
      && r.state.remaining == t[k..]
      && r.state.pauseReason == (if k < |t| then Some(PauseMessage) else None)
  {
  }

  /** The state a run with a token leaves: nothing loading, paused exactly
      when it stopped before the end of the activities to fetch, with those
      from the stop on saved for the resume. */
  lemma RunState(hasToken: bool, activities: seq<Activity>, resume: bool, s: KomState,
                 store: Store, year: int, oracle: Oracle)
    requires hasToken
    ensures var r := KomRun(hasToken, activities, resume, s, store, year, oracle);
      var t := ToFetch(activities, resume, s, store, year);
      var n := ResolvedCount(hasToken, activities, resume, s, store, year, oracle);
      !r.state.loading && (r.state.paused <==> n < |t|) && r.state.remaining == t[n..]
      && r.state.pauseReason == (if n < |t| then Some(PauseMessage) else None)
    ensures var r := KomRun(hasToken, activities, resume, s, store, year, oracle);
      var t := ToFetch(activities, resume, s, store, year);
      var n := ResolvedCount(hasToken, activities, resume, s, store, year, oracle);
      var cand := Candidates(activities, resume, s.remaining);
      r.state.progress == if |t| > 0 then Progress(|cand| - |t| + n, |cand|) else s.progress
  {
    var t := ToFetch(activities, resume, s, store, year);
    if |t| > 0 {
      var c := CachedKoms(store, year);
      RunResolves(hasToken, activities, resume, s, store, year, oracle);
      ResolveState(c, if |c| > 0 then c else s.komData, |Candidates(activities, resume, s.remaining)|,
                   t, store, KomCacheKey(year), oracle);
    }
  }

  /** A run pauses exactly when one of the activities to fetch is rate limited. */
  lemma PausesIffRateLimited(hasToken: bool, activities: seq<Activity>, resume: bool, s: KomState,
                             store: Store, year: int, oracle: Oracle)
    requires hasToken
    ensures var r := KomRun(hasToken, activities, resume, s, store, year, oracle);
      var t := ToFetch(activities, resume, s, store, year);
      r.state.paused <==> exists j :: 0 <= j < |t| && IsRateLimited(oracle(t[j].id))
  {
    var t := ToFetch(activities, resume, s, store, year);
    var n := ResolvedCount(hasToken, activities, resume, s, store, year, oracle);
    RunState(hasToken, activities, resume, s, store, year, oracle);
    if n < |t| {
      assert IsRateLimited(oracle(t[n].id));
    }
  }

  /** A paused run: it stopped at a rate-limited activity, which it neither
      recorded nor counted, saved that activity and everything after it,
      reported the pause, and its last request was that activity. */
  lemma PausedRun(hasToken: bool, activities: seq<Activity>, resume: bool, s: KomState,
                  store: Store, year: int, oracle: Oracle)
    requires hasToken
    requires KomRun(hasToken, activities, resume, s, store, year, oracle).state.paused
    ensures var r := KomRun(hasToken, activities, resume, s, store, year, oracle);
      var t := ToFetch(activities, resume, s, store, year);
      0 < |r.state.remaining| <= |t| && r.state.remaining == t[|t| - |r.state.remaining|..]
      && IsRateLimited(oracle(r.state.remaining[0].id))
    ensures var r := KomRun(hasToken, activities, resume, s, store, year, oracle);
      r.state.remaining[0].id !in CachedKoms(r.store, year)
    ensures var r := KomRun(hasToken, activities, resume, s, store, year, oracle);
      r.state.progress.current + |r.state.remaining| == r.state.progress.total
      && r.state.pauseReason == Some(PauseMessage) && !r.state.loading
    ensures var r := KomRun(hasToken, activities, resume, s, store, year, oracle);
      |r.requests| > 0 && r.requests[|r.requests| - 1] == r.state.remaining[0].id
  {
    var r := KomRun(hasToken, activities, resume, s, store, year, oracle);
    var t := ToFetch(activities, resume, s, store, year);
    var k := ResolvedCount(hasToken, activities, resume, s, store, year, oracle);
    RunState(hasToken, activities, resume, s, store, year, oracle);
    assert k < |t| && r.state.remaining == t[k..];
    assert r.state.remaining[0] == t[k];
    CacheKeysOnlyGrow(hasToken, activities, resume, s, store, year, oracle);
    ToFetchFacts(activities, resume, s, store, year);
    PausedIdUnresolved(t, oracle);
    RequestsFollowToFetch(hasToken, activities, resume, s, store, year, oracle);
    var c := CachedKoms(store, year);
    ResolveRequests(c, if |c| > 0 then c else s.komData, |Candidates(activities, resume, s.remaining)|,
                    t, store, KomCacheKey(year), oracle);
    RunResolves(hasToken, activities, resume, s, store, year, oracle);
  }

  /** A run that does not pause resolves everything: nothing is left over,
      nothing is loading, every candidate's id is in the cache, and every
      fetched activity holds its KOM count (0 after an error that was not
      rate limiting). */
  lemma CompletedRun(hasToken: bool, activities: seq<Activity>, resume: bool, s: KomState,
                     store: Store, year: int, oracle: Oracle)
    requires hasToken
    requires !KomRun(hasToken, activities, resume, s, store, year, oracle).state.paused
    ensures var r := KomRun(hasToken, activities, resume, s, store, year, oracle);
      r.state.remaining == [] && !r.state.loading
    ensures var r := KomRun(hasToken, activities, resume, s, store, year, oracle);
      var t := ToFetch(activities, resume, s, store, year);
      forall j :: 0 <= j < |t| ==>
        t[j].id in CachedKoms(r.store, year) && CachedKoms(r.store, year)[t[j].id] == Resolve(oracle(t[j].id))
    ensures var r := KomRun(hasToken, activities, resume, s, store, year, oracle);
      var cand := Candidates(activities, resume, s.remaining);
      forall j :: 0 <= j < |cand| ==> cand[j].id in CachedKoms(r.store, year)
  {
    var r := KomRun(hasToken, activities, resume, s, store, year, oracle);
    var t := ToFetch(activities, resume, s, store, year);
    var c0 := CachedKoms(store, year);
    RunState(hasToken, activities, resume, s, store, year, oracle);
    assert t[..|t|] == t;
    RunStore(hasToken, activities, resume, s, store, year, oracle);
    assert CachedKoms(r.store, year) == Record(c0, t, oracle);
    AllResolvedRecorded(c0, t, oracle);
    AllCandidatesCached(Candidates(activities, resume, s.remaining), c0, oracle);
  }

  /** After recording every activity, each one's id holds its resolution. */
  lemma AllResolvedRecorded(c0: map<int, int>, t: seq<Activity>, oracle: Oracle)
    ensures forall j :: 0 <= j < |t| ==>
      t[j].id in Record(c0, t, oracle) && Record(c0, t, oracle)[t[j].id] == Resolve(oracle(t[j].id))
  {
    forall j | 0 <= j < |t|
      ensures t[j].id in Record(c0, t, oracle) && Record(c0, t, oracle)[t[j].id] == Resolve(oracle(t[j].id))
    {
      assert t[j].id in IdSet(t);
      RecordValues(c0, t, oracle, t[j].id);
    }
  }

  /** Recording the uncached candidates leaves every candidate cached. */
  lemma AllCandidatesCached(cand: seq<Activity>, c0: map<int, int>, oracle: Oracle)
    ensures forall j :: 0 <= j < |cand| ==> cand[j].id in Record(c0, Uncached(cand, c0), oracle)
  {
    var t := Uncached(cand, c0);
    RecordKeys(c0, t, oracle);
    forall j | 0 <= j < |cand| ensures cand[j].id in Record(c0, t, oracle) {
      if cand[j].id !in c0 {
        assert NotIn(c0)(cand[j]);
        assert cand[j] in t;
      }
    }
  }

  /** Progress counts the cached candidates as done and then one per
      resolved activity, out of all candidates. */
  lemma ProgressBounds(hasToken: bool, activities: seq<Activity>, resume: bool, s: KomState,
                       store: Store, year: int, oracle: Oracle)
    requires hasToken && |ToFetch(activities, resume, s, store, year)| > 0
    ensures var r := KomRun(hasToken, activities, resume, s, store, year, oracle);
      var cand := Candidates(activities, resume, s.remaining);
      var t := ToFetch(activities, resume, s, store, year);
      r.state.progress.total == |cand|
      && r.state.progress.current == |cand| - |t| + ResolvedCount(hasToken, activities, resume, s, store, year, oracle)
      && 0 <= r.state.progress.current <= r.state.progress.total
  {
  }

  /** Nothing to fetch: no request, nothing written, nothing left over, and
      the progress report untouched. */
  lemma NothingToFetch(hasToken: bool, activities: seq<Activity>, resume: bool, s: KomState,
                       store: Store, year: int, oracle: Oracle)
    requires hasToken && |ToFetch(activities, resume, s, store, year)| == 0
    ensures var r := KomRun(hasToken, activities, resume, s, store, year, oracle);
      r.requests == [] && r.store == store && r.state.remaining == []
      && !r.state.loading && !r.state.paused && r.state.progress == s.progress
  {
  }

  /** Filtering keeps ids distinct. */
  lemma {:induction false} FilterKeepsDistinctIds(xs: seq<Activity>, p: Activity -> bool)
    requires DistinctIds(xs)
    ensures DistinctIds(Filter(xs, p))
  {
    if |xs| > 0 {
      var init, a := xs[..|xs| - 1], xs[|xs| - 1];
      FilterKeepsDistinctIds(init, p);
      var f := Filter(init, p);
      forall i | 0 <= i < |f| ensures f[i].id != a.id {
        var j :| 0 <= j < |init| && init[j] == f[i];
      }
    }
  }

  /** Candidates whose ids are all cached leave nothing to fetch. */
  lemma AllCachedNothingToFetch(cand: seq<Activity>, c: map<int, int>)
    requires forall j :: 0 <= j < |cand| ==> cand[j].id in c
    ensures Uncached(cand, c) == []
  {
    FilterDropsAll(cand, NotIn(c));
  }

  /** Once a fresh run completes, the next fresh run over the same
      activities fetches nothing and writes nothing: every candidate's id
      is cached. */
  lemma SecondRunFetchesNothing(hasToken: bool, activities: seq<Activity>, s: KomState,
                                store: Store, year: int, oracle: Oracle, oracle2: Oracle)
    requires hasToken
    requires !KomRun(hasToken, activities, false, s, store, year, oracle).state.paused
    ensures var r1 := KomRun(hasToken, activities, false, s, store, year, oracle);
      var r2 := KomRun(hasToken, activities, false, r1.state, r1.store, year, oracle2);
      r2.requests == [] && r2.store == r1.store
  {
    var r1 := KomRun(hasToken, activities, false, s, store, year, oracle);
    CompletedRun(hasToken, activities, false, s, store, year, oracle);
    var cand := Candidates(activities, false, s.remaining);
    assert Candidates(activities, false, r1.state.remaining) == cand;
    AllCachedNothingToFetch(cand, CachedKoms(r1.store, year));
    NothingToFetch(hasToken, activities, false, r1.state, r1.store, year, oracle2);
  }

  /** With distinct ids, the activities after the resolved ones are still
      uncached once the resolved ones are recorded. */
  lemma SuffixStaysUncached(c0: map<int, int>, t: seq<Activity>, k: nat, oracle: Oracle)
    requires DistinctIds(t) && k <= |t|
    requires forall j :: 0 <= j < |t| ==> t[j].id !in c0
    ensures Filter(t[k..], NotIn(Record(c0, t[..k], oracle))) == t[k..]
  {
    var c1 := Record(c0, t[..k], oracle);
    RecordKeys(c0, t[..k], oracle);
    assert forall i :: 0 <= i < |t[k..]| ==> NotIn(c1)(t[k..][i]);
    FilterKeepsAll(t[k..], NotIn(c1));
  }

  /** After a paused fresh run over activities with distinct ids, the
      resume's activities to fetch are exactly the saved remainder. */
  lemma ResumeFetchesRemainder(activities: seq<Activity>, s: KomState, store: Store, year: int, oracle: Oracle)
    requires DistinctIds(activities)
    requires KomRun(true, activities, false, s, store, year, oracle).state.paused
    ensures var r1 := KomRun(true, activities, false, s, store, year, oracle);
      ToFetch(activities, true, r1.state, r1.store, year) == r1.state.remaining
  {
    var r1 := KomRun(true, activities, false, s, store, year, oracle);
    var t := ToFetch(activities, false, s, store, year);
    var k := PauseIndex(t, oracle);
    var c0 := CachedKoms(store, year);
    PausedRun(true, activities, false, s, store, year, oracle);
    RunStore(true, activities, false, s, store, year, oracle);
    assert r1.state.remaining == t[k..];
    FilterKeepsDistinctIds(activities, Achievers());
    FilterKeepsDistinctIds(Candidates(activities, false, s.remaining), NotIn(c0));
    ToFetchFacts(activities, false, s, store, year);
    SuffixStaysUncached(c0, t, k, oracle);
  }

  /** Resuming a paused run retries the saved remainder, starting with the
      activity that was rate limited, and measures progress against the
      remainder, when the activities have distinct ids. */
  lemma ResumeRetriesRemainder(activities: seq<Activity>, s: KomState, store: Store, year: int,
                               oracle: Oracle, oracle2: Oracle)
    requires DistinctIds(activities)
    requires KomRun(true, activities, false, s, store, year, oracle).state.paused
    ensures var r1 := KomRun(true, activities, false, s, store, year, oracle);
      var r2 := ResumeKomFetch(true, activities, r1.state, r1.store, year, oracle2);
      0 < |r2.requests| && r2.requests <= Ids(r1.state.remaining)
      && r2.state.progress.total == |r1.state.remaining|
  {
    var r1 := KomRun(true, activities, false, s, store, year, oracle);
    PausedRun(true, activities, false, s, store, year, oracle);
    ResumeFetchesRemainder(activities, s, store, year, oracle);
    RequestsFollowToFetch(true, activities, true, r1.state, r1.store, year, oracle2);
    ProgressBounds(true, activities, true, r1.state, r1.store, year, oracle2);
  }

  /** A resume with nothing saved does nothing. */
  lemma ResumeWithoutRemainder(hasToken: bool, all: seq<Activity>, s: KomState, store: Store, year: int, oracle: Oracle)
    requires |s.remaining| == 0
    ensures ResumeKomFetch(hasToken, all, s, store, year, oracle) == RunResult(s, store, [])
  {
  }

  /** The run does not start while another one is loading or without activities. */
  lemma AutoStartGuard(hasToken: bool, all: seq<Activity>, s: KomState, store: Store, year: int, oracle: Oracle)
    ensures |all| == 0 || s.loading ==> AutoStart(hasToken, all, s, store, year, oracle) == RunResult(s, store, [])
    ensures |all| > 0 && !s.loading ==>
      AutoStart(hasToken, all, s, store, year, oracle) == RefreshKomData(hasToken, all, s, store, year, oracle)
  {
  }

  /** An activity of a list is among the first `n` or among the rest. */
  lemma PrefixOrSuffix(t: seq<Activity>, n: nat, a: Activity)
    requires n <= |t| && a in t
    ensures a.id in IdSet(t[..n]) || a in t[n..]
  {
    var i :| 0 <= i < |t| && t[i] == a;
    if i < n {
      assert t[..n][i] == a;
    } else {
      assert t[n..][i - n] == a;
    }
  }

  /** After a paused fresh run, an activity with achievements is either in
      the year's KOM cache or among the activities saved for the resume. */
  lemma PausedRunCoversAchiever(activities: seq<Activity>, s: KomState, store: Store, year: int,
                                oracle: Oracle, a: Activity)
    requires KomRun(true, activities, false, s, store, year, oracle).state.paused
    requires a in activities && PositiveNumber(a.achievementCount)
    ensures var r1 := KomRun(true, activities, false, s, store, year, oracle);
      a.id in CachedKoms(r1.store, year) || a in r1.state.remaining
  {
    var r1 := KomRun(true, activities, false, s, store, year, oracle);
    var cand := Candidates(activities, false, s.remaining);
    var c0 := CachedKoms(store, year);
    var t := ToFetch(activities, false, s, store, year);
    var n := ResolvedCount(true, activities, false, s, store, year, oracle);
    assert CachedKoms(r1.store, year).Keys == c0.Keys + IdSet(t[..n]) by {
      CacheKeysOnlyGrow(true, activities, false, s, store, year, oracle);
    }
    assert r1.state.remaining == t[n..] by {
      RunState(true, activities, false, s, store, year, oracle);
    }
    if a.id !in c0 {
      assert a in t by {
        FilterMembership(activities, Achievers(), a);
        FilterMembership(cand, NotIn(c0), a);
      }
      PrefixOrSuffix(t, n, a);
    }
  }

  /** A paused fresh run followed by a resume that completes leaves every
      activity with achievements in the year's KOM cache. */
  lemma PauseThenResumeCaches(activities: seq<Activity>, s: KomState, store: Store, year: int,
                              oracle: Oracle, oracle2: Oracle)
    requires KomRun(true, activities, false, s, store, year, oracle).state.paused
    requires !ResumeKomFetch(true, activities, KomRun(true, activities, false, s, store, year, oracle).state,
                             KomRun(true, activities, false, s, store, year, oracle).store, year, oracle2).state.paused
    ensures var r1 := KomRun(true, activities, false, s, store, year, oracle);
      var r2 := ResumeKomFetch(true, activities, r1.state, r1.store, year, oracle2);
      forall a :: a in activities && PositiveNumber(a.achievementCount) ==> a.id in CachedKoms(r2.store, year)
  {
    var r1 := KomRun(true, activities, false, s, store, year, oracle);
    var rem := r1.state.remaining;
    var r2 := ResumeKomFetch(true, activities, r1.state, r1.store, year, oracle2);
    assert |rem| > 0 by {
      PausedRun(true, activities, false, s, store, year, oracle);
    }
    assert r2 == KomRun(true, activities, true, r1.state, r1.store, year, oracle2);
    assert forall j :: 0 <= j < |rem| ==> rem[j].id in CachedKoms(r2.store, year) by {
      CompletedRun(true, activities, true, r1.state, r1.store, year, oracle2);
      assert Candidates(activities, true, rem) == rem;
    }
    assert CachedKoms(r1.store, year).Keys <= CachedKoms(r2.store, year).Keys by {
      CacheKeysOnlyGrow(true, activities, true, r1.state, r1.store, year, oracle2);
    }
    forall a | a in activities && PositiveNumber(a.achievementCount)
      ensures a.id in CachedKoms(r2.store, year)
    {
      PausedRunCoversAchiever(activities, s, store, year, oracle, a);
      if a in rem {
        var j :| 0 <= j < |rem| && rem[j] == a;
      }
    }
  }
}
