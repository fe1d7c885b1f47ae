/** The KOM enrichment run: for every candidate activity whose id is not in
    the year's KOM cache, fetch its details one at a time, count the
    segment efforts ranked first overall, and record the count in the cache;
    a rate-limited fetch pauses the run with the unresolved remainder saved
    so that a later call can resume it. */
module KomFetch {
  import opened Common
  import opened Strava
  import opened Storage
  import opened Api

  /** What fetching one activity's details gives: the details, or a thrown
      error with its message. */
  datatype FetchOutcome = Fetched(detail: ActivityDetail) | Failed(message: string)

  /** The fetch results of one run, by activity id. The details endpoint and
      the timing of rate limiting are outside the model, so each run gets
      its own table. */
  type Oracle = int -> FetchOutcome

  predicate IsRateLimited(o: FetchOutcome)
  {
    o.Failed? && MentionsRateLimit(o.message)
  }

  function IsKom(): SegmentEffort -> bool
  {
    (e: SegmentEffort) => e.komRank == Some(1)
  }

  /** `details.segment_efforts?.filter(e => e.kom_rank === 1).length || 0`. */
  function KomCount(d: ActivityDetail): nat
  {
    match d.segmentEfforts
    case None => 0
    case Some(es) => |Filter(es, IsKom())|
  }

  /** The number recorded for an activity whose fetch was not rate limited:
      its KOM count on success, 0 after any other error. */
  function Resolve(o: FetchOutcome): nat
  {
    match o
    case Fetched(d) => KomCount(d)
    case Failed(_) => 0
  }

  const PauseMessage: string := "Rate limited (429) - Click \"Continue\" to resume"

  datatype Progress = Progress(current: int, total: int)

  /** The state the run reports to the dashboard. */
  datatype KomState = KomState(
    komData: map<int, int>,
    loading: bool,
    progress: Progress,
    paused: bool,
    pauseReason: Option<string>,
    remaining: seq<Activity>)

  function InitialKomState(): KomState
  {
    KomState(map[], false, Progress(0, 0), false, None, [])
  }

  /** `a.achievement_count && a.achievement_count > 0`. */
  function Achievers(): Activity -> bool
  {
    (a: Activity) => PositiveNumber(a.achievementCount)
  }

  /** The activities a run considers: the saved remainder when resuming,
      otherwise those with achievements. */
  function Candidates(activities: seq<Activity>, resume: bool, remaining: seq<Activity>): seq<Activity>
  {
    if resume then remaining else Filter(activities, Achievers())
  }

  function NotIn(m: map<int, int>): Activity -> bool
  {
    (a: Activity) => a.id !in m
  }

  /** The candidates whose ids are not cached yet, in order. */
  function Uncached(cand: seq<Activity>, cached: map<int, int>): seq<Activity>
  {
    Filter(cand, NotIn(cached))
  }

  /** The position of the first rate-limited fetch, or `|xs|` when there is none. */
  function PauseIndex(xs: seq<Activity>, oracle: Oracle): (k: nat)
    ensures k <= |xs|
    ensures forall j :: 0 <= j < k ==> !IsRateLimited(oracle(xs[j].id))
    ensures k < |xs| ==> IsRateLimited(oracle(xs[k].id))
  {
    if |xs| == 0 then 0
    else if IsRateLimited(oracle(xs[0].id)) then 0
    else 1 + PauseIndex(xs[1..], oracle)
  }

  lemma PauseIndexAt(xs: seq<Activity>, oracle: Oracle, i: nat)
    requires i <= |xs|
    requires forall j :: 0 <= j < i ==> !IsRateLimited(oracle(xs[j].id))
    requires i < |xs| ==> IsRateLimited(oracle(xs[i].id))
    ensures PauseIndex(xs, oracle) == i
  {
  }

  /** The counts after resolving `xs` in order, starting from `m`. */
  function Record(m: map<int, int>, xs: seq<Activity>, oracle: Oracle): map<int, int>
  {
    if |xs| == 0 then m
    else Record(m, xs[..|xs| - 1], oracle)[xs[|xs| - 1].id := Resolve(oracle(xs[|xs| - 1].id))]
  }

  lemma RecordSnoc(m: map<int, int>, xs: seq<Activity>, a: Activity, oracle: Oracle)
    ensures Record(m, xs + [a], oracle) == Record(m, xs, oracle)[a.id := Resolve(oracle(a.id))]
  {
    assert (xs + [a])[..|xs|] == xs;
  }

  /** Resolving adds exactly the ids of `xs` to the keys; no key is removed. */
  lemma {:induction false} RecordKeys(m: map<int, int>, xs: seq<Activity>, oracle: Oracle)
    ensures Record(m, xs, oracle).Keys == m.Keys + IdSet(xs)
  {
    if |xs| > 0 {
      var init, a := xs[..|xs| - 1], xs[|xs| - 1];
      RecordKeys(m, init, oracle);
      assert xs == init + [a];
      assert IdSet(xs) == IdSet(init) + {a.id};
    }
  }

  /** Every resolved id holds its resolution; the other keys keep their numbers. */
  lemma {:induction false} RecordValues(m: map<int, int>, xs: seq<Activity>, oracle: Oracle, id: int)
    requires id in m || id in IdSet(xs)
    ensures id in Record(m, xs, oracle)
    ensures id in IdSet(xs) ==> Record(m, xs, oracle)[id] == Resolve(oracle(id))
    ensures id !in IdSet(xs) ==> Record(m, xs, oracle)[id] == m[id]
  {
    RecordKeys(m, xs, oracle);
    if |xs| > 0 {
      var init, a := xs[..|xs| - 1], xs[|xs| - 1];
      assert xs == init + [a];
      assert IdSet(xs) == IdSet(init) + {a.id};
      if id != a.id {
        RecordValues(m, init, oracle, id);
      }
    }
  }

  /** The state, the storage and the ids fetched, in order, by one run. */
  datatype RunResult = RunResult(state: KomState, store: Store, requests: seq<int>)

  /** The activities a run fetches. */
  function ToFetch(activities: seq<Activity>, resume: bool, s: KomState, store: Store, year: int): seq<Activity>
  {
    Uncached(Candidates(activities, resume, s.remaining), CachedKoms(store, year))
  }

  /** `fetchKomData(activities, resumeMode)` in closed form: without a token
      nothing happens; otherwise the pause flag is cleared, cached counts are
      shown, and the uncached candidates are resolved in order up to the
      first rate-limited one, which pauses the run with it and everything
      after it saved. */
  function KomRun(hasToken: bool, activities: seq<Activity>, resume: bool, s: KomState,
                  store: Store, year: int, oracle: Oracle): RunResult
  {
    if !hasToken then RunResult(s, store, [])
    else
      var cached := CachedKoms(store, year);
      var shown := if |cached| > 0 then cached else s.komData;
      var cand := Candidates(activities, resume, s.remaining);
      var toFetch := Uncached(cand, cached);
      if |toFetch| == 0 then
        RunResult(KomState(shown, false, s.progress, false, None, []), store, [])
      else
        ResolveRun(cached, shown, |cand|, toFetch, store, KomCacheKey(year), oracle)
  }

  /** The part of a run after the activities to fetch are known: `ncand`
      candidates, of which `toFetch` are not cached. */
  function ResolveRun(cached: map<int, int>, shown: map<int, int>, ncand: int, toFetch: seq<Activity>,
                      store: Store, key: string, oracle: Oracle): RunResult
  {
    var k := PauseIndex(toFetch, oracle);
    var counts := Record(cached, toFetch[..k], oracle);
    var out := if k > 0 then store[key := KomCounts(counts)] else store;
    var data := if k > 0 then counts else shown;
    var progress := Progress(ncand - |toFetch| + k, ncand);
    if k < |toFetch| then
      RunResult(KomState(data, false, progress, true, Some(PauseMessage), toFetch[k..]), out, Ids(toFetch[..k + 1]))
    else
      RunResult(KomState(data, false, progress, false, None, []), out, Ids(toFetch))
  }

  /** One more activity of the list: its id is requested and its
      resolution recorded. */
  lemma PrefixStep(cached: map<int, int>, toFetch: seq<Activity>, i: nat, oracle: Oracle)
    requires i < |toFetch|
    ensures Ids(toFetch[..i + 1]) == Ids(toFetch[..i]) + [toFetch[i].id]
    ensures Record(cached, toFetch[..i + 1], oracle)
         == Record(cached, toFetch[..i], oracle)[toFetch[i].id := Resolve(oracle(toFetch[i].id))]
  {
    assert toFetch[..i + 1] == toFetch[..i] + [toFetch[i]];
    IdsSnoc(toFetch[..i], toFetch[i]);
    RecordSnoc(cached, toFetch[..i], toFetch[i], oracle);
  }

  /** The loop of `fetchKomData` over the activities to fetch: one fetch per
      activity in order; a count (or 0 after an error that is not rate
      limiting) is recorded and the whole map written to the cache; the
      first rate-limited fetch ends the loop at its position `k`. */
  method ResolveInOrder(cached: map<int, int>, toFetch: seq<Activity>, store: Store, key: string, oracle: Oracle)
    returns (counts: map<int, int>, out: Store, k: nat, requests: seq<int>)
    ensures k == PauseIndex(toFetch, oracle)
    ensures counts == Record(cached, toFetch[..k], oracle)
    ensures out == if k > 0 then store[key := KomCounts(counts)] else store
    ensures requests == if k < |toFetch| then Ids(toFetch[..k + 1]) else Ids(toFetch)
  {
    counts, out, requests := cached, store, [];
    var i := 0;
    while i < |toFetch|
      invariant 0 <= i <= |toFetch|
      invariant forall j :: 0 <= j < i ==> !IsRateLimited(oracle(toFetch[j].id))
      invariant counts == Record(cached, toFetch[..i], oracle)
      invariant out == if i > 0 then store[key := KomCounts(counts)] else store
      invariant requests == Ids(toFetch[..i])
    {
      var a := toFetch[i];
      requests := requests + [a.id];
      PrefixStep(cached, toFetch, i, oracle);
      var outcome := oracle(a.id);
      if outcome.Failed? && MentionsRateLimit(outcome.message) {
        PauseIndexAt(toFetch, oracle, i);
        return counts, out, i, requests;
      }
      counts := counts[a.id := Resolve(outcome)];
      out := out[key := KomCounts(counts)];
      i := i + 1;
    }
    assert toFetch[..i] == toFetch;
    PauseIndexAt(toFetch, oracle, i);
    return counts, out, i, requests;
  }

  /** `fetchKomData(activities, resumeMode)`. */
  method FetchKomData(hasToken: bool, activities: seq<Activity>, resume: bool, s: KomState,
                      store: Store, year: int, oracle: Oracle) returns (r: RunResult)
    ensures r == KomRun(hasToken, activities, resume, s, store, year, oracle)
    ensures hasToken ==> !r.state.loading
  {
    if !hasToken {
      return RunResult(s, store, []);
    }
    var cached := CachedKoms(store, year);
    var shown := if |cached| > 0 then cached else s.komData;
    var cand := Candidates(activities, resume, s.remaining);
    var toFetch := Uncached(cand, cached);
    if |toFetch| == 0 {
      return RunResult(KomState(shown, false, s.progress, false, None, []), store, []);
    }
    r := RunFetches(cached, shown, |cand|, toFetch, store, KomCacheKey(year), oracle);
  }

  /** The fetching part of `fetchKomData`, from the progress report to the
      end of the loop. */
  method RunFetches(cached: map<int, int>, shown: map<int, int>, ncand: int, toFetch: seq<Activity>,
                    store: Store, key: string, oracle: Oracle) returns (r: RunResult)
    ensures r.requests == ResolveRun(cached, shown, ncand, toFetch, store, key, oracle).requests
    ensures r.store == ResolveRun(cached, shown, ncand, toFetch, store, key, oracle).store
    ensures r.state == ResolveRun(cached, shown, ncand, toFetch, store, key, oracle).state
    ensures r == ResolveRun(cached, shown, ncand, toFetch, store, key, oracle)
    ensures !r.state.loading
  {
    var counts, out, k, requests := ResolveInOrder(cached, toFetch, store, key, oracle);
    var data := if k > 0 then counts else shown;
    var progress := Progress(ncand - |toFetch| + k, ncand);
    if k < |toFetch| {
      return RunResult(KomState(data, false, progress, true, Some(PauseMessage), toFetch[k..]), out, requests);
    }
    return RunResult(KomState(data, false, progress, false, None, []), out, requests);
  }

  /** `resumeKomFetch`: rerun on the saved remainder, if there is one. */
  function ResumeKomFetch(hasToken: bool, all: seq<Activity>, s: KomState, store: Store, year: int, oracle: Oracle): RunResult
  {
    if |s.remaining| > 0 then KomRun(hasToken, all, true, s, store, year, oracle)
    else RunResult(s, store, [])
  }

  /** `refreshKomData`: a fresh run over the filtered activities. */
  function RefreshKomData(hasToken: bool, all: seq<Activity>, s: KomState, store: Store, year: int, oracle: Oracle): RunResult
  {
    KomRun(hasToken, all, false, s, store, year, oracle)
  }

  /** The effect that starts a run when the activity data changes: only when
      there are activities and no run is loading. */
  function AutoStart(hasToken: bool, all: seq<Activity>, s: KomState, store: Store, year: int, oracle: Oracle): RunResult
  {
    if |all| > 0 && !s.loading then KomRun(hasToken, all, false, s, store, year, oracle)
    else RunResult(s, store, [])
  }
}
