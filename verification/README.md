# strava-recap core, modelled in Dafny

strava-recap is a single-page dashboard that summarises one athlete's year of
activities from the Strava API. This project models the deterministic core of
the dashboard, as pure functions over immutable data:

- **Activity classifier** (`processActivities`, `createEmptyMonthlyActivities`).
  It drops invalid records, collects the distinct sports, applies the sport
  filter, and splits what is kept into twelve month buckets, per-sport buckets
  and a with-photos list. It also covers the memoised `activitiesData` built
  from it.
- **Activity-list query** with its per-year cache fallback (`queryFn`,
  `retryFetchActivities`).
- **KOM enrichment run** (`fetchKomData`, `resumeKomFetch`, `refreshKomData`
  and the effect that starts a run).
  - The run is a loop with invariants (`KomFetch.ResolveInOrder`) that goes
    over the activities to fetch.
  - It resolves each activity against an outcome oracle, from activity id to
    details or a thrown message.
  - It is proved equal to a closed form (`KomFetch.KomRun`). The properties
    of runs, pauses and resumes are stated about that closed form in
    `KomRunProperties`.
- **API client** (`getData`, `getActivities`, `getAllActivities`,
  `updateRedirectUri`). The server is a sequence of recorded replies, one per
  page.
- **Chart calculations** over the classified data: `calculateMonthlyActivities`,
  `calculateKomsOverTime`, and `sanitizeData` of the daily calendar.
- **Sport filter toggle** and the checkbox predicate of the menu.
- **Dashboard**: its render precedence, the error-code extraction, and the
  shuffle of the chart list.
- **Year context**: the initial year read from the URL path, `updateYear` and
  the mount effect.

## How the source's data is represented

**JavaScript objects whose key order matters** are association lists:
`Buckets.Bucket` and `Buckets.Entry` sequences. These are `byMonth`, `byType`
and the chart rows, which are read back with `Object.keys` and
`Object.entries`.

**Number-valued maps** are `map<int, int>`. These are the KOM counts and the
KOM cache.

**Browser storage** is a `map<string, Stored>`, with the exact key strings
`activities_cache_<year>` and `kom_cache_<year>`.

**Dates** are a `Strava.DateModel` passed in as a parameter: whether
`new Date(s)` parses, the local month of a date, and its epoch time.

**`reduce` folds** are recursive functions that peel off the last element. The
`Array.prototype.sort` used by the calendar and the shuffle is a stable
insertion sort (`Sorting.SortBy`). It is proved sorted, a permutation, and
stable.

**Number conversions**:
- `String(n)` is `Decimal.IntToString`, for integers below 10^21 in magnitude;
- `parseInt(s)` and `parseInt(s, 10)` read decimal text, and are `Decimal.ParseIntJs`;
- `Number(s)` is `Decimal.NumberOf`.

The `MONTHS` constant comes from a utility file that is not part of this
model. It is the twelve months in calendar order (`Strava.Months`).

## Model

| member | source | states |
|---|---|---|
| Strava.MonthsDistinct | src/contexts/stravaActivityContext.tsx:14-19 | the twelve months are distinct, and each sits at its own calendar index |
| Classifier.CreateEmptyMonthlyActivities | src/contexts/stravaActivityContext.tsx:14-19 | one bucket per month, in calendar order, all empty, holding nothing in total |
| Classifier.ProcessAll | src/contexts/stravaActivityContext.tsx:87-119 | `all` is exactly the valid records that pass the filter, in input order |
| Classifier.ProcessAllSports | src/contexts/stravaActivityContext.tsx:88-95 | `allSports` is the distinct sports of all valid records, in first-seen order |
| Classifier.AllSportsIgnoresFilter | src/contexts/stravaActivityContext.tsx:95-99 | the sports list is the same whatever filter is applied |
| Classifier.EmptyFiltersKeepAllValid | src/contexts/stravaActivityContext.tsx:97-99 | with no filter selected, every valid record is kept |
| Classifier.FilterSelectsSports | src/contexts/stravaActivityContext.tsx:97-99 | with a filter, a record is kept iff it is in the input, valid, and its sport is selected |
| Classifier.InvalidRecordsIgnored | src/contexts/stravaActivityContext.tsx:88-92 | removing the invalid records first changes none of the five outputs |
| Classifier.ProcessByMonth | src/contexts/stravaActivityContext.tsx:82 | `byMonth` has all twelve months, and each bucket is the kept records of that month, in order |
| Classifier.ProcessByType | src/contexts/stravaActivityContext.tsx:101-106 | `byType` has one key per sport kept, in first-seen order, and each bucket is the kept records of that sport |
| Classifier.ProcessWithPhotos | src/contexts/stravaActivityContext.tsx:113-115 | `withPhotos` is the kept records with a positive photo count, in order |
| Classifier.ProcessSizes | src/contexts/stravaActivityContext.tsx:108-117 | the month buckets and the sport buckets each hold as many records as `all` |
| Classifier.Partition | src/contexts/stravaActivityContext.tsx:101-110 | each kept record is in exactly one month bucket (its start month) and exactly one sport bucket (its sport) |
| Classifier.SportBucketsNonEmpty | src/contexts/stravaActivityContext.tsx:102-106 | no sport bucket is empty |
| Classifier.DeriveActivityData | src/contexts/stravaActivityContext.tsx:214-244 | no list or an empty list gives the empty data; otherwise `all` is the classifier's kept records; in every case `byMonth` has the twelve months, each holding the records of `all` of that month, and `byType` has one key per sport of `all`, in first-seen order, holding that sport's records |
| Storage.CacheKeysDistinct | src/contexts/stravaActivityContext.tsx:165 | the activity and KOM cache keys never collide, and different years get different keys |
| Storage.KomCacheIdRoundTrip | src/contexts/stravaActivityContext.tsx:281-285 | an id written as a JSON object key and read back with `parseInt` is the same id |
| ListFetch.FetchActivityList | src/contexts/stravaActivityContext.tsx:160-180 | success caches the list under the year, adds no other key and changes no other stored value, and clears the cache flag; a 429 error returns a non-empty cached list flagged as cached; any other failure is passed on; a failure leaves storage unchanged |
| ListFetch.FallbackReturnsLastSuccess | src/contexts/stravaActivityContext.tsx:165-177 | a rate-limited query after a successful non-empty one returns the earlier list |
| ListFetch.OtherErrorsRethrown | src/contexts/stravaActivityContext.tsx:171-179 | an error without "429" is passed on unchanged |
| ListFetch.RateLimitWithoutCacheRethrown | src/contexts/stravaActivityContext.tsx:173-179 | a rate-limited query with nothing cached for the year is passed on |
| ListFetch.CacheWriteIsPerYear | src/contexts/stravaActivityContext.tsx:165 | caching one year leaves every other year's cached list as it was |
| ListFetch.RetryFetchActivities | src/contexts/stravaActivityContext.tsx:392-395 | a retry reports a cached result only when its own fetch was rate limited |
| KomFetch.PauseIndex | src/contexts/stravaActivityContext.tsx:333-345 | the position of the first rate-limited fetch: none before it is rate limited, and the one there is |
| KomFetch.RecordKeys | src/contexts/stravaActivityContext.tsx:320 | resolving activities adds exactly their ids to the map, and no key is removed |
| KomFetch.RecordValues | src/contexts/stravaActivityContext.tsx:319-320 | a resolved id holds its KOM count: the efforts ranked first on success, 0 after an error that is not rate limiting; other keys keep their numbers |
| KomFetch.ResolveInOrder | src/contexts/stravaActivityContext.tsx:316-356 | the loop stops at the first rate-limited fetch; the map holds every activity resolved before it; the cache is written once something was resolved; the requests are the ids up to and including the stopping one |
| KomFetch.FetchKomData | src/contexts/stravaActivityContext.tsx:271-361 | the run computes its closed form, and with a token it always ends with loading off |
| KomFetch.RunFetches | src/contexts/stravaActivityContext.tsx:309-360 | the progress report and loop end in the closed form's state, storage and requests, with loading off |
| KomRunProperties.ToFetchFacts | src/contexts/stravaActivityContext.tsx:293-300 | every activity to fetch is a candidate whose id is not in the year's KOM cache |
| KomRunProperties.FreshRunFetchesAchievers | src/contexts/stravaActivityContext.tsx:293-295 | a fresh run requests only activities of its input that have a positive achievement count |
| KomRunProperties.NothingToFetch | src/contexts/stravaActivityContext.tsx:302-307 | with nothing uncached: no request, storage unchanged, remainder cleared, not loading or paused, progress untouched |
| KomRunProperties.ProgressBounds | src/contexts/stravaActivityContext.tsx:309-314 | progress starts from the cached candidates, adds one per resolved activity, out of all candidates, and stays within 0..total |
| KomRunProperties.RunStore | src/contexts/stravaActivityContext.tsx:281-326 | the year's KOM cache after a run is the cache it started from with the resolved activities recorded |
| KomRunProperties.RunKeepsOtherKeys | src/contexts/stravaActivityContext.tsx:326 | every other storage key is left as it was |
| KomRunProperties.CacheKeysOnlyGrow | src/contexts/stravaActivityContext.tsx:320 | no id leaves the KOM cache, and the ids added are exactly those of the resolved activities |
| KomRunProperties.RequestsFollowToFetch | src/contexts/stravaActivityContext.tsx:316-318 | the requests are a prefix of the activities to fetch, and none of them was cached |
| KomRunProperties.PausedIdUnresolved | src/contexts/stravaActivityContext.tsx:334-339 | the activity a run stopped at was not resolved before it |
| KomRunProperties.PausesIffRateLimited | src/contexts/stravaActivityContext.tsx:334 | a run pauses iff one of its activities to fetch is rate limited |
| KomRunProperties.PausedRun | src/contexts/stravaActivityContext.tsx:333-345 | a paused run saved the activities to fetch from the rate-limited one on, did not record that one, and its last request was for it |
| KomRunProperties.CompletedRun | src/contexts/stravaActivityContext.tsx:316-360 | a completed run cleared the remainder and loading, recorded each activity to fetch with its own resolution, and left every candidate cached |
| KomRunProperties.AllResolvedRecorded | src/contexts/stravaActivityContext.tsx:319-320 | after recording every activity, each id holds its own resolution |
| KomRunProperties.AllCandidatesCached | src/contexts/stravaActivityContext.tsx:298-320 | recording the uncached candidates leaves every candidate cached |
| KomRunProperties.AllCachedNothingToFetch | src/contexts/stravaActivityContext.tsx:298-303 | candidates whose ids are all cached leave nothing to fetch |
| KomRunProperties.FilterKeepsDistinctIds | src/contexts/stravaActivityContext.tsx:295-300 | filtering the candidates keeps their ids distinct |
| KomRunProperties.SecondRunFetchesNothing | src/contexts/stravaActivityContext.tsx:298-307 | after a completed fresh run, a second fresh run on the same activities requests nothing |
| KomRunProperties.SuffixStaysUncached | src/contexts/stravaActivityContext.tsx:298-300 | with distinct ids, the activities after the resolved ones are still uncached |
| KomRunProperties.ResumeFetchesRemainder | src/contexts/stravaActivityContext.tsx:293-300 | after a paused fresh run, the resume's activities to fetch are exactly the saved remainder |
| KomRunProperties.ResumeRetriesRemainder | src/contexts/stravaActivityContext.tsx:363-368 | a resume makes at least one request, all of them a prefix of the saved remainder's ids, with progress out of the remainder's size |
| KomRunProperties.PausedRunCoversAchiever | src/contexts/stravaActivityContext.tsx:293-345 | after a paused fresh run, each activity with achievements is either in the year's KOM cache or saved for the resume |
| KomRunProperties.PauseThenResumeCaches | src/contexts/stravaActivityContext.tsx:293-368 | a paused fresh run followed by a resume that completes leaves every activity of the input with achievements in the year's KOM cache |
| KomRunProperties.ResumeWithoutRemainder | src/contexts/stravaActivityContext.tsx:363-366 | a resume with nothing saved does nothing |
| KomRunProperties.AutoStartGuard | src/contexts/stravaActivityContext.tsx:370-375 | a run starts only with activities and when no run is loading, and is then a fresh run over them |
| Api.RequestUrl | src/services/api.ts:36 | the URL is the base URL, followed by `?` and the parameters exactly when parameters are given |
| Api.ErrorMessage | src/services/api.ts:44 | the message starts with "Failed api call to " and the URL, and ends with the status in angle brackets |
| Api.GetData | src/services/api.ts:34-51 | an ok status yields the body; any other status throws the failed-call message; a network failure is passed on |
| Api.RateLimitReplyRecognised | src/services/api.ts:43-45 | a 429 reply is recognised as rate limiting |
| Api.RateLimitTestReadsUrl | src/services/api.ts:44 | because the message embeds the URL, any failed status is taken as rate limiting when the URL contains "429" |
| Api.GetActivities | src/services/api.ts:77-93 | an out-of-range year returns no activities without a request; otherwise one request for the page, and the page reversed |
| Api.YearGuard | src/services/api.ts:79 | a year before 2010 or after the current year yields no activities and no request |
| Api.GetActivitiesSliceServer | src/services/api.ts:77-93 | against a server holding a list, each page returns that page's slice |
| Api.AllFromFullPage | src/services/api.ts:99-110 | a full page is appended and the loop moves on to the next page |
| Api.AllFromShortPage | src/services/api.ts:105-108 | a page of fewer than 200 ends the loop |
| Api.AllFromSliceServer | src/services/api.ts:99-110 | from any page on, the loop collects the rest of the server's list in order, with one request per page |
| Api.GetAllActivitiesSliceServer | src/services/api.ts:94-112 | all items come back in order, after exactly \|items\| / 200 + 1 requests for pages 1, 2, ... |
| Api.ExtraRequestOnFullLastPage | src/services/api.ts:106-109 | when the count is a multiple of 200, the last request returns an empty page |
| Api.UpdateRedirectUri | src/services/api.ts:20-22 | the address is the default address, then `/`, then the year's decimal text, which parses back to the year; the default is kept |
| Api.RedirectUriDoesNotAccumulate | src/services/api.ts:20-22 | only the last update counts: earlier years do not pile up |
| ActivityCount.TallySportsKeys | src/components/charts/activityCount.tsx:25-31 | a month row has one key per sport of that month, in first-seen order |
| ActivityCount.TallySportsCounts | src/components/charts/activityCount.tsx:25-31 | a sport's value is the number of that month's activities of that sport |
| ActivityCount.TallySportsSum | src/components/charts/activityCount.tsx:32 | a row's values add up to the month's bucket size |
| ActivityCount.AccumulateRows | src/components/charts/activityCount.tsx:23-38 | one row per month bucket, in input order, and the total is the sum of the bucket sizes |
| ActivityCount.MonthlyRows | src/components/charts/activityCount.tsx:22-40 | with a positive total, row i is month i's row, with its per-sport counts summing to the bucket's size |
| ActivityCount.AllMonthsEmpty | src/components/charts/activityCount.tsx:39 | all months empty gives no rows and a zero total |
| ActivityCount.CountsAllKept | src/components/charts/activityCount.tsx:36 | on classified data, the total is the number of kept activities |
| KomsOverTime.InitialRows | src/components/charts/komsOverTime.tsx:45-49 | one row per month, in calendar order, with every sport of `byType` at 0 |
| KomsOverTime.FindMonthInMonthRows | src/components/charts/komsOverTime.tsx:57 | on rows laid out by month, the row found for a month is at its calendar index |
| KomsOverTime.EmptyKomData | src/components/charts/komsOverTime.tsx:40-43 | an empty KOM map gives no rows and a zero total |
| KomsOverTime.ChartCells | src/components/charts/komsOverTime.tsx:45-76 | with a positive total: the rows are the twelve months; each cell is the sum of the KOM counts of that month's activities of that sport; the total is the sum of all cells; no cell is negative |
| KomsOverTime.EmptyChartIff | src/components/charts/komsOverTime.tsx:40-76 | the result is empty iff the KOM map is empty or no activity has a positive count; the total is never negative |
| KomsOverTime.TotalKomsNonNegative | src/components/charts/komsOverTime.tsx:55-60 | only positive counts are added, so the total is never negative |
| KomsOverTime.AddActivityStep | src/components/charts/komsOverTime.tsx:54-62 | one activity adds its KOM count, when positive and with a sport, to its own month's sport cell and to the total; every other cell stays, and the month layout, cell-sum total and non-negative cells are kept |
| KomsOverTime.AddMonthsSums | src/components/charts/komsOverTime.tsx:51-66 | over the month buckets, each cell grows by the KOM sum of that month's activities of that sport and the total by all their KOMs, with the layout kept |
| DailyActivities.DatePartOfDateTime | src/components/charts/dailyActivities.tsx:24 | the date of `day + "T" + time` is `day` when `day` has no "T" |
| DailyActivities.Level | src/components/charts/dailyActivities.tsx:26 | the level is at most 4; it is 4 exactly from 4000 on; below that, it is the thousands of the moving time |
| DailyActivities.EntriesOfKept | src/components/charts/dailyActivities.tsx:22-34 | one entry per activity with a local start date and a non-zero moving time, in order, with count 1 and its level |
| DailyActivities.NoActivitiesNoCalendar | src/components/charts/dailyActivities.tsx:18-20 | no activities gives no calendar |
| DailyActivities.CalendarBoundaries | src/components/charts/dailyActivities.tsx:35-42 | with activities, both the year's first and last day are in the calendar |
| DailyActivities.CalendarEntryKinds | src/components/charts/dailyActivities.tsx:35-42 | a zero-count entry is a boundary day no activity falls on; every other entry is an activity's |
| DailyActivities.CalendarSorted | src/components/charts/dailyActivities.tsx:43 | the calendar is sorted by the date's time, with equal times in their original order |
| DailyActivities.ShownCountIsKeptCount | src/components/charts/dailyActivities.tsx:96 | the entries with a positive count are exactly as many as the activities kept |
| DailyActivities.BoundaryDatesDiffer | src/components/charts/dailyActivities.tsx:35-36 | the first and last day of a year are different dates |
| Sorting.SortBySorted | src/components/charts/dailyActivities.tsx:43 | the sort's result is ordered by the key |
| Sorting.SortByPermutes | src/components/charts/dailyActivities.tsx:43 | the sort's result is a permutation of its input |
| Sorting.SortByStable | src/components/dashboard.tsx:77 | items with equal keys keep their relative order |
| Menu.ToggleMembership | src/components/nav/menu.tsx:39-46 | the toggled sport's membership flips, and every other sport's membership stays |
| Menu.ToggleKeepsOthers | src/components/nav/menu.tsx:41-45 | the other sports keep their order; an absent sport is appended at the end |
| Menu.ToggleTwice | src/components/nav/menu.tsx:41-45 | toggling an absent sport twice restores the list |
| Menu.ToggleFromEmpty | src/components/nav/menu.tsx:96 | with no filter every box is checked, and one toggle selects only that sport |
| Menu.ToggleChecked | src/components/nav/menu.tsx:96 | after a toggle, the sport's box is checked iff it was absent or was the only sport selected |
| Dashboard.RenderPrecedence | src/components/dashboard.tsx:86-117 | loading comes first, then an error, then no activities, and otherwise the charts |
| Dashboard.ErrorViewCode | src/components/dashboard.tsx:95-103 | the error view carries the message and the code extracted from it |
| Dashboard.ErrorCode | src/components/dashboard.tsx:96 | an extracted code is never 0: a 0 or NaN becomes null |
| Dashboard.SliceIndex | src/components/dashboard.tsx:96 | a `slice` index within the length is kept, a negative one counts from the end, and the result is within the length |
| Dashboard.ErrorCodeOfMessage | src/components/dashboard.tsx:96 | for a failed-call message whose URL has no angle brackets, the code is the status (null for status 0) |
| Dashboard.GraphComponentsDistinct | src/components/dashboard.tsx:38-61 | the chart ids are distinct |
| Dashboard.ShuffleIsPermutation | src/components/dashboard.tsx:74-79 | whatever the random draws, the shuffle has the same ids, each exactly once |
| CurrentYear.PathSegmentOf | src/contexts/currentYearContext.tsx:19 | the first path segment is the text between the first slash and the next one |
| CurrentYear.InitialYearOfSegment | src/contexts/currentYearContext.tsx:19 | the initial year is the number of the first segment, or 0 when it is not a number |
| CurrentYear.InitialYearWithoutSlash | src/contexts/currentYearContext.tsx:19 | a path without a slash gives year 0 |
| CurrentYear.UpdateYearRoundTrip | src/contexts/currentYearContext.tsx:29-32 | the path pushed for a year reads back as that year, and reloading gives the same state |
| CurrentYear.MountAtRoot | src/contexts/currentYearContext.tsx:22-27 | at "/" the year starts at 0, and mounting switches to the current year and its path |
| CurrentYear.MountElsewhere | src/contexts/currentYearContext.tsx:22-23 | at any other path, mounting changes nothing |
| Decimal.ParseIntOfIntToString | src/contexts/stravaActivityContext.tsx:284 | `parseInt` reads back the decimal text of any integer, whatever follows it that is not a digit |
| Decimal.NumberOfIntToString | src/contexts/currentYearContext.tsx:19 | `Number` reads back the decimal text of any integer |

## Left out

- React plumbing is not modelled: hooks, memoisation, react-query options, Sentry and analytics calls, console logging.
- `fetch`, the 150 ms wait after a successful detail fetch, and the browser storage wrapper are replaced by parameters: a recorded reply per page, an outcome oracle per activity id, and a storage map. Timing is not modelled.
- `getActivityDetails` is not part of this model; its outcomes are the oracle. Each run gets its own oracle, because whether a fetch is rate limited depends on time.
- Overlapping runs and stale results are not modelled: a filter change or refresh while a run is in flight. One sequential run is modelled, guarded by the loading flag.
- Date parsing, the locale month name and epoch arithmetic are parameters (`Strava.DateModel`) and are not interpreted. So are the year boundaries of the list query, `new Date().getFullYear()` (a parameter `nowYear`), and the calendar's `getTime`.
- `Math.random` values for the shuffle are a parameter function from position to integer. Only their order matters there, so they are not floats.
- The random pick of an activity photo is not modelled. It is a display choice that no other output depends on.
- The floating-point charts (distance, elevation, distance by type, heart-rate zones) are not modelled, nor are OAuth, token handling, `generateAuthUrl` and `exchangeToken`, the UI-only components, or the theme context.
- `Decimal.NumberOf`: handles only optional-sign decimal integers with surrounding white space. Other `Number` forms give `None` (NaN) in the model: exponents, hexadecimal, fractions, `Infinity`. These are forms the year path segment is not expected to take.
- `Classifier.DeriveActivityData`: the source's catch path is not modelled. In the source, any throw inside `processActivities` gives the empty data; one such throw is a locale month name that is not a key of `MONTHS`. Here the month of a date is always one of the twelve months, so that path cannot arise.
- `Api.PageReply`: a page past the recorded replies is an empty page with status 200. The source's loop has no page cap, and never ends against a server that keeps returning full pages; the model cannot express that server.
- `Storage.KomCacheIdRoundTrip`: holds for every integer in the model. In JavaScript, `String` writes ids of 10^21 and above in exponent form, which `parseInt` does not read back, and ids above 2^53 are not exact. Strava activity ids stay far below both bounds.
- `KomsOverTime.ChartCells`: a sport literally named "month" would overwrite the row's month field in the source. The model keeps the month separate from the cells.
- `KomsOverTime.EmptyChartIff`: the source's `!data?.byMonth` test is always false here, because the data always carries `byMonth`.
- `ActivityCount.MonthlyRows`: as for the KOM chart, a sport named "month" is not treated as overwriting the month field.
- `DailyActivities.Level`: a negative moving time gives a negative level in the source, as in the model. The bound `0 <= level` is stated only for a non-negative moving time.
- `CurrentYear.UpdateYearRoundTrip`: `history.pushState` is modelled as setting the path, without browser history.
