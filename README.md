# strava-widgets core, modelled in Dafny

strava-widgets pulls a runner's Strava activities into one JSON file per activity. From
those files it derives statistics files that browser widgets display. This project models
the deterministic core of that pipeline and proves what it promises. The core has five parts.

- **Incremental sync.**
  - `ActivitySync.syncNewActivities` asks the Strava API for pages of 200 activities. It writes one file per Run and commits a watermark after every page.
  - Below it are the sync-state manager, the atomic temp-file-then-rename `FileStore`, the OAuth token refresh and the API client's retry classification.
  - The file system is a `map<string, string>` field of the `FileStore` class.
  - The API is a sequence of page results. `JSON.stringify`/`JSON.parse` are a codec of two functions. The clock and HTTP replies are parameters.
- **UTC calendar and analytics.**
  - Monday-based week starts, month and year starts and their labels are computed over integer milliseconds with a proleptic Gregorian calendar.
  - Weekly, monthly and yearly buckets are built. So are the year-over-year table, the time-of-day buckets and the seasonal trends.
  - Daily and weekly streaks are specified by their test suite.
- **Geo aggregation.**
  - `geocodeActivity` and its cache are modelled.
  - So are polyline bounds and route sampling, and the grouping of runs by country and city.
  - The offline geocoder and the polyline codec are parameters.
- **Widget utilities.** The table paginator is a class. The model also covers the column sorter, the attribute parsers (including the CSS length pattern as a recogniser) and the CSV exporter, together with an RFC 4180 reader for it.
- **Build scripts.** The route extraction and the heatmap decoding loop are modelled.

Modules follow the source files:
- `Util`, `JsonModel` and `Sorting` are shared support;
- `Storage`, `SyncStates`, `OAuth`, `Client` and `Sync` cover the sync;
- `DateUtils`, `Streaks`, `Stats` and `AdvancedStats` cover analytics;
- `Geocoder`, `Polyline` and `GeoStats` cover geo aggregation;
- `Paginator`, `TableSorting`, `AttributeParser` and `CsvExport` cover the widgets;
- `RouteData` and `HeatmapData` cover the scripts.

Code that changes state is modelled with classes and loops:
- `FileStore`, `SyncStateManager`, `StravaOAuth`, `ActivitySync`, `GeoCache` and `TablePaginator`;
- the page loop, the grouping loops and the sampling loop.

Each such method is proved against a specification function. The lemmas state the properties of those functions.

## Model

| member | source | states |
|---|---|---|
| Storage.ResolveKeepsPath | src/storage/file-store.ts:19 | The resolved path ends with the relative path given. |
| Storage.TempOf | src/storage/file-store.ts:20 | The temporary file `<fullPath>.tmp.<pid>` is longer than the full path and ends in a digit. |
| Storage.TempOfExtends | src/storage/file-store.ts:20 | The temporary file's name starts with the full path. |
| Storage.TempIsNotJson | src/storage/file-store.ts:20 | A temporary file never has the name of a `.json` file. |
| Storage.Committed | src/storage/file-store.ts:28-31 | After the rename, the destination holds the content and the temporary file is gone. Every other file is unchanged. |
| Storage.ReadAfterCommit | src/storage/file-store.ts:48-53 | When the codec reads back the value written (the codec parses the text stringified from that one value back to it), a committed write reads back as that value. Other files are untouched. |
| Storage.ErrorMessage | src/storage/file-store.ts:55-58 | A missing file gives "File not found: <path>". Any other failure gives "Failed to read JSON from <path>: …". |
| Storage.FilterSuffix | src/storage/file-store.ts:83-85 | Exactly the names ending with the extension; all names when every one ends with it. |
| Storage.FilterSuffixSingle | src/storage/file-store.ts:84 | One name is kept exactly when it ends with the extension. |
| Storage.FilterSuffixAppend | src/storage/file-store.ts:84 | Filtering a concatenation filters each part and concatenates, so the kept names keep their order. |
| Storage.FileStore.constructor | src/storage/file-store.ts:10 | `new FileStore(baseDir)`: the store keeps its base directory. The process id, JSON codec and current files, which the source takes from its environment, are parameters kept as given. |
| Storage.FileStore.TempPath | src/storage/file-store.ts:20 | The temporary path is never the destination. |
| Storage.FileStore.WriteJson | src/storage/file-store.ts:18-41 | It succeeds exactly when no step faults, and then the destination holds the serialised value. On failure the temporary file is removed, the error is passed on and the destination keeps its prior content or absence. |
| Storage.FileStore.ReadJson | src/storage/file-store.ts:48-60 | NotFound exactly when the file is absent. Otherwise it fails only when the codec rejects the text, and else returns what the codec parsed. |
| Storage.FileStore.Exists | src/storage/file-store.ts:65-73 | It never fails, and is true exactly when the file is present. |
| Storage.FileStore.ListFiles | src/storage/file-store.ts:78-93 | A missing directory lists as []. Other listing errors are passed on. Without an extension every entry is listed; with one, exactly the entries ending with it. |
| SyncStates.FromToJson | src/storage/sync-state.ts:31 | A state survives conversion to JSON and back. |
| SyncStates.LoadAfterSave | src/storage/sync-state.ts:37-39 | When the codec reads back this state's JSON, a state written by save is what the next load returns. |
| SyncStates.NextState | src/storage/sync-state.ts:53-62 | The watermark is the larger of the current one and the first activity's time, so it never decreases. The id is the first activity's id as text, and the total grows by exactly the batch length. |
| SyncStates.NextStateTrustsOrder | src/storage/sync-state.ts:53-55 | Given a batch that is not newest first, the watermark stops short of the newest activity. |
| SyncStates.SyncStateManager.constructor | src/storage/sync-state.ts:10-13 | The manager over a state path and a store. |
| SyncStates.SyncStateManager.Load | src/storage/sync-state.ts:20-32 | An absent file gives the default `{0, '', 0, ''}`. Otherwise it gives the stored state, or the read error. |
| SyncStates.SyncStateManager.Save | src/storage/sync-state.ts:37-39 | It writes exactly the given state's text. When the codec reads that JSON back, Load then returns the state. |
| SyncStates.SyncStateManager.UpdateAfterSync | src/storage/sync-state.ts:46-66 | An empty batch returns the current state and writes nothing. A non-empty one saves NextState and returns what it saved. |
| OAuth.TokensRoundTrip | src/auth/strava-oauth.ts:145 | A token triple survives conversion to JSON and back. |
| OAuth.AuthMessage | src/auth/strava-oauth.ts:139-142 | The messages start with "Tokens file not found at <path>", or with the refresh or exchange failure and its status. |
| OAuth.NeedsRefreshInMs | src/auth/strava-oauth.ts:33-36 | A refresh happens exactly when less than 3 600 000 ms remain before expiry. |
| OAuth.OneHourLeftNotRefreshed | src/auth/strava-oauth.ts:36 | With exactly one hour left there is no refresh; one millisecond later there is one. |
| OAuth.TokensAfterSave | src/auth/strava-oauth.ts:153-155 | When the codec reads back these tokens' JSON, tokens saved are the tokens the next load reads. |
| OAuth.StravaOAuth.constructor | src/auth/strava-oauth.ts:17-22 | The client over its configuration and store. |
| OAuth.StravaOAuth.LoadTokens | src/auth/strava-oauth.ts:136-146 | "Tokens file not found" exactly when the file is absent. Otherwise it returns the stored triple. |
| OAuth.StravaOAuth.SaveTokens | src/auth/strava-oauth.ts:153-155 | It writes exactly the triple's text. When the codec reads that JSON back, LoadTokens then returns the triple. |
| OAuth.StravaOAuth.RefreshAccessToken | src/auth/strava-oauth.ts:50-78 | It posts the refresh token. A non-OK reply is an error carrying its status and the re-authentication hint. An OK reply gives the new triple. |
| OAuth.StravaOAuth.GetValidAccessToken | src/auth/strava-oauth.ts:29-43 | With an hour or more left: the stored access token, nothing written, and LoadTokens unchanged. Otherwise it refreshes and persists the rotated triple's text before returning the new token; when the codec reads that triple back, LoadTokens returns it. A failed refresh leaves the token file unchanged. |
| OAuth.StravaOAuth.ExchangeCode | src/auth/strava-oauth.ts:85-113 | It saves only after an OK reply, and returns exactly the triple whose text it wrote. When the codec reads that triple back, LoadTokens returns it. |
| Client.RetryAfterOf | src/api/strava-client.ts:49 | A missing or empty Retry-After header gives 60. A header written from an integer gives that integer. |
| Client.Classify | src/api/strava-client.ts:48-59 | 429 is a RateLimitError. Any other non-OK status is an error whose message starts with `HTTP <status>: `. An OK response passes. |
| Client.ClientErrorNotRetried | src/api/strava-client.ts:66-72 | A 4xx response is never retried. |
| Client.ServerErrorRetried | src/api/strava-client.ts:66-72 | A 5xx response is retried exactly when its body does not contain "HTTP 4". |
| Client.FourHundreds | src/api/strava-client.ts:56 | The text of a 4xx status is three digits starting with '4'. |
| Client.Request | src/api/strava-client.ts:28-78 | The token is fetched once, and every attempt carries it. Attempts go on while shouldRetry allows, at most 1 + 3 of them, and the result is the last attempt's verdict. A 429 or a 4xx stops after one attempt. |
| Client.ActivitiesQuery | src/api/strava-client.ts:85-96 | `page` defaults to 1 and `per_page` to 200. `after` is added only when it is given. |
| Activities.RunsMembers | src/sync/activity-sync.ts:63 | An activity is kept exactly when it is in the input and its type is "Run"; every kept one is a Run. |
| Activities.RunsAppend | src/sync/activity-sync.ts:63 | Filtering distributes over concatenation. |
| Activities.RunsIdempotent | src/sync/activity-sync.ts:63 | Filtering twice is filtering once. |
| Activities.EpochSeconds | src/sync/activity-sync.ts:76 | The start time in whole seconds, rounded down. |
| Sync.AfterOf | src/sync/activity-sync.ts:35 | `after` is omitted exactly when the loaded watermark is 0. Otherwise it is that watermark. |
| Sync.QueriesAt | src/sync/activity-sync.ts:50-52 | Fetch k asks for page k+1, 200 per page, with the loaded watermark as `after`. |
| Sync.Watermark | src/sync/activity-sync.ts:74-80 | The page's watermark is at least the loaded one and covers every activity's start in whole seconds. It is one of those values. |
| Sync.TruncMs | src/sync/activity-sync.ts:87 | `new Date(x)` truncates a time value toward zero. |
| Sync.CommitCoversPage | src/sync/activity-sync.ts:74-84 | The committed watermark is at least the loaded watermark and covers every activity of the page, not just the first. |
| Sync.CommitWatermarkCanFall | src/sync/activity-sync.ts:74-87 | Each page's commit starts from the state loaded once, so a later page whose activities are all older than one of an earlier page (itself above the loaded watermark) commits a lower watermark. |
| Sync.LastFetchUnique | src/sync/activity-sync.ts:55-58 | The loop's last fetch is the first page that is not full, so it is determined by the pages. |
| Sync.AllFullWithin | src/sync/activity-sync.ts:94-97 | Full pages are answered pages, so the loop ends within |pages| + 1 fetches. |
| Sync.ActivitySync.constructor | src/sync/activity-sync.ts:15-26 | The sync over its store, state manager and activities directory. |
| Sync.ActivitySync.RunPathIsJson | src/sync/activity-sync.ts:67 | A Run's file `<activitiesDir>/<id>.json` ends in ".json". |
| Sync.ActivitySync.RunFileIsJson | src/sync/activity-sync.ts:67-68 | The resolved path of a Run's file ends in ".json" too. |
| Sync.ActivitySync.JsonSurvivesWrite | src/sync/activity-sync.ts:66-70 | A write never removes a `.json` file. |
| Sync.ActivitySync.AfterPageKeepsJson | src/sync/activity-sync.ts:66-88 | Processing a page never removes a `.json` file. |
| Sync.ActivitySync.AfterPageHasRuns | src/sync/activity-sync.ts:66-70 | After a page, every Run of it has its file. |
| Sync.ActivitySync.RunFilePresent | src/sync/activity-sync.ts:63-70 | Every Run of every processed page has its file at the end. |
| Sync.ActivitySync.JsonFileStays | src/sync/activity-sync.ts:60-90 | A `.json` file present after some pages is still present after every later page. |
| Sync.ActivitySync.OtherFilesUntouched | src/sync/activity-sync.ts:66-88 | Nothing is touched apart from `.json` files, temporary files and the state file. |
| Sync.ActivitySync.WriteRunFiles | src/sync/activity-sync.ts:66-70 | One write per Run in order. The count returned is the number of writes. |
| Sync.ActivitySync.PageWatermark | src/sync/activity-sync.ts:74-80 | The inner loop computes Watermark. |
| Sync.ActivitySync.ProcessPage | src/sync/activity-sync.ts:60-90 | It writes the page's Runs, then saves the state built from the loaded state and this page. It reports one write per Run. The files are those the pages so far leave, and the counters grow by this page. |
| Sync.ActivitySync.LoadAfterPages | src/sync/activity-sync.ts:82-88 | After a non-empty page, the state file holds the text of the state committed for that page. When the codec reads that state back, load returns it. |
| Sync.ActivitySync.LoadAfterSync | src/sync/activity-sync.ts:50-100 | After the loop, the state file holds the text of the commit of the last non-empty page. That is the last fetch's own page, or the full page before a failed or empty fetch. When the codec reads that commit back, load returns it. |
| Sync.ActivitySync.TotalNotCumulative | src/sync/activity-sync.ts:34-87 | After a full first page and a short second one, the loop makes two fetches and the state file holds the text of the second page's commit alone. Its total is the loaded total plus the second page, fewer than the loaded total plus the activities fetched. When the codec reads it back, load returns that commit. |
| Sync.ActivitySync.WatermarkFallsAcrossPages | src/sync/activity-sync.ts:34-87 | For the same two pages, when the first holds an activity newer than the loaded watermark and than every activity of the second, the state file holds a commit whose watermark is below the one saved after the first page. When the codec reads it back, load returns that lower watermark. |
| Sync.ActivitySync.OtherSurvivesPage | src/sync/activity-sync.ts:66-88 | One page touches only `.json` files, temporary files and the state file. |
| Sync.ActivitySync.FetchLoop | src/sync/activity-sync.ts:50-106 | Queries go for pages 1, 2, … with the same `after`. The loop stops at a fetch error, at the first empty page without saving, or after the first short page. totalFetched is the sum of page lengths and newRuns the number of Runs. pagesProcessed counts the non-empty pages. The files are those the processed pages leave. |
| Sync.ActivitySync.SyncNewActivities | src/sync/activity-sync.ts:28-107 | The state is loaded once and an unreadable state ends the sync before any fetch. Otherwise the page loop runs. The state file at the end holds the text of the last non-empty page's commit, and load returns that commit when the codec reads it back. |
| DateUtils.DayOf | src/analytics/date-utils.ts:21-22 | The UTC day number: its midnight is at or before the instant, and the next midnight after it. |
| DateUtils.WeekDay | src/analytics/date-utils.ts:16 | getUTCDay lies in 0..6. |
| DateUtils.HourOf | src/analytics/compute-advanced-stats.ts:143 | getUTCHours lies in 0..23 and locates the instant within its day. |
| DateUtils.YearOf | src/analytics/date-utils.ts:48 | The year whose days hold the day number. |
| DateUtils.CivilOfDay | src/analytics/date-utils.ts:61-62 | A valid year, month and day that map back to the day number. |
| DateUtils.DayOfCivilOfDay | src/analytics/date-utils.ts:61-62 | Day number → civil date → day number is the identity. |
| DateUtils.CivilOfDayOfCivil | src/analytics/date-utils.ts:61-62 | Civil date → day number → civil date is the identity. |
| DateUtils.GetWeekStart | src/analytics/date-utils.ts:14-25 | A midnight that is a Monday, at or before the instant and less than 7 days before it. |
| DateUtils.WeekStartIdempotent | src/analytics/date-utils.ts:14-25 | getWeekStart of a week start is itself. |
| DateUtils.SameWeekStart | src/analytics/date-utils.ts:14-25 | Two instants share a week start exactly when they are in the same Monday-based week. |
| DateUtils.GetMonthStart | src/analytics/date-utils.ts:33-38 | A midnight at or before the instant, with the same UTC year and month, on day 1. |
| DateUtils.GetYearStart | src/analytics/date-utils.ts:46-51 | A midnight at or before the instant, on January 1 of the same UTC year. |
| DateUtils.SameMonthStart | src/analytics/date-utils.ts:33-38 | Two instants share a month start exactly when they share year and month. |
| DateUtils.SameYearStart | src/analytics/date-utils.ts:46-51 | Two instants share a year start exactly when they share the year. |
| DateUtils.FormatWeekLabelInjective | src/analytics/date-utils.ts:59-64 | "Week of M/D" labels are equal exactly when month and day are. |
| DateUtils.FormatMonthLabelInjective | src/analytics/date-utils.ts:72-81 | "Mon YYYY" labels are equal exactly when year and month are. |
| DateUtils.IsoStringEndsInZ | src/analytics/compute-stats.ts:83 | The ISO text of an instant ends in "Z". |
| Streaks.RunEndingAt | src/analytics/streak-utils.test.ts:77-97 | The run of consecutive days ending at a day: it is a run, and the day before it is missing. |
| Streaks.RunEndingAtIsLongest | src/analytics/streak-utils.test.ts:77-97 | No run ending at that day is longer. |
| Streaks.LongestRun | src/analytics/streak-utils.test.ts:77-97 | A run at least as long as the run ending at any candidate. |
| Streaks.LongestRunIsLongest | src/analytics/streak-utils.test.ts:77-97 | When every day is a candidate, no run of the set is longer, and the run ends on an active day. |
| Streaks.CurrentRun | src/analytics/streak-utils.test.ts:99-127 | Positive exactly when the latest day is today or yesterday. It is then the run ending at that day, with the day before the run missing. |
| Streaks.CalculateDailyStreaksAsWritten | src/analytics/streak-utils.ts:23-33 | As written: zeros and nulls for every input. |
| Streaks.CalculateDailyStreaks | src/analytics/streak-utils.test.ts:5-127 | Empty input gives no streak. withinCurrentStreak holds iff the latest day is today or yesterday, iff the current streak is positive. The current streak is the run ending at the latest day. The longest streak is a longest run, with its start and end dates. |
| Streaks.SameDayCountsOnce | src/analytics/streak-utils.test.ts:67-75 | A second activity on a day already present changes nothing. |
| Streaks.SingleDateToday | src/analytics/streak-utils.test.ts:17-26 | One date today gives current 1, longest 1, within true. The as-written stub gives current 0. |
| Streaks.SingleDateFiveDaysAgo | src/analytics/streak-utils.test.ts:28-36 | One date five days ago gives current 0, longest 1, within false. |
| Streaks.CalculateWeeklyConsistencyAsWritten | src/analytics/streak-utils.ts:35-46 | As written: zeros for every input, with `minRunsPerWeek` 3 unless given. |
| Streaks.RunsInWeek | src/analytics/streak-utils.test.ts:131-226 | A week has dates exactly when some date falls in it. |
| Streaks.ConsistentWeeks | src/analytics/streak-utils.test.ts:131-226 | Exactly the active weeks with at least `minRunsPerWeek` dates. |
| Streaks.CalculateWeeklyConsistency | src/analytics/streak-utils.test.ts:131-226 | With `minRunsPerWeek` 3 unless given: empty input gives zeros. The current streak is the run of consistent weeks ending at the latest active week, and the longest is a longest such run. Every consistent week counts in the total even after a gap, and totalWeeks counts the active weeks. |
| Streaks.OneWeekOfThreeRuns | src/analytics/streak-utils.test.ts:141-151 | Three runs in one week at threshold 3 give (1, 1, 1, 1). The stub reports no consistent week. |
| Stats.AddRun | src/analytics/compute-stats.ts:93-97 | One run adds one to the count and its distance and moving time to the sums, keeping km = metres / 1000. |
| Stats.TotalOf | src/analytics/compute-stats.ts:125-131 | The sums over the runs count every run once, with km = metres / 1000. |
| Stats.RunsIn | src/analytics/compute-stats.ts:80-100 | The runs whose period key is k. |
| Stats.BucketsAreTotals | src/analytics/compute-stats.ts:80-100 | Each run lands in exactly one bucket. A key has a bucket exactly when it has runs, and the bucket holds their sums. |
| Stats.KeyOrderIsDomain | src/analytics/compute-stats.ts:102 | The map's insertion order lists every key once. |
| Stats.GroupByPeriod | src/analytics/compute-stats.ts:80-100 | The bucketing loop computes Buckets and the insertion order. |
| Stats.SumOverKeys | src/analytics/compute-stats.ts:98 | Summed over distinct keys, bucket counts count the runs with one of those keys. |
| Stats.SortedKeys | src/analytics/compute-stats.ts:114 | The bucket keys, each once, in strictly increasing order. |
| Stats.SortedKeysCountAll | src/analytics/compute-stats.ts:98 | The bucket run counts add up to the number of runs. |
| Stats.Pace | src/analytics/compute-stats.ts:107-110 | 0 without distance. Otherwise pace × km = minutes. |
| Stats.StatsFor | src/analytics/compute-stats.ts:102-113 | One entry per key, in the given order, with that key's sums. |
| Stats.GroupStatsSpec | src/analytics/compute-stats.ts:102-114 | One entry per key holding a run, in strictly increasing key order, each counting exactly the runs of its key. |
| Stats.GroupStatsCountAll | src/analytics/compute-stats.ts:98 | The entries' run counts add up to the number of runs. |
| Stats.PeriodStatsSpec | src/analytics/compute-stats.ts:156-191 | The same for weeks, months and years, keyed by the period start of each run. |
| Stats.TotalOfConcat | src/analytics/compute-stats.ts:125-131 | Sums over two stretches add up. |
| Stats.TotalOfSortBy | src/analytics/compute-stats.ts:67-69 | Sorting the runs does not change the totals. |
| Stats.LoadRuns | src/analytics/compute-stats.ts:48-57 | The loading loop keeps exactly the Runs, in order. |
| Stats.SumAll | src/analytics/compute-stats.ts:125-131 | The all-time loop computes TotalOf. |
| Stats.ComputePeriodStats | src/analytics/compute-stats.ts:80-114 | A grouping loop followed by the sort computes PeriodStats. |
| Stats.SortedRuns | src/analytics/compute-stats.ts:67-69 | A permutation of the Runs in non-decreasing start order. |
| Stats.SortedEnds | src/analytics/compute-stats.ts:122-123 | The first and last sorted runs are the earliest and the latest. |
| Stats.ComputeAllStats | src/analytics/compute-stats.ts:39-299 | Nothing without a run. Otherwise it gives the three groupings of the sorted runs and the all-time totals, with pace 0 when the distance is 0 and first/last dates of the earliest and latest runs. The metadata holds the run count and the five file names. |
| Stats.GroupingsCountAllRuns | src/analytics/compute-stats.ts:218 | Each grouping counts as many runs as the totals. |
| AdvancedStats.SampleOf | src/analytics/compute-advanced-stats.ts:72-74 | The UTC year and a month in 1..12 of the start, with an hour in 0..23. |
| AdvancedStats.Samples | src/analytics/compute-advanced-stats.ts:71 | One sample per run, in order. |
| AdvancedStats.CellOf | src/analytics/compute-advanced-stats.ts:87-89 | Sums over some samples, one run each. |
| AdvancedStats.Select | src/analytics/compute-advanced-stats.ts:199 | The samples a predicate keeps, in order. |
| AdvancedStats.GroupIsCells | src/analytics/compute-advanced-stats.ts:71-92 | A key has an entry exactly when some sample has it, and the entry holds their sums. |
| AdvancedStats.OrderIsDomain | src/analytics/compute-advanced-stats.ts:96-100 | Insertion order lists every key once. |
| AdvancedStats.LookupIsCell | src/analytics/compute-advanced-stats.ts:120-127 | Looking a key up, present or not, gives the sums of its samples. |
| AdvancedStats.GroupLoop | src/analytics/compute-advanced-stats.ts:71-92 | The grouping loop computes Group and its insertion order. |
| AdvancedStats.DistinctYears | src/analytics/compute-advanced-stats.ts:95-100 | The distinct year texts that occur, each once. |
| AdvancedStats.LastThree | src/analytics/compute-advanced-stats.ts:101 | `slice(-3)`: the last min(3, n) elements. |
| AdvancedStats.SortedYears | src/analytics/compute-advanced-stats.ts:101 | At most three of the years that occur, in strictly increasing lexicographic order. |
| AdvancedStats.SortedYearsAreGreatest | src/analytics/compute-advanced-stats.ts:101 | Every year left out is lexicographically below every year kept. |
| AdvancedStats.BuildYearOverYear | src/analytics/compute-advanced-stats.ts:107-131 | Twelve rows, row i for month i+1. |
| AdvancedStats.YearOverYear | src/analytics/compute-advanced-stats.ts:104-131 | Exactly 12 entries. |
| AdvancedStats.YearOverYearSpec | src/analytics/compute-advanced-stats.ts:104-131 | Months 1..12 labelled Jan..Dec. Each month lists exactly the kept years, each with the sums of that month's runs of that year, zero where there are none. |
| AdvancedStats.SlotOf | src/analytics/compute-advanced-stats.ts:145-154 | [6,12) Morning, [12,18) Afternoon, [18,22) Evening, everything else Night. |
| AdvancedStats.TimeOfDayBuckets | src/analytics/compute-advanced-stats.ts:134-158 | Every bucket is present, holding the sums of its runs. |
| AdvancedStats.SlotsCountAll | src/analytics/compute-advanced-stats.ts:141-158 | Every run falls in exactly one bucket: the four counts add up to the number of runs. |
| AdvancedStats.TimeOfDay | src/analytics/compute-advanced-stats.ts:160-168 | Four patterns. |
| AdvancedStats.TimeOfDayCounts | src/analytics/compute-advanced-stats.ts:160-168 | The four buckets in declaration order with their labels, each counting the runs in its range. The counts sum to totalRuns. |
| AdvancedStats.TimeOfDayShares | src/analytics/compute-advanced-stats.ts:166 | The percentages add up to 100. |
| AdvancedStats.KeepYears | src/analytics/compute-advanced-stats.ts:199 | Exactly the keys of a kept year, without repeats. |
| AdvancedStats.Trends | src/analytics/compute-advanced-stats.ts:198 | One entry per key, with that key's sums. |
| AdvancedStats.SeasonalKeys | src/analytics/compute-advanced-stats.ts:198-203 | Exactly the (year, month) keys of the kept years, strictly increasing by year, then month. |
| AdvancedStats.SeasonalEntries | src/analytics/compute-advanced-stats.ts:176-203 | Each seasonal entry is its key with that key's sums. |
| AdvancedStats.SeasonalOrder | src/analytics/compute-advanced-stats.ts:200-203 | Entries increase strictly by year, then month, and come from kept years only. |
| AdvancedStats.SeasonalCells | src/analytics/compute-advanced-stats.ts:176-195 | Each entry holds the sums of the runs of its month and year, at least one. |
| AdvancedStats.SeasonalCoversKeptYears | src/analytics/compute-advanced-stats.ts:197-199 | Every run of a kept year has its month's entry. |
| AdvancedStats.YearOverYearData | src/analytics/compute-advanced-stats.ts:65-131 | The year-month loop and the month loop compute YearOverYear. |
| AdvancedStats.TimeOfDayData | src/analytics/compute-advanced-stats.ts:133-168 | The bucket loop computes TimeOfDay. |
| AdvancedStats.SeasonalTrendsData | src/analytics/compute-advanced-stats.ts:170-203 | The seasonal loop, filter and sort compute Seasonal. |
| AdvancedStats.ComputeAdvancedStats | src/analytics/compute-advanced-stats.ts:39-220 | Nothing without a run. Otherwise: the year-over-year table, the time-of-day patterns and the seasonal trends of the runs sorted by start, and the placeholder streaks (zeros, minRunsPerWeek 3). |
| Geocoder.Round | src/geo/geocoder.ts:34 | The nearest integer, with halves rounded up. |
| Geocoder.RoundCoord | src/geo/geocoder.ts:32-35 | Within half a unit of the fourth decimal. |
| Geocoder.CacheKeyIsRounding | src/geo/geocoder.ts:40-42 | Given a one-to-one number text without commas, two coordinates share a key exactly when they round alike. |
| Geocoder.GeoCache.constructor | src/geo/geocoder.ts:24-26 | A cache over the given entries. |
| Geocoder.GeocodeStep | src/geo/geocoder.ts:51-90 | Missing, wrongly sized or out-of-range coordinates give null and leave the cache unchanged. A hit returns the cached location without change. On a miss, a lookup without city or country gives null and no change. A valid lookup adds exactly its key with that location. |
| Geocoder.GeocodeActivity | src/geo/geocoder.ts:51-90 | The method on the cache object computes GeocodeStep. |
| Geocoder.GeocodeKeepsCacheValid | src/geo/geocoder.ts:82-89 | A cache of accepted places stays one, and every location returned is accepted. |
| Geocoder.GeocodeAgain | src/geo/geocoder.ts:67-71 | Geocoding the same activity again gives the same answer and leaves the cache alone. |
| Geocoder.SharedKeySharesLocation | src/geo/geocoder.ts:68-71 | Two starts that round alike share one entry: the second is answered from the cache. |
| Polyline.BoundsOf | src/geo/polyline-decoder.ts:47-57 | Every point lies within the box. Each side is its initial value or some point's coordinate. |
| Polyline.DecodeActivityPolyline | src/geo/polyline-decoder.ts:32-65 | null exactly when the polyline is missing, empty, or decodes to no point. Otherwise the points, their count, the activity id and the bounds. |
| Polyline.Stride | src/geo/polyline-decoder.ts:94 | The loop's indices lie below n-1, starting at `from`, and the next step reaches n-1. |
| Polyline.StrideIncreasing | src/geo/polyline-decoder.ts:94 | The indices increase strictly. |
| Polyline.WalkPicksStride | src/geo/polyline-decoder.ts:94-96 | The loop picks the points at its indices. |
| Polyline.SampleIndices | src/geo/polyline-decoder.ts:86-106 | Strictly increasing indices starting at 0, whose last point equals the last point. |
| Polyline.SampleSpec | src/geo/polyline-decoder.ts:76-107 | [] for []; up to five points unchanged. Otherwise an in-order subsequence starting with the first point and ending with a point equal to the last. The last is appended only if it differs from the last sampled point. |
| Polyline.Step | src/geo/polyline-decoder.ts:92 | The step is at least 1, and equals floor(n/10) from 10 points on. |
| Polyline.AsWrittenNeverAdvances | src/geo/polyline-decoder.ts:92-96 | For 6..9 points the step is 0 and the index stays below n-1 forever. |
| Polyline.SampleRoutePointsAsWritten | src/geo/polyline-decoder.ts:76-107 | As written, for the lengths where its loop ends (n ≤ 5 or n ≥ 10), it computes Sample. |
| Polyline.SampleRoutePoints | src/geo/polyline-decoder.ts:76-107 | With the step at least 1, it computes Sample for every length. |
| Polyline.SampleLoop | src/geo/polyline-decoder.ts:86-106 | The sampling loop and the last-point check compute Sample. |
| GeoStats.GeocodeAll | src/geo/compute-geo-stats.ts:110-112 | One answer per run, geocoded in order on one evolving cache. |
| GeoStats.GeocodeAllKeepsCache | src/geo/compute-geo-stats.ts:110-112 | The cache keeps every entry it had. From accepted places it returns only accepted places. |
| GeoStats.Successes | src/geo/compute-geo-stats.ts:114-118 | The runs that got a place, in order; the others are skipped. |
| GeoStats.SuccessesKeepFound | src/geo/compute-geo-stats.ts:114-118 | Every run that got a place is among them. |
| GeoStats.With | src/geo/compute-geo-stats.ts:122-147 | The located runs with a given key. |
| GeoStats.KeysOf | src/geo/compute-geo-stats.ts:189 | The keys met, each once, in Map order. |
| GeoStats.GroupSizesSum | src/geo/compute-geo-stats.ts:121-147 | Over the keys, group sizes count every located run once. |
| GeoStats.CityNames | src/geo/compute-geo-stats.ts:127-132 | The city names of a country, each once: the Set. |
| GeoStats.CityKeySeparates | src/geo/compute-geo-stats.ts:136 | With comma-free ISO codes, two cities share a key exactly when name and code agree, so same-named cities in different countries stay apart. |
| GeoStats.CountryMapIsGroups | src/geo/compute-geo-stats.ts:121-133 | One entry per ISO code met, holding the count, distance and city names of the runs with that code. |
| GeoStats.CityMapIsGroups | src/geo/compute-geo-stats.ts:135-147 | One entry per city key, holding the count and distance of its runs. |
| GeoStats.CountryOrderIsDomain | src/geo/compute-geo-stats.ts:189 | The insertion order lists the country map's keys. |
| GeoStats.CityOrderIsDomain | src/geo/compute-geo-stats.ts:200 | The insertion order lists the city map's keys. |
| GeoStats.CityGroupsAgree | src/geo/compute-geo-stats.ts:137-143 | Every run of a city group has the group's name and code. |
| GeoStats.Absorb | src/geo/compute-geo-stats.ts:121-147 | A located run is added to its country and to its city. |
| GeoStats.AddToCountry | src/geo/compute-geo-stats.ts:122-133 | The country gains the run, its metres and its city. A new country takes the run's name and goes last in order. |
| GeoStats.AddToCity | src/geo/compute-geo-stats.ts:136-147 | The city gains the run and its metres. A new city takes the run's names and goes last. |
| GeoStats.GeocodeRuns | src/geo/compute-geo-stats.ts:110-148 | The geocoding loop counts every run, counts and sums the successes, and builds the country and city maps of the successes. |
| GeoStats.Km | src/geo/compute-geo-stats.ts:194 | Metres as kilometres to one decimal. |
| GeoStats.SortedNames | src/geo/compute-geo-stats.ts:195 | The names, each once, in sorted order. |
| GeoStats.CountryRows | src/geo/compute-geo-stats.ts:189-196 | One row per map entry, in map order. |
| GeoStats.CityRows | src/geo/compute-geo-stats.ts:200-207 | One row per map entry, in map order. |
| GeoStats.CountriesFromMap | src/geo/compute-geo-stats.ts:189-197 | Every output row is the row of some key. |
| GeoStats.CountriesAreGroups | src/geo/compute-geo-stats.ts:189-197 | Countries come farthest first. Each row is the group of its ISO code: count, km, and distinct city names sorted. |
| GeoStats.CountriesCountAll | src/geo/compute-geo-stats.ts:121-133 | Country counts add up to successCount. |
| GeoStats.CitiesFromMap | src/geo/compute-geo-stats.ts:200-208 | Every output row is the row of some key, and that key is its city key. |
| GeoStats.CitiesAreGroups | src/geo/compute-geo-stats.ts:200-208 | Cities come farthest first. Each row is its key's group, with count and km. |
| GeoStats.CitiesCountAll | src/geo/compute-geo-stats.ts:135-147 | City counts add up to successCount. |
| GeoStats.Coverage | src/geo/compute-geo-stats.ts:226-228 | 0 without activities. Otherwise the rounded percentage, at most 100 when successes ≤ total. |
| GeoStats.NamesAt | src/geo/compute-geo-stats.ts:165-171 | The city names found for the points, each once. |
| GeoStats.RouteCities | src/geo/compute-geo-stats.ts:156-174 | None without a polyline or points. Otherwise the sorted distinct names of the sampled points that are found. |
| GeoStats.RouteCitiesSpec | src/geo/compute-geo-stats.ts:156-174 | A route lists a city exactly when one of its sampled points is found in it. |
| GeoStats.MultiCityCount | src/geo/compute-geo-stats.ts:177-179 | The number of runs listing more than one city. |
| GeoStats.ActivityCitiesSpec | src/geo/compute-geo-stats.ts:173-180 | Only runs with a found city are stored, and their lists are non-empty, distinct and sorted. |
| GeoStats.CityNamesOf | src/geo/compute-geo-stats.ts:165-171 | The citiesSet loop computes NamesAt. |
| GeoStats.DetectRouteCities | src/geo/compute-geo-stats.ts:154-181 | The multi-city loop computes the activity-cities map and the multi-city count. |
| GeoStats.ComputeGeoStats | src/geo/compute-geo-stats.ts:59-237 | Only Runs are used, and nothing is produced without one. Otherwise: the countries and cities of the successes, sorted farthest first, the coverage metadata and the activity-cities map. |
| GeoStats.GeoOutputSpec | src/geo/compute-geo-stats.ts:121-237 | Country counts and city counts both add up to the geocoded runs, which are at most all runs. Coverage is 0 without runs. |
| Paginator.PageCount | src/widgets/geo-table-widget/table-paginator.ts:27-29 | ceil(rows / perPage): (n-1)·perPage < rows ≤ n·perPage. |
| Paginator.RowOnPage | src/widgets/geo-table-widget/table-paginator.ts:34-43 | Row j is on page j/perPage + 1, which exists. |
| Paginator.TablePaginator.constructor | src/widgets/geo-table-widget/table-paginator.ts:19-22 | A new paginator starts on page 1 with the given totals, 20 rows per page by default. |
| Paginator.TablePaginator.TotalPages | src/widgets/geo-table-widget/table-paginator.ts:27-29 | The fewest pages that hold every row. |
| Paginator.TablePaginator.StartIndex | src/widgets/geo-table-widget/table-paginator.ts:34-36 | (currentPage-1)·rowsPerPage. |
| Paginator.TablePaginator.EndIndex | src/widgets/geo-table-widget/table-paginator.ts:41-43 | startIndex + rowsPerPage. |
| Paginator.TablePaginator.Paginate | src/widgets/geo-table-widget/table-paginator.ts:50-52 | The contiguous rows from startIndex: at most a page of them, and none past the end. |
| Paginator.TablePaginator.GoToPage | src/widgets/geo-table-widget/table-paginator.ts:58-62 | currentPage becomes p iff 1 ≤ p ≤ totalPages. Otherwise nothing changes. |
| Paginator.TablePaginator.NextPage | src/widgets/geo-table-widget/table-paginator.ts:67-71 | One page on, except on the last page. |
| Paginator.TablePaginator.PreviousPage | src/widgets/geo-table-widget/table-paginator.ts:73-77 | One page back, except on page 1. |
| Paginator.TablePaginator.UpdateTotal | src/widgets/geo-table-widget/table-paginator.ts:83-89 | The new row count. Back to page 1 exactly when the current page exceeds the new total. currentPage ≥ 1 always holds. |
| Paginator.CurrentPageShowsRows | src/widgets/geo-table-widget/table-paginator.ts:50-52 | The current page of a non-empty table shows at least one row. |
| Paginator.EveryRowOnSomePage | src/widgets/geo-table-widget/table-paginator.ts:50-62 | Every row is on the page its index gives, and that page can be gone to. |
| Sorting.SortBy | src/widgets/geo-table-widget/table-sorter.ts:39-43 | A permutation of the input, ordered by the comparator. |
| Sorting.SortByStable | src/widgets/geo-table-widget/table-sorter.ts:39-43 | The sort is stable: the elements the comparator ties keep their input order. |
| Sorting.InsertTies | src/widgets/geo-table-widget/table-sorter.ts:39-43 | An inserted element comes first among the elements tied with it. |
| Sorting.ReverseSorted | src/widgets/geo-table-widget/table-sorter.ts:45 | Reversing a sorted sequence sorts it by the converse order. |
| Sorting.SumOfSortBy | src/geo/compute-geo-stats.ts:197 | Sorting never changes a sum over the elements. |
| Sorting.PermutationKeepsDistinct | src/analytics/compute-stats.ts:114 | A rearrangement of distinct elements stays distinct. |
| TableSorting.SortByString | src/widgets/geo-table-widget/table-sorter.ts:33-46 | A permutation of the rows, ordered by the collator on the column's text, reversed when descending. |
| TableSorting.SortByNumber | src/widgets/geo-table-widget/table-sorter.ts:55-69 | A permutation of the rows, non-decreasing in the column's number with NaN as 0, reversed when descending. |
| TableSorting.ByTextTotalPreorder | src/widgets/geo-table-widget/table-sorter.ts:39-43 | A total-preorder collator orders rows in a total preorder by column text. |
| TableSorting.ByNumberTotalPreorder | src/widgets/geo-table-widget/table-sorter.ts:61-66 | Comparing column numbers, NaN as 0, is a total preorder. |
| TableSorting.Sort | src/widgets/geo-table-widget/table-sorter.ts:79-88 | A number column sorts by number, anything else by text. |
| TableSorting.DescendingReversesAscending | src/widgets/geo-table-widget/table-sorter.ts:45 | The descending result is exactly the ascending result reversed. |
| TableSorting.SortBySorted | src/widgets/geo-table-widget/table-sorter.ts:39-43 | Sorting rows already in order leaves them unchanged. |
| TableSorting.AscendingSortIdempotent | src/widgets/geo-table-widget/table-sorter.ts:79-88 | Sorting ascending twice is sorting once. |
| AttributeParser.ParseBoolean | src/widgets/shared/attribute-parser.ts:13-19 | true whenever the attribute is present, even as "false". Otherwise the default, which is false unless given. |
| AttributeParser.ParseNumber | src/widgets/shared/attribute-parser.ts:29-54 | The default for null, empty or unparsable input. min when below min, checked first; max when above max; else the number. |
| AttributeParser.ParseNumberInRange | src/widgets/shared/attribute-parser.ts:43-53 | With min ≤ max, a parsed result lies in [min, max]. |
| AttributeParser.ParseJson | src/widgets/shared/attribute-parser.ts:62-71 | The default for null or empty input and on a parse failure. Otherwise the parsed value. |
| AttributeParser.ParseEnum | src/widgets/shared/attribute-parser.ts:102-117 | The value if it is allowed, else the default, so the result is always allowed or the default. |
| Util.ParseIntToString | src/api/strava-client.ts:49 | `parseInt` reads back what `toString` writes for an integer. |
| Util.Trim | src/widgets/shared/attribute-parser.ts:136 | The middle of the text, without white space at either end. |
| Util.TrimIdempotent | src/widgets/shared/attribute-parser.ts:137 | Trimming twice is trimming once. |
| AttributeParser.CssLengthCorrect | src/widgets/shared/attribute-parser.ts:135 | The recogniser accepts exactly the strings `-?\d*\.?\d+` followed by a unit, in any letter case. |
| AttributeParser.NumeralDoesNotStartWithMinus | src/widgets/shared/attribute-parser.ts:135 | The numeral part holds digits and dots only, with the minus sign separate. |
| AttributeParser.ParseCssValue | src/widgets/shared/attribute-parser.ts:125-142 | The default for null or empty input. `<number>px` for a bare number. The trimmed value for a number with a unit. Anything else unchanged. |
| AttributeParser.CssLengthComesBackTrimmed | src/widgets/shared/attribute-parser.ts:134-138 | A number with a unit comes back trimmed, and trimming again changes nothing. |
| RouteData.ElementAt | scripts/compute-route-data.mjs:49 | Destructuring reads an element that exists, or undefined. |
| RouteData.PolylineOf | scripts/compute-route-data.mjs:44 | `activity.map?.summary_polyline` is only found in an object with a `map` field. |
| RouteData.RouteStep | scripts/compute-route-data.mjs:42-65 | A null activity throws. No truthy polyline: skipped. Missing or null start coordinates: skipped, while an empty array gives undefined and is kept. A kept route copies id, name, start_date_local, distance, moving_time, the polyline and the start coordinates. |
| RouteData.Collected | scripts/compute-route-data.mjs:42-66 | The routes pushed, in input order, never more than the activities. |
| RouteData.NewestFirst | scripts/compute-route-data.mjs:69 | A permutation of the routes, newest first. |
| RouteData.ExtractRouteData | scripts/compute-route-data.mjs:39-72 | The loop fails iff Collected does. Otherwise the routes are sorted newest first. |
| RouteData.CollectedFailsIffThrow | scripts/compute-route-data.mjs:42-66 | Extraction fails exactly when some activity throws. |
| RouteData.ThrowStops | scripts/compute-route-data.mjs:42-66 | Once an activity throws, the whole extraction fails. |
| RouteData.CollectedAreKept | scripts/compute-route-data.mjs:42-66 | The routes are exactly those of the kept activities. |
| RouteData.CollectedSnoc | scripts/compute-route-data.mjs:42-66 | One more activity: a throw fails the whole collection, a skip adds nothing, a kept route goes last. |
| RouteData.CollectedSingle | scripts/compute-route-data.mjs:42-66 | One activity gives nothing, no route, or its one route, as it throws, is skipped or is kept. |
| RouteData.CollectedAppend | scripts/compute-route-data.mjs:42-66 | Without a throw, the routes of two runs of activities are those of the first then those of the second, so each keeping activity gives its route once, in input order. |
| RouteData.ExtractedRoutes | scripts/compute-route-data.mjs:39-72 | A permutation of the collected routes, newest first, so exactly the kept routes, and no more than the activities. |
| RouteData.LatestRuns | scripts/compute-route-data.mjs:87 | The first min(n, 20) routes. |
| RouteData.Readable | scripts/compute-route-data.mjs:22-37 | The `.json` names that read and parse, in listing order. |
| RouteData.ReadActivities | scripts/compute-route-data.mjs:22-37 | The read loop computes Readable. |
| RouteData.ReadableSpec | scripts/compute-route-data.mjs:22-37 | Every activity came from a parsed `.json` file, and every parsed file is there. |
| RouteData.FormatBytes | scripts/compute-route-data.mjs:74-78 | "B" below 1024, "KB" below 1024², "MB" from there on. |
| RouteData.FormatBytesAmount | scripts/compute-route-data.mjs:76-77 | The KB amount is in [1, 1024) and the MB amount at least 1. |
| HeatmapData.HeatStep | scripts/compute-heatmap-data.mjs:36-60 | A null route throws. No truthy polyline: skipped. A failed decode: skipped. Otherwise emitted with its id, date and decoded points. |
| HeatmapData.HeatmapOf | scripts/compute-heatmap-data.mjs:30-64 | processed + skipped = routes; processed = entries; totalPoints = sum of point counts. |
| HeatmapData.DecodeRoutesToHeatmapData | scripts/compute-heatmap-data.mjs:30-64 | The counting loop computes HeatmapOf. |
| HeatmapData.NullStops | scripts/compute-heatmap-data.mjs:38 | A null route ends the loop with a throw. |
| HeatmapData.HeatmapFailsIffNull | scripts/compute-heatmap-data.mjs:36-61 | The loop fails exactly when some route is null. |
| HeatmapData.HeatmapAppend | scripts/compute-heatmap-data.mjs:49-56 | Entries keep input order: a split list gives the first part's entries, then the second's, and the counters add up. |
| HeatmapData.HeatmapSingle | scripts/compute-heatmap-data.mjs:36-60 | A route alone is either one entry with its point count or one skip. |
| CsvExport.ParseQuoted | geo-stats-widget/csv-exporter.js:22 | The RFC 4180 reader of a quoted field consumes input. |
| CsvExport.ParseRecord | geo-stats-widget/csv-exporter.js:20-23 | A record reader that stops at a newline or at the end of the text, having consumed input. |
| CsvExport.Double | geo-stats-widget/csv-exporter.js:22 | A field without quotes is left unchanged. |
| CsvExport.QuotedRoundTrip | geo-stats-widget/csv-exporter.js:22 | A field with its quotes doubled reads back as itself. |
| CsvExport.RecordRoundTrip | geo-stats-widget/csv-exporter.js:22 | An escaped line reads back as its fields. |
| CsvExport.DocumentRoundTrip | geo-stats-widget/csv-exporter.js:20-25 | Escaped lines joined with "\n" read back as the records. |
| CsvExport.DocumentQuoteFree | geo-stats-widget/csv-exporter.js:22 | Without quotes in the fields, the exporter's quoting is RFC 4180 quoting. |
| CsvExport.QuoteBreaksReading | geo-stats-widget/csv-exporter.js:22 | A field `a"`, quoted as written, does not read back. |
| CsvExport.CountryTable | geo-stats-widget/csv-exporter.js:10-18 | The header, then one row per country: rank i+1, name, ISO, distance, runs, city count, six fields each. |
| CsvExport.CityTable | geo-stats-widget/csv-exporter.js:48-56 | The header, then one row per city: rank i+1, city, country, ISO, distance, runs, six fields each. |
| CsvExport.DocumentEndsInQuote | geo-stats-widget/csv-exporter.js:20-25 | The text starts and ends with a quote, with no trailing newline. |
| CsvExport.CountriesCsv | geo-stats-widget/csv-exporter.js:8-25 | U+FEFF first, then a quote, and a quote at the end. |
| CsvExport.CitiesCsv | geo-stats-widget/csv-exporter.js:46-63 | U+FEFF first, then a quote, and a quote at the end. |
| CsvExport.CountriesCsvReadsBack | geo-stats-widget/csv-exporter.js:8-25 | Without quotes in the fields, the content after the BOM reads back as the header plus one six-field record per country. |
| CsvExport.CitiesCsvReadsBack | geo-stats-widget/csv-exporter.js:46-63 | Without quotes in the fields, the content after the BOM reads back as the header plus one record per city. |
| CsvExport.CountriesCsvEscaped | geo-stats-widget/csv-exporter.js:8-25 | With quotes doubled, the content reads back whatever the names hold. |
| CsvExport.CitiesCsvEscaped | geo-stats-widget/csv-exporter.js:46-63 | With quotes doubled, the content reads back whatever the names hold. |

## Left out

- File and network I/O. Reading directories, `fs` calls, `fetch` and the Strava endpoints become parameters or abstract values:
  - the file system is a map;
  - the API is a sequence of pages;
  - HTTP replies are functions;
  - `JSON.stringify`/`JSON.parse` are a codec of two functions. A read-back fact asks only that the codec parse the text stringified from the one value written back to that value; what is on disk is stated without it.
- Request scheduling through Bottleneck and the internals of p-retry. Only the classification and the bound of three retries are modelled.
- `getAuthorizationUrl`, which is URL encoding only.
- Console logging and warnings throughout.
- Floating point. Distances, paces and percentages are `real`. `Math.round`, `toFixed`, `Number.prototype.toString`, `parseFloat`, `Intl.Collator` and the Google polyline codec are exact or are parameters.
- Instants are integer milliseconds. An unparsable date (NaN) is not modelled, and the route sort takes its dates through a total `instant` parameter.
- Stats.ComputeAllStats: period keys are the period-start instants, not their ISO text. `localeCompare` on fixed-width ISO strings is the same order, but that equivalence is not proved.
- The statistics scripts' output file writing, `mkdir`, and the `generatedAt`/`last_sync_date` clock values, which are parameters.
- GeoStats.RouteCities: samples a route with the corrected `Polyline.SampleRoutePoints` (a step of at least 1; see "## Findings"). The source's `sampleRoutePoints` never returns for a route of 6 to 9 points, and that hang is not modelled here.
- GeoStats.DetectRouteCities: calls `RouteCities`, so it uses the same corrected sampling step; a 6-to-9-point route makes the source's loop hang.
- GeoStats.ComputeGeoStats: the multi-city pass uses the same corrected sampling step, so the model returns where the source hangs on a Run with a 6-to-9-point route.
- GeoStats.ComputeGeoStats: `geocodeCoordinate` is not defined in the visible source. It is the parameter `locate`, with its cache effect not modelled. `cacheSize` (which reads `cache.entries`) and `saveCache`/`loadCache` are not modelled.
- Sync.ActivitySync.SyncNewActivities: writes of activity and state files are assumed to succeed. Only fetch failures and an unreadable state file are modelled as failures.
- Paginator.TablePaginator.constructor: requires rowsPerPage > 0. The source accepts 0 and then computes Infinity or NaN pages.
- SyncStates.LoadFrom: a state file that parses but lacks the state's fields gives `Malformed`. The source's `readJson` casts the parsed value unchecked (src/storage/file-store.ts:48-53), and `load` returns it as is (src/storage/sync-state.ts:31). Fields that are undefined are not modelled, since the model's state has a value in every field.
- SyncStates.SyncStateManager.Load: inherits that difference from LoadFrom. A file such as `{}` is an error here, not a state with undefined fields.
- Sync.ActivitySync.SyncNewActivities: a state file of the wrong shape ends the sync before any fetch. The source instead fetches from page 1 with `after` undefined, writes that page's Runs, and then throws a RangeError on `new Date(NaN).toISOString()` when saving, or returns zero counts when page 1 is empty. That path is not modelled.
- OAuth.TokensFrom: a tokens file that parses but lacks the token fields gives `TokensMalformed`. The source casts it unchecked (src/auth/strava-oauth.ts:145) and fails only later, when the API rejects `Bearer undefined`.
- OAuth.StravaOAuth.LoadTokens: inherits that difference from TokensFrom.
- Storage.Resolve: `path.resolve` normalisation is not modelled. That covers `.` and `..` segments, repeated and trailing slashes, and a relative base resolved against the working directory. The model joins the base directory and a relative path with one slash. That is what `path.resolve` gives for an absolute, normalised base and a normalised relative path such as `activities/<id>.json`, the only paths the sync writes.
- Storage.ResolveKeepsPath: holds for the model's Resolve. With `path.resolve` it holds only for normalised paths: `./a.json` resolves to a name that does not end in `./a.json`.
- GeoStats.SortedNames: orders names by Unicode code point. `Array.prototype.sort()` compares UTF-16 code units. The two orders differ only when a name holds a character above U+FFFF.
- Sorting.LexLe: the same code-point order, with the same difference from UTF-16 code-unit order above U+FFFF.
- TableSorting.SortByString: requires the collator's compare to be a total preorder, which `Intl.Collator` provides.
- RouteData.NewestFirst: the sort is specified by its permutation and order; `SortBy` is stable (Sorting.SortByStable), as `Array.prototype.sort` is, so routes with equal valid dates keep their input order in both. Only NaN dates, listed above, may order differently.
- The sort-state toggle of the geo table widget and all DOM, Shadow DOM, Leaflet and Chart.js rendering.
- `parseColor`, which relies on the browser's CSS parser.
- The Blob download of the CSV exporter, and its file-name date.
- `writeRouteFiles`, `writeHeatmapData` and the scripts' `main` functions, apart from the prefix selection of latest runs.

## Findings

| source | as written | input that shows it | evidently intended | confidence | as-written member | corrected member |
|---|---|---|---|---|---|---|
| src/analytics/streak-utils.ts:23-33 | calculateDailyStreaks returns zeros and nulls for every input | one activity today | current 1, longest 1, within true, as src/analytics/streak-utils.test.ts:17-26 asserts | not executed | Streaks.CalculateDailyStreaksAsWritten | Streaks.CalculateDailyStreaks |
| src/analytics/streak-utils.ts:35-46 | calculateWeeklyConsistency returns zeros for every input | three runs on 2024-01-01, 03 and 05, threshold 3 | one consistent week (1, 1, 1, 1), as src/analytics/streak-utils.test.ts:141-151 asserts | not executed | Streaks.CalculateWeeklyConsistencyAsWritten | Streaks.CalculateWeeklyConsistency |
| src/geo/polyline-decoder.ts:92-96 | step = floor(n/10) is 0 for 6 to 9 points, so the loop never advances | a route of 7 points | a step of at least 1, so that every route is sampled | not executed | Polyline.AsWrittenNeverAdvances | Polyline.SampleRoutePoints |
| geo-stats-widget/csv-exporter.js:22 | fields are wrapped in quotes without doubling embedded quotes | a country named `a"` | quotes doubled inside quoted fields (section 2, rule 7 of RFC 4180) | not executed | CsvExport.QuoteBreaksReading | CsvExport.CountriesCsvEscaped |
