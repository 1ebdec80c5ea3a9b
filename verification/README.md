# Verified model of the smotryashchiy monitoring server and agent

smotryashchiy is a monitoring server with an agent on each host. This project models the parts
of it whose correctness depends on several operations at once and proves what they promise:

- **Analytics.** Pageviews are cut into visits as they arrive; days are rolled up into aggregates;
  old raw rows are purged; a query adds the aggregate part of its range to the raw part. The model
  keeps the history of every pageview ever recorded beside the tables, and a report is compared
  with one scan over that history.
- **Delivery.** The agent's bounded spool feeds a retrying sender, which faces an idempotent,
  atomic store. Crashes, lost answers, failed removals, evictions, damaged files, other hosts and
  the purge of idempotency rows interleave.
- **Rollup and retention of metrics**, with ingest between any two statements, runs that fail
  half way and a clock that may step back.
- **Operator commands**: the server's table statement by statement, composed with the agents'
  poll, execute and report loop.
- **The live-stream hub**, **the cached site list**, **the Docker log demultiplexer** and
  **enrollment with its address allocator**.

Code that changes fields in place is modelled by classes (`AnalyticsStore.Store`, `Spool.Spool`,
`Sender.Sender`, `Ingest.Server`, `Maintenance.Store`, `Commands.Store`, `Hub.Hub`,
`Enrollment.Store`); each method's contract equates the new state with a function of the old one.
SQL statements are functions on maps and sequences. What the source promises over whole runs is
proved of state machines built from those functions. Where a machine has steps that may be
disabled, a disabled step does nothing, so *every* sequence of steps is a run.

Some promises of the source turn out to hold only under a condition. Each has a concrete run that
breaks it and a lemma that says exactly when it holds:

- A day of a report is read from the raw rows exactly when the retention has not reached its start
  (such a day is called whole; a day is called fresh when its aggregate has seen all of it), else
  from its aggregate (`Reports.DaysAreReadFrom`, `Reports.ReportedByDay`). A report equals the scan
  of the history exactly when each of its days is of the first kind, or every pageview of it was
  followed by the day's last refresh, which found every row of the day still stored and has not
  expired (`Reports.ReportExactIff` on a state, `AggregateRuns.RunReportExactIff` on a run).
  It is enough that the job ran on the day after each day no longer whole, or first while its raw rows
  were whole, and that the refreshes it decided on were carried out before the retention reached the
  day (`AggregateRuns.JobsMakeReportsExact`). Two runs break it. A day aggregated while open and then
  missed by the job for the whole next day stays short for ever (`Rollup.MissedDayIsReportedShort`),
  because the job skips days that already have an aggregate. And the job decides which days are
  whole once, while the purge runs beside it: a refresh carried out after midnight and a purge have
  passed stores what is left (`AggregateRuns.LateRefreshIsShort`), with two days of retention even
  over an aggregate that was right (`AggregateRuns.RightDayIsOverwritten`). Which days a run of the
  job makes right is `Rollup.RollupSealsExactly`.
- The comment at internal/telemetry/application/maintenance.go:72-74 says that raw rows are only
  deleted once their hour is rolled up. That holds of a sample exactly when it is stored before its
  hour has left the 24-hour re-aggregation window, and before a catch-up run has passed its hour for good
  (`Retention.DeletedOnlyWhenCounted`, `Retention.LateSampleIsDeletedUnrolled`).
- A command's recorded start is within ten minutes of its creation exactly when storing it takes at
  most that long after its creation time is read (`Operator.InTimeIff`). The start recorded is the
  clock the claim read when it began. The moment the command is handed out is within a limit exactly
  when the wait and the longest stall of a claim together are (`Operator.HandedWithinIff`), so within
  ten minutes exactly when, besides, claims do not stall (`Operator.TenMinutesIff`).
  `Operator.SlowestClaim` is a run that reaches both bounds.
- Spool file numbers rise exactly while the last one is not the largest 64-bit number
  (`SpoolQueue.SeqRisesIff`); after it the newest file would be named first
  (`SpoolQueue.WrappedNameSortsFirst`).

Definitions that both sides of a theorem share are pinned by what they mean: the five numbers of a
breakdown by sets of stored visits and rows (`Counting.TallyMeans`) and by the beacons behind them
(`Audience.VisitorsAreSenders`, `Audience.PagesAreBeacons`), a record's identity by the columns of
its table's key (`Ingest.IdentityIsKey`), the days the job rebuilds (`AggregateRuns.JobDecides`), the
units of a time series (`Timeline.SpansAreUnits`), what a metric measures (`Ranking.ScoreMeans`).

Two promises hold more widely than stated: stored documents are the newest applied ones even after
idempotency rows are purged (`Delivery.DocumentIsNewest`), and a call to `Sites` reflects every
writer that returned before the call started even while other writers are at work
(`SiteCache.SitesReflectsWrites`).

Modelling choices: time is integer milliseconds; a site's calendar is an arbitrary strictly
increasing function from days to their first instant; the visitor hash is the tuple of what is
hashed; measured values are reals. Clocks, randomness, the network and failures are parameters.

## Model

| member | source | states |
|---|---|---|
| Visits.FindLatest | internal/analytics/infrastructure/store.go:128-130 | the visit a pageview continues is one of the visitor's with a pageview less than 30 minutes old, and the latest such; none is found only when there is none |
| Visits.RecordCases | internal/analytics/infrastructure/store.go:120-167 | a pageview either continues exactly one visit, leaving every other row alone, or opens one when none matches; its row points to that visit |
| Visits.ReplaySound | internal/analytics/application/service.go:247-256 | after any time-ordered history each visit's pageviews lie in one site day under one visitor, visits of a visitor are at least 30 minutes apart, and every pageview row belongs to a stored visit that spans it |
| Visits.RunsAreCuts | internal/analytics/domain/domain.go:181 | offline splitting keeps every pageview in order and cuts exactly at gaps of 30 minutes or more |
| Visits.OnlineIsOffline | internal/analytics/infrastructure/store.go:120-167 | online sessionisation refines offline splitting: start, last, entry, exit and count of a visitor's visits are those of the runs of its pageviews |
| Tallies.TallySplits | internal/analytics/infrastructure/query.go:97-118 | every count, distinct visitors and per-visit page groups included (`Counting.TallyMeans` says what they are), is additive over a split of the range at a day boundary, for every dimension and filter |
| Tallies.TallyKept | internal/analytics/infrastructure/store.go:197-213 | purging rows older than the range read changes no count |
| Tallies.DayUndisturbed | internal/analytics/infrastructure/store.go:120-167 | a pageview of another day or site changes no count of a day, under any filters |
| Tallies.TotalCountsPageviews | internal/analytics/infrastructure/query.go:108-117 | the total's pageviews are exactly the recorded pageviews of that site and day |
| Losses.TallyIntact | internal/analytics/infrastructure/query.go:97-118 | while every row of a day and its visit are stored, every breakdown of the day is that of the full tables |
| Losses.PageCount | internal/analytics/infrastructure/query.go:98-107 | a page's count on a day is the number of its rows that are stored with their visits |
| Losses.FewerRows | internal/analytics/infrastructure/query.go:98-107 | lost or later rows never raise that number, and one of the path lowers it |
| Counting.MatchMeans | internal/analytics/infrastructure/query.go:47-70 | "is" accepts one of the values, "is not" none of them, "contains" a text in which one occurs but for ASCII case |
| Counting.IsOrIsNot | internal/analytics/infrastructure/query.go:57-66 | an "is" filter and its "is not" partition the texts |
| Counting.LowerMeans | internal/analytics/infrastructure/query.go:50-56 | only ASCII letters are compared without case |
| Counting.ViewedMeans | internal/analytics/infrastructure/query.go:34-38 | in a breakdown of visits a page filter is met by some row of the visit with an accepted path |
| Counting.MemberIsChosen | internal/analytics/infrastructure/query.go:97-118 | the page breakdown counts visits with a row of that path in the range that passes the filters; any other, visits started in the range with that value that pass them |
| Counting.TallyMeans | internal/analytics/infrastructure/query.go:97-118 | for every dimension, value and filter: visits is the number of chosen visits, visitors the number of their distinct hashes, bounces how many of them have one pageview, duration the sum of their lengths, pageviews the number of chosen rows or the sum of their counts |
| Aggregates.RecordKept | internal/analytics/infrastructure/store.go:120-167 | recording commutes with purging: an online insert into purged tables gives the purge of the insert into the full ones |
| Aggregates.RawRowsExact | internal/analytics/infrastructure/query.go:77-80 | grouped rows give each value its own count, in the sense of `Counting.TallyMeans`, and leave out exactly the values that count nothing |
| Aggregates.DayRowsExact | internal/analytics/infrastructure/query.go:182-220 | the rows a refresh stores are, for every dimension and value, the day's counts |
| Aggregates.WholeDayExact | internal/analytics/infrastructure/query.go:97-118 | counts over a range the retention has not reached are those over the whole history |
| Aggregates.WholeIsIntact | internal/analytics/application/query.go:59-65 | of a day the retention has not reached every row and visit is stored |
| Aggregates.ClosedVisitStays | internal/analytics/infrastructure/store.go:120-213 | a stored visit of a closed day is left alone by every step, or purged by one that found it expired |
| Aggregates.StepKeeps | internal/analytics/application/service.go:273-284 | collecting, purging, refreshing at any time, expiring aggregates and the clock all keep: raw rows are the history less what retention took, and each aggregate is the breakdown of what its last refresh had before it |
| Aggregates.Reachable | internal/analytics/application/rollup.go:18-32 | the invariant holds after every legal run |
| Reports.BoundaryIsWhole | internal/analytics/application/query.go:60-65 | a day is at or after the raw boundary exactly when no purge can have touched its rows |
| Reports.ScanSplits | internal/analytics/application/query.go:243-252 | a scan of the history splits at any day of the range |
| Reports.FreshDayExact | internal/analytics/infrastructure/query.go:182-220 | a day's aggregate equals the scan of the history when no pageview of the day came after its refresh and that found every row of the day stored |
| Reports.DaysAddUp | internal/analytics/infrastructure/query.go:121-125 | summed aggregates of such days equal one scan over all of them |
| Reports.TotalsAddUp | internal/analytics/infrastructure/query.go:128-132 | aggregated totals never exceed the recorded pageviews; they reach them when every day is fresh, and only when no pageview came after a refresh of its day |
| Reports.PagesAddUp | internal/analytics/infrastructure/query.go:121-125 | page by page aggregates never exceed the recorded pageviews, and fall short for a path some day is missing |
| Reports.StaleIsMissing | internal/analytics/infrastructure/query.go:182-220 | a day that is not fresh misses a pageview of some path |
| Reports.MissingShows | internal/analytics/application/query.go:260-301 | a report with such a day, once the retention has reached it, counts that path too low |
| Reports.RawPartExact | internal/analytics/application/query.go:275-293 | the raw part of a report equals the scan of the history, with any filters |
| Reports.DaysAreReadFrom | internal/analytics/application/query.go:243-252 | a day of the range is read from raw rows exactly when the retention has not reached its start, and from aggregates exactly when it has |
| Reports.ReadsAggregatesIff | internal/analytics/application/query.go:243-252 | aggregates are read exactly when some day is not whole |
| Reports.ReportedByDay | internal/analytics/application/query.go:243-301 | a report is the sum over its days of the raw count of the day while it is whole, else its aggregate |
| Reports.WholeReportExact | internal/analytics/application/query.go:243-301 | a report whose days are all whole equals the scan of the history under any filters, whatever the job did |
| Reports.ReportExact | internal/analytics/application/query.go:260-301 | where each day is whole, or unfiltered and fresh, aggregate part plus raw part equals one scan over the never-purged history |
| Reports.ReportExactIff | internal/analytics/application/query.go:243-301 | an unfiltered report is right for every dimension and value exactly when each of its days is whole or fresh |
| Reports.ReportedSplits | internal/analytics/application/query.go:243-301 | a report is the sum of the reports of its two parts at any day, for every dimension, value and filter, fresh aggregates or stale |
| Rollup.RollDaysSeen | internal/analytics/application/rollup.go:49-57 | exactly the days of the range that are not skipped are rebuilt from the tables as they stand; every other day stays |
| Rollup.BusyDayIsLookedAt | internal/analytics/application/rollup.go:34-44 | a day with pageviews whose raw rows are whole lies in the range the job looks at |
| Rollup.RollupSealsExactly | internal/analytics/application/rollup.go:34-59 | after a run a closed day is right exactly when it was right, is yesterday, or had no aggregate |
| Rollup.SealedForever | internal/analytics/application/rollup.go:18-59 | a closed day that is right stays right in every run in which its aggregate does not expire and every refresh of it finds it intact |
| Rollup.MissedDayIsReportedShort | internal/analytics/application/rollup.go:50-52 | a concrete run in which a skipped day is reported with too few pageviews |
| AggregateRuns.RollupIsLegal | internal/analytics/application/rollup.go:34-59 | a run of the job is a legal series of day refreshes |
| AggregateRuns.JobDecides | internal/analytics/application/rollup.go:34-57 | a run of the job refreshes exactly the days up to today, from that of the earliest stored visit of the site on, that are whole and have no aggregate or are today or yesterday |
| AggregateRuns.FreshIff | internal/analytics/application/rollup.go:18-59 | after any run a day is right exactly when every pageview of it was followed by the day's last refresh, which found every row of the day stored and has not expired |
| AggregateRuns.RunReportExactIff | internal/analytics/application/query.go:243-301 | after any run an unfiltered report is right for every dimension and value exactly when each of its days is whole or that holds of it |
| AggregateRuns.JobSeals | internal/analytics/application/rollup.go:45-58 | a job that starts on the day after a day, or later while the day has no aggregate and its raw rows are whole, leaves the day right for good, whatever is interleaved with it, when the day is refreshed only before the retention reaches it |
| AggregateRuns.JobInOneGo | internal/analytics/application/rollup.go:49-57 | a job carried out without interruption is such a job |
| AggregateRuns.JobsMakeReportsExact | internal/analytics/application/rollup.go:14-32 | in any run, if such a job ran for each day of a report that is no longer whole, the report equals the scan of the full history |
| AggregateRuns.ReadsAgree | internal/analytics/infrastructure/query.go:187-197 | of a closed day the retention has not reached, every breakdown reads the same whenever it is read, so the order and time of the reads of a refresh do not matter |
| AggregateRuns.LateRefreshIsShort | internal/analytics/application/rollup.go:41-57 | for every retention of two days or more, a run in which a refresh decided in time and carried out after a purge makes the report short |
| AggregateRuns.RightDayIsOverwritten | internal/analytics/application/rollup.go:49-57 | with two days of retention, a run in which such a refresh replaces a right aggregate |
| Audience.ColumnsAreOfItsRun | internal/analytics/infrastructure/store.go:120-167 | a visit starts, ends and counts as a run of its visitor's pageviews; its entry and other columns are those of the first, its exit that of the last |
| Audience.PagesAreBeacons | internal/analytics/application/service.go:169-232 | in every run, a page's pageviews on a day are the beacons sent for it on that day |
| Audience.VisitorsAreSenders | internal/analytics/application/service.go:243-256 | in every run, the visitors of a day are the distinct pairs of address and user agent that sent a beacon on it |
| AnalyticsStore.Store.RecordPageview | internal/analytics/infrastructure/store.go:120-167 | the tables change in place exactly as the collect step says, invariant kept |
| AnalyticsStore.Store.PurgePageviews | internal/analytics/infrastructure/store.go:197-213 | deletes only rows older than the cutoff: of visits and of pageviews as many as there are up to the limit, and the pageviews of deleted visits; counts the first two, and zero means none is left |
| AnalyticsStore.Store.Purge | internal/analytics/application/service.go:273-284 | the loop ends, and leaves exactly the visits and pageviews the retention keeps; none goes when retention is off |
| AnalyticsStore.PurgeCall | internal/analytics/infrastructure/store.go:197-213 | one bounded purge deletes as many old rows of each table as there are up to the limit, cascade included only purgeable ones, and makes progress unless nothing is left |
| AnalyticsStore.DimRowsAreDayRows | internal/analytics/infrastructure/query.go:182-220 | inserting dimension by dimension, with the zero total of an empty day, gives the day's whole set of rows |
| AnalyticsStore.RowsOfDay | internal/analytics/infrastructure/query.go:187-197 | the loop over dimensions computes that set |
| AnalyticsStore.Store.RefreshDay | internal/analytics/infrastructure/query.go:182-220 | replaces the day's aggregates by those of the rows as they stand, whatever was purged, invariant kept |
| AnalyticsStore.Store.RollupOne | internal/analytics/application/rollup.go:34-59 | with time passing, pageviews arriving and purges running between its refreshes, takes legal steps and carries out exactly the refreshes it decided on at the start; without pauses it is the model of the job |
| AnalyticsStore.Store.Meanwhile | internal/analytics/application/service.go:273-302 | what the rest of the server does in a pause of the job is a series of legal steps |
| AnalyticsStore.Store.RollupAll | internal/analytics/application/rollup.go:18-32 | every site in turn, then exactly the aggregates of days before the first to keep go |
| Ranking.SortSorts | internal/analytics/application/query.go:189-195 | the sorted rows are the same rows, ordered by metric descending and then value |
| Ranking.SortAndCut | internal/analytics/application/query.go:189-198 | sorting and cutting any superset of the top rows gives the top rows |
| Ranking.TopUnique | internal/analytics/application/query.go:189-198 | the first rows in order are determined by the counts |
| Ranking.LargestFirst | internal/analytics/application/query.go:189-195 | report order puts the larger metric first, and orders equal ones by value |
| Ranking.ScoreMeans | internal/analytics/domain/query.go:220-262 | each metric is its own count, the nearest hundredth or tenth of a percent of its own quotient with halves up, or the whole seconds of it; zero over no visits |
| Ranking.LargerQuotientScores | internal/analytics/domain/query.go:220-262 | rounding keeps the order of quotients |
| Queries.DailyRowsExact | internal/analytics/infrastructure/query.go:121-125 | the grouped daily rows give each value its sum over the days |
| Queries.AddAllAdds | internal/analytics/application/query.go:265-272 | adding rows to the pile adds each value's counts once and touches no other |
| Queries.AddRows | internal/analytics/application/query.go:265-272 | the loop that fills the map and the order slice computes the pile, each value listed once |
| Queries.WholePile | internal/analytics/application/query.go:260-301 | aggregate rows and raw rows piled up give every counted value exactly once with its reported counts |
| Queries.RawOnlyComplete | internal/analytics/infrastructure/query.go:77-80 | a raw-only read lists every counted value |
| Queries.CutThroughPile | internal/analytics/infrastructure/query.go:82-95 | cutting in the database by a count metric keeps the top rows through the summing |
| Queries.CutIsInvisible | internal/analytics/infrastructure/query.go:82-95 | cut in the database or read in full, the report sorts and cuts to the same rows |
| Queries.RawSourceReadsRaw | internal/analytics/application/query.go:215-221 | the source is raw exactly when neither range reads aggregates |
| Queries.SourceIsWhole | internal/analytics/application/query.go:215-221 | the source is raw exactly when every day of the range and of its comparison is whole |
| Queries.PreviousAdjoins | internal/analytics/application/query.go:108-117 | the previous range ends the day before and has as many days, so reports of the two add up to that of twice the range |
| Queries.Breakdown | internal/analytics/application/query.go:260-301 | returns every counted value with its reported counts, or the top of them when cut |
| Queries.RowsAreFit | internal/analytics/application/query.go:183-198 | whatever was reported, the final rows are its first rows in order, and one zero row for a total of nothing |
| Queries.RowsAreRight | internal/analytics/application/query.go:183-198 | where each day is whole or fresh those rows are the first rows of the breakdown of the full history |
| Queries.RightRowsUnique | internal/analytics/application/query.go:183-198 | the right rows of a query are determined |
| Queries.CompareIsRight | internal/analytics/application/query.go:171-182 | the compared counts of a value are those of the full history over the compared range |
| Queries.RunQuery | internal/analytics/application/query.go:142-211 | refuses exactly a filtered query some day of which, or of its comparison, is not whole; says raw exactly when all are; its rows are the first values in order with their reported counts and those of the compared range, and where days are whole or fresh these are those of the full history |
| Timeline.SpansTile | internal/analytics/application/query.go:322-336 | day, week and month spans tile the range: contiguous, disjoint, clipped at both ends, none empty |
| Timeline.SpansAreUnits | internal/analytics/application/query.go:322-336 | each bucket is one unit: after the first each starts on a day, a Monday or a first of the month, and no other unit starts inside one |
| Timeline.SpanLengths | internal/analytics/application/query.go:322-336 | day buckets hold a day; week buckets after the first start on a Monday and hold seven days unless the range ends |
| Timeline.Buckets | internal/analytics/application/query.go:313-337 | the loop lays out those spans and ends |
| Timeline.BucketAt | internal/analytics/application/query.go:342-348 | the search returns the one bucket that holds the instant, or -1 exactly when none does |
| Timeline.AddDays | internal/analytics/application/query.go:350-363 | each bucket receives the totals of exactly its aggregated days |
| Timeline.AddVisits | internal/analytics/application/query.go:370-392 | each bucket receives the counts of exactly the visits started in it, distinct visitors once per bucket |
| Timeline.SpanReported | internal/analytics/application/query.go:349-393 | a bucket's two shares are the two parts of a report of its own days |
| Timeline.DaySeries | internal/analytics/application/query.go:339-399 | each bucket of a day, week or month series is the report of its span; it is refused exactly when more visits than the limit started on whole days of the range and pass the filters |
| Timeline.SeriesAddsUp | internal/analytics/application/query.go:339-399 | the buckets sum to the reported total of the range in every field, across the aggregate boundary, fresh aggregates or stale, filtered or not; where each day is whole, or unfiltered and fresh, every bucket and the sum are those of the full history |
| Timeline.HourBuckets | internal/analytics/application/query.go:316-321 | hour buckets are contiguous and cover the day |
| Timeline.HourSeries | internal/analytics/application/query.go:150-157 | hour series are refused exactly when more than a day, or a day that is not whole, is asked for or compared; too many exactly above the limit; each hour is the scan of the history |
| Timeline.TallyCut | internal/analytics/application/query.go:370-392 | cutting a range anywhere keeps every count additive except visitors, which can only grow |
| Timeline.HourSeriesCovers | internal/analytics/application/query.go:316-321 | over a day of hours every field sums to the total, and visitors to at least it |
| SpoolNames.LexicalIsNumeric | internal/agent/spool/spool.go:112 | digit strings of one length are ordered as the numbers they spell |
| SpoolNames.NamesInOrder | internal/agent/spool/spool.go:95-112 | for all 64-bit numbers, file names are ordered, and equal, exactly as the numbers |
| SpoolNames.NameParses | internal/agent/spool/spool.go:90-92 | a file name parses back to its number |
| SpoolQueue.SeqRisesIff | internal/agent/spool/spool.go:108-111 | the next number is larger than the last, and does not wrap, exactly while the last is not the largest |
| SpoolQueue.WrappedNameSortsFirst | internal/agent/spool/spool.go:108-114 | after the largest number the next file is named 0, before every other |
| SpoolQueue.NextSeqIsLeast | internal/agent/spool/spool.go:108-111 | the next number is the least that is new and not behind the clock |
| SpoolQueue.TrimDropsShortestPrefix | internal/agent/spool/spool.go:119-128 | eviction drops the shortest prefix after which one batch is left or count and bytes are within the bounds, never the newest batch; the rest keep their files |
| SpoolQueue.PeekDropsUnreadable | internal/agent/spool/spool.go:134-158 | peeking drops exactly the unreadable files before the first readable one, as far as they can be removed |
| SpoolQueue.SameFilesSameOrder | internal/agent/spool/spool.go:95 | the files determine the order of the queue |
| SpoolQueue.ReopenRestores | internal/agent/spool/spool.go:63-97 | reopening restores the queue in add order |
| Spool.Spool.constructor | internal/agent/spool/spool.go:63-97 | loads exactly the complete files, in order, with the exact byte total and last number; files the spool does not read stay |
| Spool.Spool.Add | internal/agent/spool/spool.go:100-130 | appends under a new name and evicts; the byte total stays exact; on success one batch remains or both bounds hold; a failed write changes nothing |
| Spool.Spool.Evict | internal/agent/spool/spool.go:119-129 | evicts as the queue model says, counts what it dropped, and succeeds exactly when nothing is over the bounds |
| Spool.Spool.Peek | internal/agent/spool/spool.go:134-158 | returns the oldest readable batch, having discarded and counted exactly the unreadable ones before it |
| Spool.Spool.RemoveEntry | internal/agent/spool/spool.go:161-176 | removes that entry alone, and nothing when it is gone or the removal fails |
| Ingest.InsertAddsNew | internal/telemetry/infrastructure/store.go:119-153 | inserting grows a table by exactly the records reported as new and overwrites nothing |
| Ingest.IdentityIsKey | internal/platform/db/migrations/0002_telemetry.sql:10-39 | two records are one row exactly when host and every key column agree: name, labels and time of metrics; name and time of checks; time, level, message and labels of events |
| Ingest.OnePerKey | internal/platform/db/migrations/0002_telemetry.sql:10-39 | a host has one record for each key |
| Ingest.LastDocumentStays | internal/telemetry/infrastructure/store.go:155-164 | the last document of each kind in a batch replaces the host's, received now; no other changes |
| Ingest.StoreAccounts | internal/telemetry/infrastructure/store.go:78-172 | accepted plus duplicates is the batch; the tables grow by exactly the accepted records; anything but success changes nothing |
| Ingest.AppliedByKey | internal/telemetry/infrastructure/store.go:78-172 | by columns: an applied batch accepts, in order, exactly the first record of each key the host has none of, and the host then has these and what it had; so every record is stored unless one with its key came first |
| Ingest.AppliedTouches | internal/telemetry/infrastructure/store.go:92-172 | an applied batch marks its own host seen now and claims its own key, and changes documents as above and nothing else |
| Ingest.StoreHasKeys | internal/telemetry/infrastructure/store.go:78-172 | no call loses a record, and afterwards the host has one for each key of an applied batch |
| Ingest.StoreAnswers | internal/telemetry/infrastructure/store.go:78-100 | unknown host, replay and success are told exactly by host and claim |
| Ingest.PublishedIsNew | internal/telemetry/application/ingest.go:37-57 | a call publishes exactly the records it added |
| Ingest.RunAccounts | internal/telemetry/application/ingest.go:37-57 | after any run of calls the tables are the initial ones plus the disjoint union of all that was published |
| Ingest.RunByKey | internal/telemetry/application/ingest.go:37-57 | by columns: after any run a host's records are those it had and those published for it, and no two of these have one key |
| Ingest.OncePerKey | internal/telemetry/infrastructure/store.go:92-100 | of two calls with the same host and key at most one is applied |
| Ingest.InsertKind | internal/telemetry/infrastructure/store.go:119-153 | the loop over one kind computes the new table, the accepted records and the duplicates |
| Ingest.Server.StoreBatch | internal/telemetry/infrastructure/store.go:78-172 | the transaction, failing at any statement, is all or nothing |
| Ingest.Server.IngestBatch | internal/telemetry/application/ingest.go:37-57 | refuses bad requests, stores, and publishes exactly the new records after the commit |
| Delivery.StepKeeps | internal/agent/sender.go:79-115 | every step of agent, server, network and crash keeps the protocol's invariant |
| Delivery.AppliedInOrder | internal/telemetry/infrastructure/store.go:92-100 | in every run the server applies an agent's batches in spool order, and one again only after its idempotency row was deleted between the two applications |
| Delivery.AppliedOnce | internal/telemetry/infrastructure/store.go:92-100 | until idempotency rows are purged each batch is applied at most once, in spool order |
| Delivery.NothingLost | internal/agent/spool/spool.go:100-176 | in every run each batch is still queued, applied, was refused by the server, had a file that could not be read, or was one too many or too large when another was added |
| Delivery.DroppedForCause | internal/agent/spool/spool.go:119-158 | a batch is dropped only in a step that found its file unreadable, or that added a batch with which it and those after it are over the bounds |
| Delivery.RefusedByServer | internal/agent/sender.go:95-110 | a batch counts as refused only after the server refused it |
| Delivery.AppliedIsStored | internal/telemetry/infrastructure/store.go:78-172 | end to end: at every point of every run each record of an applied batch is on the server, itself or an earlier one with its key |
| Delivery.DocumentIsNewest | internal/telemetry/infrastructure/store.go:155-164 | a stored document is that of the newest applied batch that carries its kind |
| Sender.Sender.Collect | internal/agent/spool/spool.go:100-130 | queuing a batch is a step of the protocol |
| Sender.Sender.Send | internal/agent/sender.go:95-110 | a lost send settles nothing and changes nothing; a refused one settles and changes nothing; a received one stores the batch or, failing, changes nothing, and settles only when the answer that it is stored is heard, and then |
| Sender.Sender.Ship | internal/agent/sender.go:88-111 | links, sends and removes; the batch leaves the spool only when settled, and may have been evicted meanwhile |
| Sender.Sender.Round | internal/agent/sender.go:80-114 | peek, link, send and remove are steps of the protocol, with any batches queued during the send; without them the queue shortens whenever the round succeeds, and it succeeds when the attempt works |
| Sender.Sender.Drain | internal/agent/sender.go:79-115 | ends, with any batches queued between rounds and during sends; on success the spool is empty and every batch ever queued was stored, refused or dropped; on failure the failures are counted; when every attempt works it succeeds |
| Sender.Sender.Fail | internal/agent/sender.go:118-124 | three failures in a row give the link up |
| Sender.Sender.Link | internal/agent/sender.go:63-74 | a link is up afterwards exactly when there was one or dialing worked |
| Sender.Backoff | internal/agent/sender.go:128-140 | the wait doubles from one second to a minute, spread by a fifth either way, for every attempt number |
| Retention.StepKeeps | internal/telemetry/application/maintenance.go:42-95 | ingest, every statement of rollup and purge, failed runs and a clock stepping back keep the invariant |
| Retention.RollSeesEverything | internal/telemetry/infrastructure/maintenance.go:55-68 | every hour that is ever rolled up still has every sample ever stored for it |
| Retention.RollupsExact | internal/telemetry/infrastructure/maintenance.go:55-68 | each surviving hourly aggregate is count, minimum, maximum and sum of every sample of its hour stored before its last rollup, and none is missing |
| Retention.SummaryMeans | internal/telemetry/infrastructure/maintenance.go:58-60 | what count, minimum, maximum and sum mean |
| Retention.CompleteRunCounts | internal/telemetry/application/maintenance.go:42-70 | a completed run has counted every sample stored before it began, of every hour it closes, that was in time or whose hour was in its window, samples stored behind a failed run included; and the rollup of each such hour of the window covers all that was stored before the run began |
| Retention.NeverLost | internal/telemetry/application/maintenance.go:72-86 | a sample stored in time is never deleted before it is counted |
| Retention.DeletedOnlyWhenCounted | internal/telemetry/application/maintenance.go:72-86 | whatever follows, a new sample is deleted only after it was counted, exactly when it is stored in time |
| Retention.LateSampleIsDeletedUnrolled | internal/telemetry/application/maintenance.go:75-86 | a concrete run that deletes a late sample whose hour was never rolled up |
| Retention.RollupCurrentIff | internal/telemetry/infrastructure/maintenance.go:55-68 | a rollup describes everything stored for its hour exactly when nothing came after it was last rolled |
| Retention.RerunChangesNothing | internal/telemetry/application/maintenance.go:40-41 | rolling an hour again changes nothing when no data changed |
| Maintenance.Store.EarliestMetric | internal/telemetry/infrastructure/maintenance.go:43-52 | the oldest timestamp, or none exactly when there is no row |
| Maintenance.Store.Insert | internal/telemetry/infrastructure/store.go:104-130 | stores a sample unless one of its series and time is there |
| Maintenance.Store.RollupHour | internal/telemetry/infrastructure/maintenance.go:55-68 | overwrites exactly the hour's aggregates |
| Maintenance.Store.Rollup | internal/telemetry/application/maintenance.go:42-70 | with samples arriving throughout, takes only steps of the machine; the marker never moves back, and stays when the run is cut short; a completed run has counted, and rolled up with all that was stored before it, every closed hour of its window |
| Maintenance.Store.PurgeRaw | internal/telemetry/infrastructure/maintenance.go:84-95 | deletes up to the limit; rows younger than the TTL stay, and so do rows of the last 24 hours before the marker; zero only when no other is left |
| Maintenance.Store.PurgeRollups | internal/telemetry/infrastructure/maintenance.go:98-108 | the same for rollups; the rest keep their values |
| Maintenance.Store.DrainRaw | internal/telemetry/application/maintenance.go:97-115 | every row younger than the TTL stays, and every row of the last 24 hours before the marker; on success no other is left; what is new arrived meanwhile |
| Maintenance.Store.DrainRollups | internal/telemetry/application/maintenance.go:97-115 | on success no expired rollup is left, and only expired ones went |
| Maintenance.Store.Purge | internal/telemetry/application/maintenance.go:75-95 | every raw row younger than the TTL stays, and every one of the last 24 hours before the marker, and all while there is no marker; on success every other row that was there is gone; on success exactly the unexpired rollups are left, unchanged; the marker stays |
| Commands.ClaimUnique | internal/operator/infrastructure/store.go:62-64 | the commands a claim takes are determined by the table |
| Commands.ClaimIsOldest | internal/operator/infrastructure/store.go:62-64 | by columns: a claim takes queued commands of the host, by creation and then id, and leaves none that comes before one it takes |
| Commands.Store.InsertCommand | internal/operator/infrastructure/store.go:41-52 | stores a queued command for a known host under a new id, else nothing |
| Commands.Store.SelectQueued | internal/operator/infrastructure/store.go:62-83 | the host's queued commands, oldest first, up to the limit, none older left behind |
| Commands.Store.Claim | internal/operator/infrastructure/store.go:56-97 | exactly those become running and start now; every other command stays |
| Commands.Store.Complete | internal/operator/infrastructure/store.go:100-116 | takes an answer only from the command's own host and only while it runs; then status, result, error and finish time are the report's and now; the table is unchanged otherwise |
| Commands.Store.Expire | internal/operator/infrastructure/store.go:148-164 | exactly the commands queued for over ten minutes expire now, and those running for over five fail now with "no result"; counts both |
| Commands.Store.ClearResults | internal/operator/infrastructure/store.go:168-177 | empties result and error of exactly the commands finished before the cutoff, and counts the rows changed |
| Operator.AnswerIsDone | internal/agent/operator.go:166-201 | a report says done exactly when the executable ran without error and printed an object, which is the result; a failed one says the refusal printed, else what went to standard error, else how it exited |
| Operator.StepKeeps | internal/operator/application/service.go:49-98 | every interleaving of calls, statements, executions, late or repeated reports and crashes keeps the invariant |
| Operator.AtMostOnce | internal/agent/operator.go:142-163 | in every run each command is handed out at most once and run at most once, only on its own host, and run only if handed out |
| Operator.StatusTells | internal/operator/infrastructure/store.go:56-164 | done means it ran on its host and succeeded, and the result is what it printed; failed, that nobody answered or that the error is what its execution reports; unless a ClearResults came after it finished with a later cutoff; expired means it was never handed out; the status says which times are set |
| Operator.AnswerKept | internal/operator/infrastructure/store.go:100-177 | an answer the server takes is stored with its status, result, error and time at every later point of the run, until exactly a ClearResults with a later cutoff empties result and error |
| Operator.TerminalAbsorbs | internal/operator/infrastructure/store.go:100-177 | a terminal command keeps its status and times through anything that follows; its result and error can only be cleared |
| Operator.ClaimedInTime | internal/operator/application/service.go:78-84 | no recorded start is later after the creation than ten minutes or the time storing took |
| Operator.HandedInTime | internal/operator/application/service.go:78-84 | no command is handed out later after its creation than that and the longest stall of a claim |
| Operator.SlowestClaim | internal/operator/application/service.go:59-84 | a run that reaches both bounds |
| Operator.ExpireSettles | internal/operator/infrastructure/store.go:148-164 | a completed Expire leaves every command older than that and five minutes terminal, whatever interleaves |
| Operator.InTimeIff | internal/operator/application/service.go:49-84 | the recorded start is within a limit of the creation in every run exactly when ten minutes and the longest storing time are |
| Operator.HandedWithinIff | internal/operator/infrastructure/store.go:56-97 | every hand-out is within a limit of the creation in every run exactly when the two together are |
| Operator.TenMinutesIff | internal/operator/domain/domain.go:69-70 | no command is handed out more than ten minutes after its creation exactly when storing takes no longer and claims do not stall |
| Hub.Subscription.Take | internal/telemetry/application/hub.go:91-106 | one message is skipped, buffered in order, or ends the subscription, the last only with a full buffer |
| Hub.Subscription.Receive | internal/telemetry/application/hub.go:47-54 | the client reads messages in order, and learns that the channel is closed only once it is empty |
| Hub.FilteredMeans | internal/telemetry/application/hub.go:94-96 | a subscription asks for exactly the messages of its host and type, in order, where empty means any |
| Hub.Hub.Subscribe | internal/telemetry/application/hub.go:62-72 | a new subscription starts at the present, and is closed from the start after Close |
| Hub.Hub.Unsubscribe | internal/telemetry/application/hub.go:75-82 | removes and closes once; safe after a drop |
| Hub.Hub.Read | internal/telemetry/application/hub.go:47-54 | a client reading leaves every subscription as promised |
| Hub.Hub.Publish | internal/telemetry/application/hub.go:85-108 | with clients reading meanwhile, drops a subscriber only with its buffer full, and none whose buffer has room for all |
| Hub.Hub.Close | internal/telemetry/application/hub.go:111-119 | closes every channel exactly once and refuses new ones |
| Hub.GapFree | internal/telemetry/application/hub.go:47-119 | a live subscriber has read or buffered exactly the messages of its host and type since it subscribed; any other a prefix, a dropped one a proper prefix |
| SiteCache.StepKeeps | internal/analytics/application/service.go:114-161 | every interleaving of readers and writers keeps the invariant |
| SiteCache.CacheAgrees | internal/analytics/application/service.go:124-155 | a cached list is the repository's, or some writer has committed and still owes its reset |
| SiteCache.SitesReflectsWrites | internal/analytics/application/service.go:114-161 | an answer is a committed list at least as new as every write whose call returned before this call started |
| SiteCache.SitesAnswers | internal/analytics/application/service.go:124-135 | a call that gets the mutex answers with the cached list or the repository's newest, which it leaves in the cache, and frees the mutex |
| DockerLogs.ParseEncoded | internal/agent/collect/docker_logs.go:145-161 | frames are read back as written, whatever follows them |
| DockerLogs.BigEndian | internal/agent/collect/docker_logs.go:157 | the payload size is big-endian |
| DockerLogs.StreamsByKind | internal/agent/collect/docker_logs.go:156-162 | kind 2 is standard error and every other standard output; payloads of a stream join in frame order |
| DockerLogs.SplitMeans | internal/agent/collect/docker_logs.go:163 | lines and rest make up the text and hold no newline |
| DockerLogs.SplitResumes | internal/agent/collect/docker_logs.go:162-164 | splitting may go on from the incomplete line |
| DockerLogs.Demux | internal/agent/collect/docker_logs.go:149-171 | per stream, emits exactly the non-empty newline-terminated lines of the bytes its complete frames carried, each after the frame that completes it and before the next |
| DockerLogs.FramingIndependent | internal/agent/collect/docker_logs.go:149-171 | any two framings and interleavings of the same bytes emit the same lines per stream |
| Enrollment.NextFreeAddr | internal/telemetry/infrastructure/enrollment.go:120-136 | the lowest unused address between network + 2 and broadcast - 1, or none exactly when all are used |
| Enrollment.LowestFreeUnique | internal/telemetry/infrastructure/enrollment.go:118-131 | that address is determined |
| Enrollment.ExhaustedIff | internal/telemetry/infrastructure/enrollment.go:118-131 | allocation fails exactly when all 2^(32-bits) - 3 host addresses are taken |
| Enrollment.Store.CreateEnrollableHost | internal/telemetry/infrastructure/enrollment.go:25-52 | host and unused invitation are stored together, exactly when id, name and secret are new; else nothing changes |
| Enrollment.Store.Enroll | internal/telemetry/infrastructure/enrollment.go:57-97 | unauthorized exactly when the secret is unknown, used or expired, exhausted exactly when no address is free; on success the peer has the lowest free one and the invitation is used; anything else changes nothing |
| Enrollment.Store.HostByTunnelIP | internal/telemetry/infrastructure/enrollment.go:166-176 | finds the host stored with the address |
| Enrollment.EnrollsExactlyWhen | internal/telemetry/infrastructure/enrollment.go:57-97 | succeeds exactly when the secret is live, an address is free and the key is new; otherwise nothing changes and the secret stays usable |
| Enrollment.PeersOneToOne | internal/telemetry/infrastructure/enrollment.go:83-92 | in every run hosts, keys and addresses are one to one |
| Enrollment.SecretWorksOnce | internal/telemetry/infrastructure/enrollment.go:64-71 | no secret enrolls twice, whatever happens in between |
| Enrollment.LookupInverts | internal/telemetry/infrastructure/enrollment.go:166-176 | from its enrollment on, through anything that follows, a host is found under its own address and no other |

## Left out

- Spool.Spool.Add: requires that the next file number fits in 64 bits; `SpoolQueue.SeqRisesIff` says exactly when that is so, and what the program does beyond it (wrap to zero) is not carried through the queue.
- Spool.Spool.constructor: assumes that every file ending in `.json` is a leftover of a write or bears a name the spool gave it; other files may lie beside them.
- Spool.Spool.Peek: the decoding of a file is a given value or none; JSON is not modelled.
- Sender.Sender.Drain: batches are queued before a peek or during a send; crashes and other hosts interleave in `Delivery` only.
- Delivery.StepKeeps: a send takes effect before it returns, or never; a request that reaches the server after the agent gave it up is not modelled.
- AggregateRuns.FreshIff: recording a pageview, one batch of a purge and the refresh of one day are each atomic, and the clock never steps back; local midnight is assumed to exist on every day. A refresh reads its dimensions one after another before it stores them; `AggregateRuns.ReadsAgree` says when that makes no difference.
- AnalyticsStore.Store.RollupAll: the first day to keep is a parameter, not 25 calendar months, and no time passes while it runs; `AnalyticsStore.Store.RollupOne` has the pauses.
- AnalyticsStore.Store.RollupOne: the first whole day and today are taken at one reading of the clock.
- Reports.ReportExactIff: assumes a raw retention of at least 30 minutes when there is one (the configuration counts it in days).
- Timeline.SpansTile: first days of months are given by an arbitrary calendar, labels are not modelled, and pairing a series with its comparison bucket by bucket is left out.
- Queries.RunQuery: takes a validated query (known dimension, positive limit, range in order) and the year-ago range as given; Resolve is not modelled.
- Ranking.SortSorts: rounding of derived metrics is on exact rationals, not floating point.
- Retention.RollupsExact: sums are exact reals; only the metrics table is modelled, since checks and events are not rolled up.
- Hub.Hub.Publish: the order in which subscribers are visited is arbitrary, and a client reads only before a message is offered to it.
- SiteCache.SitesReflectsWrites: the interleaved calls are a state machine on values, not a class, since no single call holds the mutex throughout.
- Operator.AtMostOnce: one agent per host, whose poll loop is a worklist and its steps, not a class; deleting a host, incidents and the audit log are not modelled.
- Enrollment.PeersOneToOne: the stored tables only; adding the peer to the tunnel is not modelled.
- Site deletion with its cascade, and pageviews recorded before visits existed.
- The login limiter and the request rate limiter: bounded maps whose properties are settled by one call.
- Query validation, period presets, user-agent, channel and log-level classification: table lookups.
- HTTP, WebSocket, WireGuard, ACME, configuration, backup and restore, uptime probes and the web interface.
- SHA-256, gzip, JSON and the SQLite engine: hashes are injective tuples, statements are functions on tables.
