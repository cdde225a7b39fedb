# A model of the metrics API's delivery, calendar, token, cache and paging cores

This project models the parts of the server whose correctness depends on several functions at once,
and proves what they promise. Each module follows one or a few source files:

- **Job delivery** (`RetryPolicy`, `Topology`, `JobProtocol`, `JobInvariants`, `JobBounds`, `JobEffects`,
  `JobWorker`, `ConsumerLifecycle`, `PublisherReturns`). `JobProtocol` is a transition system of seventeen
  steps: a confirmed or unconfirmed publish, a delivery, the blocking dedup insert, the work, commit or
  rollback, the in-process fallback, ack, park, tier declaration, retry publish, expiry, a channel close, a
  process crash, and a change of what a job is about: its user or invite, which the work reads to see
  whether an email is owed. A step is the code between two awaits. `JobWorker` is the code of `handle`, `onFailure`,
  `runOnce` and the publish-or-run fallback in its own imperative form: at each await any steps may come
  between, and every stretch of code is proved to be one protocol step. `ConsumerLifecycle` is the
  consumer object with `setup`, `cancel`, `handle` and `drain` cut at their awaits, under any order of
  events.
- **Calendar ranges** (`Calendar`, `Buckets`, `Zones`, `RelativeRange`, `FallbackRange`, `Binning`). Dates
  follow section 21.4.1 of ECMA-262, including the reading of the years 0 to 99 by `Date.UTC`. A zone is
  its offset at each instant: whole seconds below a day, with at most one change in any window of two
  days.
- **Refresh tokens** (`RefreshTokens`). Rows in issue order, the entity class, and the use cases over
  them; a transaction and a family revocation are one step each.
- **Cached metric-log reads** (`PercentEncoding`, `CacheKeys`, `RedisPatterns`, `MetricLogRequests`,
  `MetricLogKeys`, `MetricLogCache`). Keys and patterns are real strings; a handler is any function of the
  user, the organization, the validated request and the rows it can see that answers alike the requests it
  cannot tell apart. Those are the requests with all the same fields, save blanks around a log list's
  cursor, which base64url decoding passes over; the wording of a metric entry's relations, and 20 for no
  log limit; and a dashboard's limit, which only selects its metrics, since their total is counted before it.
  A dashboard's metrics and the fingerprint of their versions, which the handler reads from the database
  before it looks in the cache, are parts of its request.
- **Keyset pagination** (`KeysetPagination`), the **readiness probe** (`ReadinessProbe`) and **IPv6
  rate-limit keys** (`IpAddressKeys`).
- `Common` and `Text` hold the helpers: sums, numerals, joining and splitting.

## Where the code does not keep the promise

- The relative range "includes the current bucket" (relative-range.ts:175-180). Its end is the first
  instant that shows the next bucket's start, so now is before it exactly when the clocks have not gone back
  over that wall time by now: `RelativeRange.NowBeforeEndExactly`. `EndCanBePast` is a zone and an hour where
  they have.
- `Date.UTC` reads the years 0 to 99 as 1900 to 1999. `Buckets.StartOfNextBucketIsLeast`,
  `Buckets.SubtractMonthsIsMonthsBefore`, `Zones.WallTimeOf` and `RelativeRange.StartAtMostEnd` say exactly
  when that matters.
- The fallback range ends with the newest log's bucket so that the log is shown (fallback-range.ts:37-39).
  It is not when the clocks have gone back over the bucket's end by then, as the end is that wall time's
  first showing, or when the span is shorter than what is left of the bucket:
  `FallbackRange.NewestLogCoveredExactly` is the exact condition for one log and `BucketCoveredExactly` for
  all of a bucket. `SetBackLoses` is an instance of the first failure, `LongMonthsLose` and `YearsLose` are
  families of the second.
- A log write is meant to clear every entry it changes. Ids are accepted in either case
  (src/constants/zod/zod-rules.ts:24-31) but a pattern matches one spelling:
  `MetricLogKeys.ChangedEntriesExactly` says exactly which entries go. An entry read under another case stays
  (`MetricLogCache.OtherCaseGoesStale`), and a create or a dummy-log job whose metric id is in upper case
  leaves that metric's ordinary statistics, charts and details (`OtherCaseWriteGoesStale`), until the next
  write that names it in lower case; in between the metric is called spoilt.
- A cursor carries whole milliseconds and the columns hold microseconds.
  `KeysetPagination.CursorStandsExactly` says when they agree; the repository itself writes whole
  milliseconds.
- A publish can be told that its returned message was routed. From any state and whatever comes next
  without a new publish, that can happen exactly when another waiting publish has the same message id
  (`PublisherReturns.MisledExactly`); `SharedIdCanMislead` is an instance.

## Model

| member | source | states |
|---|---|---|
| JobInvariants.NoJobIsLost | src/shared/infrastructure/queue/RabbitMQConsumer.ts:115-223 | In every reachable state, with a channel close or crash between any two steps, a job whose publish was confirmed as routed has a copy in its work queue, a retry queue or parking, or unsettled on an open delivery, or its dedup row is committed. |
| JobInvariants.CommittedAtMostOnce | src/shared/infrastructure/queue/SequelizeMessageIdempotency.ts:47-65 | Over all interleavings of deliveries, retry copies and fallbacks, one (messageId, queue) commits at most once; its row is there, and a run that found an email owed sent it. |
| JobEffects.SentExactlyWhenOwed | src/features/shared/auth/application/use-cases/InviteUserToOrganization.ts:163-174 | A committed run sent its email exactly when its subject, as its transaction found it, owed one: none for a missing user, an invite that is accepted, expired or without its organization, or a verified address. |
| JobInvariants.DuplicateMeansCommitted | src/shared/infrastructure/queue/SequelizeMessageIdempotency.ts:51-71 | A run told "duplicate" or "processed" has its key committed, and its message had an id. |
| JobInvariants.RecordedByItsOwnJob | src/features/shared/auth/feature.ts:157-171 | When no other job has the same id and queue, a committed row means this job's own work ran, in the worker or in the fallback under the same key. |
| JobInvariants.InvStep | src/shared/infrastructure/queue/RabbitMQConsumer.ts:115-223 | Every one of the seventeen steps keeps the structure, the key locks and the commit record. |
| JobInvariants.LossIsLocal | src/shared/infrastructure/queue/RabbitMQConsumer.ts:130-138 | A closed channel ends no handler (they run on, and their acks and nacks throw) and no other channel; a crash ends its process's handlers and leaves all others as they were. |
| JobBounds.HandlerRunsBounded | src/shared/infrastructure/queue/RabbitMQConsumer.ts:148-223 | One published message starts at most (maxRetries + 1)·(1 + u) handler runs, u being its deliveries a close or crash left unsettled, whatever header it was published with. |
| JobBounds.BackoffBounded | src/shared/infrastructure/queue/RabbitMQConsumer.ts:189-206 | The waits of all its retry copies sum to at most the schedule's sum times (1 + u). |
| JobBounds.BackoffWithoutLoss | src/shared/infrastructure/queue/retryPolicy.ts:9-26 | With u = 0 the summed backoff is at most min(n·cap, base·(2^n − 1)), n being maxRetries. |
| RetryPolicy.RetryDelaysStrictlyIncrease | src/shared/infrastructure/queue/retryPolicy.ts:17-26 | The delays of `retryDelaysMs` are strictly increasing. |
| RetryPolicy.RetryDelaysAreTheSchedulableOnes | src/shared/infrastructure/queue/retryPolicy.ts:17-66 | They are exactly the delays that `decideOnFailure` can schedule. |
| RetryPolicy.SummedBackoff | src/shared/infrastructure/queue/retryPolicy.ts:9-26 | The whole schedule's sum is within the cap bound and the doubling bound. |
| RetryPolicy.ReadBackRetryCount | src/shared/infrastructure/queue/retryPolicy.ts:37-42 | A count the consumer writes in the header is read back as that count. |
| RetryPolicy.HeaderCounts | src/shared/infrastructure/queue/retryPolicy.ts:37-42 | Any header counts as the digits it begins with after blanks and a sign; none, no digits or a minus count as a first attempt. |
| RetryPolicy.DelayDoubles | src/shared/infrastructure/queue/retryPolicy.ts:8-10 | The delay is the base, then doubles with each try until the cap, and stays there. |
| RetryPolicy.DecidesExactly | src/shared/infrastructure/queue/retryPolicy.ts:44-67 | A failure is parked exactly when it is terminal or no try is left; otherwise the count goes up by one. |
| Topology.RefusedGoesToParking | src/shared/infrastructure/queue/topology.ts:51-94 | With the topology declared, a message refused by any work queue is routed to parking and nowhere else, whatever its routing key. |
| Topology.PublishedReachesItsQueue | src/shared/infrastructure/queue/topology.ts:57-94 | With the topology declared, a publish to the jobs exchange under a work queue's key reaches that queue and no other. |
| Topology.ExpiredGoesHome | src/shared/infrastructure/queue/topology.ts:31-44 | A message whose wait in a retry queue ends returns to the queue that failed it and no other, after exactly that delay. |
| Topology.TierKeepsDeclared | src/shared/infrastructure/queue/topology.ts:31-44 | Declaring a tier never clashes with a declared queue, and keeps the topology. |
| Topology.RetryNamesInjective | src/shared/infrastructure/queue/topology.ts:21-22 | Two retry queues have the same name only for the same queue and delay. |
| Topology.RetryNamesAreNew | src/shared/infrastructure/queue/topology.ts:21-22 | No retry queue's name is a work queue's or parking's. |
| Topology.Channel.AssertTopology | src/shared/infrastructure/queue/topology.ts:65-94 | From any broker, half declared by an interrupted setup included: the channel stays open exactly when every queue there has the declared arguments, and then both exchanges and the rest of the topology are declared and no queue that was there changes. |
| Topology.Channel.AssertRetryTier | src/shared/infrastructure/queue/topology.ts:31-44 | Declares the one queue of a delay, or closes the channel if it is refused. |
| JobWorker.Worker.RunOnce | src/shared/infrastructure/queue/SequelizeMessageIdempotency.ts:35-72 | Resolves only with the dedup row committed, as "duplicate" exactly when the insert met it; otherwise the work is done as it read its subject, unless the id, the insert or its own throw prevents it, and it is "processed" exactly when its own commit is seen; terminal exactly for an unusable id or work that throws a terminal error; and a sequence of protocol steps. |
| JobWorker.Worker.ExecuteInTransaction | src/features/shared/auth/application/use-cases/InviteUserToOrganization.ts:163-174 | Sends the email exactly when the job's subject owes one as it is now, and records what it found; so do RequestPasswordReset.ts:117-124 and RequestEmailVerification.ts:56-63. |
| JobWorker.Worker.OnFailure | src/shared/infrastructure/queue/RabbitMQConsumer.ts:148-223 | A failed delivery is parked at once, with no new copy, exactly when it is terminal, its count is at least maxRetries, or there is no id. Otherwise, with the tier and the publish confirmed, one copy with the count plus one is put in the queue of its delay and the delivery is acknowledged; else it is parked. It always ends settled: parked, or its row committed or a later copy standing in. |
| JobWorker.Worker.Republish | src/shared/infrastructure/queue/RabbitMQConsumer.ts:193-215 | The tier first, then the publish of exactly the retry copy; on a closed channel nothing is published; a failure parks. |
| JobWorker.Worker.Handle | src/shared/infrastructure/queue/RabbitMQConsumer.ts:115-146 | From delivery to settlement, a throwing ack included, one delivery is always settled or lost with its channel; a success leaves its row committed and the message acknowledged, and a failure is parked at once exactly by the count its header reads as, terminality and id. |
| JobWorker.Worker.Handler | src/features/public/metric-log/application/use-cases/GenerateDummyMetricLogsHandler.ts:77-128 | A failure is terminal exactly for a refused body, an unusable id or work that throws a terminal error. |
| JobWorker.RunsRemember | src/shared/infrastructure/queue/RabbitMQConsumer.ts:115-223 | Over any steps a copy keeps its job, header and wait, and no row, commit or sent email is forgotten, as the awaits assume. |
| JobWorker.Worker.PublishOrRun | src/features/shared/auth/application/use-cases/InviteUserToOrganization.ts:140-174 | A confirmed publish leaves the message in its queue; a rejected one starts one run of that job in process under the same (messageId, queue), which is over on return, with its work done unless the insert, a duplicate or a throw prevented it; when it ran, its row is committed. |
| ConsumerLifecycle.AnyOrder | src/shared/infrastructure/queue/RabbitMQConsumer.ts:67-259 | Over every order of setup, cancel, handler and drain events: once cancel and the setups end, no consumer is on a live channel; inFlight counts the unfinished handlers; no drain waits at zero. |
| ConsumerLifecycle.Consumer.AfterConsume | src/shared/infrastructure/queue/RabbitMQConsumer.ts:85-91 | A tag that arrives after cancel is cancelled, otherwise kept with its channel. |
| ConsumerLifecycle.Consumer.StartCancel | src/shared/infrastructure/queue/RabbitMQConsumer.ts:225-240 | Cancel takes the tag it has and leaves none. |
| ConsumerLifecycle.Consumer.FinishHandler | src/shared/infrastructure/queue/RabbitMQConsumer.ts:139-145 | The last handler resolves every waiting drain. |
| PublisherReturns.ConfirmedMeansRouted | src/shared/infrastructure/queue/RabbitMQPublisher.ts:92-129 | With ids apart, a publish resolves only when its message was not returned, and, with no late return, exactly then. |
| PublisherReturns.MisledExactly | src/shared/infrastructure/queue/RabbitMQPublisher.ts:92-122 | From any state, a waiting publish that still can find its return can come to miss it, with no new publish, exactly when another waiting publish has its id. |
| PublisherReturns.MisledWasShared | src/shared/infrastructure/queue/RabbitMQPublisher.ts:92-122 | Over any events at all, a publish misses its return only after its id was shared by another waiting one. |
| PublisherReturns.AttributedThroughout | src/shared/infrastructure/queue/RabbitMQPublisher.ts:56-121 | Every waiting publish can find its own return in the set, throughout any order of events. |
| PublisherReturns.SharedIdCanMislead | src/shared/infrastructure/queue/RabbitMQPublisher.ts:114-122 | From a new publisher, any two publishes of any one id can come to that. |
| PublisherReturns.Publisher.Settle | src/shared/infrastructure/queue/RabbitMQPublisher.ts:106-122 | Reads and drops the publish's id from the returned set, as the event model does; a returned message is reported as routed exactly when its publish was misled. |
| PublisherReturns.AvailableExactly | src/shared/infrastructure/queue/RabbitMQPublisher.ts:43-89 | After any events the queue is available exactly when every channel failure was followed by a connection, and it was available before or some connection came. |
| PublisherReturns.Publisher.Observe | src/shared/infrastructure/queue/RabbitMQPublisher.ts:40-129 | The object's methods run any such events as the event model does, with the same answers, and isEnabled says what those events leave. |
| Calendar.YearStartIsDayFromYear | src/features/public/analytics/domain/relative-range.ts:90-94 | Counting years of 365 and 366 days gives the standard's DayFromYear, for every year. |
| Calendar.DateOfDay | src/features/public/analytics/domain/relative-range.ts:91-94 | The calendar fields of a day number are the one valid date with that number. |
| Calendar.MonthLengths | src/features/public/analytics/domain/relative-range.ts:91-94 | The twelve months have their usual lengths, February one more in leap years. |
| Calendar.TwoDigitYears | src/features/public/analytics/domain/relative-range.ts:94 | Date.UTC reads the years 0 to 99 as 1900 to 1999 and every other year as itself. |
| Buckets.StartOfNextBucketIsLeast | src/features/public/analytics/domain/relative-range.ts:90-110 | The next bucket start is the least boundary after its input, for all five buckets, exactly when Date.UTC is given no year from 0 to 99. |
| Buckets.WeeksStartOnMondays | src/features/public/analytics/domain/relative-range.ts:101-104 | Week boundaries are the midnights a whole number of weeks from Monday, 5 January 1970. |
| Buckets.SameBucketSameNext | src/features/public/analytics/domain/relative-range.ts:90-110 | Two wall times are in one bucket exactly when their next boundary is the same. |
| Buckets.StartIsGreatest | src/features/public/analytics/infrastructure/sql/visualization.sql.ts:16-18 | Truncating gives the greatest boundary not after its input. |
| Buckets.MonthsBeforeLands | src/features/public/analytics/domain/relative-range.ts:112-136 | The specified target is month index 12y + m − n, day min(day, month length), at the same time of day. |
| Buckets.SubtractMonthsLands | src/features/public/analytics/domain/relative-range.ts:114-136 | From every wall time the code moves by the days between the two dates as Date.UTC reads them, or gives NaN exactly when the target month's first is past the range of Date. |
| Buckets.SubtractMonthsIsMonthsBefore | src/features/public/analytics/domain/relative-range.ts:114-136 | From every wall time, that is the specified target exactly when the target year is not 0 to 99, or, from a year 0 to 99 itself, when the 1900 years added are the same days at both ends. |
| Buckets.SubtractMonthsAtMostExactly | src/features/public/analytics/domain/relative-range.ts:114-136 | It goes no later exactly when the month it lands in, as Date.UTC reads it, is no later; otherwise it goes at least 25 days later. |
| Buckets.SubtractMonthsLands1900 | src/features/public/analytics/domain/relative-range.ts:114-136 | From a year past 99 into the years 0 to 99 the date is that of the month 1900 years after the specified one. |
| Buckets.SubtractMonthsMisreadsYear99 | src/features/public/analytics/domain/relative-range.ts:116-118 | Twelve months back from 1 January 100 land in 1999. |
| Buckets.MonthsBeforeEarlier | src/features/public/analytics/domain/relative-range.ts:114-136 | Going back n > 0 months is strictly earlier. |
| Buckets.MonthsBeforeComposes | src/features/public/analytics/domain/relative-range.ts:114-136 | From a day of at most 28, m months back and then n are m + n months back. |
| Zones.WallTimeOf | src/features/public/analytics/domain/relative-range.ts:44-58 | Reassembling the printed fields, in any order and with literals between, gives the wall time as Date.UTC reads it, to the millisecond: the wall time itself exactly when its year is not 0 to 99. |
| Zones.InstantOf | src/features/public/analytics/domain/relative-range.ts:62-84 | The two candidates and the binary search find the first instant that shows the wall time or later. |
| Zones.InstantAtIsLeastPreimage | src/features/public/analytics/domain/relative-range.ts:63-73 | That is the least instant with the wall time, when there is one. |
| Zones.InstantAtIsTheChange | src/features/public/analytics/domain/relative-range.ts:75-83 | For a skipped wall time it is the instant the clocks moved, and there is only that one nearby. |
| Zones.InstantAtMonotone | src/features/public/analytics/domain/relative-range.ts:62-84 | Later wall times never give earlier instants. |
| Zones.TableIsZone | src/features/public/analytics/domain/relative-range.ts:62-67 | Every table of changes more than two days apart is a zone the other results hold for. |
| Zones.TableOffsetIs | src/features/public/analytics/domain/relative-range.ts:62-67 | A table's offset is that of its last change by then, and the initial one before them all. |
| RelativeRange.WindowsAreTheirTexts | src/features/public/analytics/domain/relative-range.ts:9-23 | A text is read as a window exactly when it prints that window with an amount from 1 to MAX_SAFE_INTEGER. |
| RelativeRange.HoursDaysWeeksStart | src/features/public/analytics/domain/relative-range.ts:138-202 | A window printing n and h, d or w starts at the first instant that shows n times 3,600,000, 86,400,000 or 604,800,000 ms before the end's wall time, or is empty out of reach. |
| RelativeRange.MonthsYearsStart | src/features/public/analytics/domain/relative-range.ts:112-202 | For m or y, in plain years, it starts at the first instant that shows the date n or 12n months before the end's, the day cut to the month's length, at the same time of day. |
| RelativeRange.OtherTextsAreEmpty | src/features/public/analytics/domain/relative-range.ts:192-193 | Any other text gives an empty range at the same end. |
| RelativeRange.StartAtMostEnd | src/features/public/analytics/domain/relative-range.ts:181-202 | In every zone, the range starts no later than it ends exactly when its window's first month, as Date.UTC reads it, is no later than the end's, or the window has no months. |
| RelativeRange.PlainYearsStartByEnd | src/features/public/analytics/domain/relative-range.ts:181-202 | Such is every window that neither starts nor ends in a year from 0 to 99. |
| RelativeRange.StartBeforeEndExactly | src/features/public/analytics/domain/relative-range.ts:181-202 | The range is not empty exactly when its window can be read and the wall time just before its end had reached the window's first. |
| RelativeRange.StartBeforeEnd | src/features/public/analytics/domain/relative-range.ts:181-202 | So it is for a readable window in range that is longer than every forward jump of the clocks. |
| RelativeRange.SameInstantExactly | src/features/public/analytics/domain/relative-range.ts:62-84 | Two wall times are given one instant exactly when the clocks jump from before the first to the second or past it. |
| RelativeRange.SameBucketSameRange | src/features/public/analytics/domain/relative-range.ts:175-202 | Any two instants in one wall-time bucket give the identical range. |
| RelativeRange.NowBeforeEndExactly | src/features/public/analytics/domain/relative-range.ts:188-190 | Now is before the end exactly when no set-back up to now has gone back over the end's wall time. |
| RelativeRange.NowBeforeEnd | src/features/public/analytics/domain/relative-range.ts:188-190 | So it is whenever the end's wall time occurs at most once. |
| RelativeRange.EndCanBePast | src/features/public/analytics/domain/relative-range.ts:63-73 | In a zone set back an hour over the end's wall time, every now of the first hour after has its end an hour before the change. |
| FallbackRange.GuardHolds | src/features/public/analytics/domain/fallback-range.ts:41-64 | For a guard of at least 1 and a positive horizon the span is positive, within the guard and the horizon, and the estimate is 2 to guard + 1. |
| FallbackRange.LengthIs | src/features/public/analytics/domain/fallback-range.ts:37-48 | The fallback is as long as the request, 180 days for none, when that is between one bucket and both caps; otherwise one bucket, or the lesser cap. |
| FallbackRange.EstimateCounts | src/features/public/analytics/domain/fallback-range.ts:62-65 | The estimate is one more than the least number of usual bucket lengths that hold the span. |
| FallbackRange.ApproxIsLength | src/features/public/analytics/domain/buckets.ts:14-49 | The usual length of an hour, a day and a week is the length of every such bucket. |
| FallbackRange.ApproxIsMean | src/features/public/analytics/domain/buckets.ts:14-49 | That of a month and a year is the mean over the 400 years after which the calendar repeats. |
| FallbackRange.NewestLogCoveredExactly | src/features/public/analytics/domain/fallback-range.ts:37-48 | The newest log is in the half-open range exactly when the clocks have not gone back over its bucket's end by then and that end is within the span. |
| FallbackRange.NewestLogCovered | src/features/public/analytics/domain/fallback-range.ts:37-48 | So it is, without such a set-back, when its whole bucket is no longer than the span. |
| FallbackRange.BucketCoveredExactly | src/features/public/analytics/domain/fallback-range.ts:40-48 | All instants of a bucket are covered by their own fallback range exactly when no set-back of the clocks goes over the bucket's end and the bucket is no longer than the span. |
| FallbackRange.SetBackLoses | src/features/public/analytics/domain/fallback-range.ts:37-48 | In a zone set back an hour, no log of the first hour after is covered, though its hour fits any span. |
| FallbackRange.FixedCoversExactly | src/features/public/analytics/domain/fallback-range.ts:40-48 | With one offset the log is covered exactly when its bucket ends within the span. |
| FallbackRange.ShortBucketsAlwaysCovered | src/features/public/analytics/domain/fallback-range.ts:40-48 | There, hour, day and week buckets always hold the newest log under the default horizon. |
| FallbackRange.LongMonthsLose | src/features/public/analytics/domain/fallback-range.ts:43-48 | With a guard of 1, a log at the start of a month is lost exactly in months of 31 days. |
| FallbackRange.YearsLose | src/features/public/analytics/domain/fallback-range.ts:4-4 | A log at the start of a year is always lost, a year being longer than the default horizon. |
| Binning.SummarizeBuckets | src/features/public/analytics/domain/series-stats.ts:25-51 | The loop computes the statistics of the rows put together, skipping those without a positive count or an average. |
| Binning.SummaryIsOfChartedLogs | src/features/public/analytics/infrastructure/sql/visualization.sql.ts:10-50 | For any range and zone, the summary of the rows is the count, mean, least and greatest of exactly the logs of the range that are charted. |
| Binning.InSeriesExactly | src/features/public/analytics/infrastructure/sql/visualization.sql.ts:15-49 | A log is charted exactly when its wall time is not before the first bucket and its bucket starts at least a second before the end; with the end on a bucket start, exactly when its wall time is in between. |
| Binning.LeftOutExactly | src/features/public/analytics/infrastructure/sql/visualization.sql.ts:15-21 | A log in wall order is left out exactly when the last bucket starts within the second before the end and holds it. |
| Binning.SummaryIsOfRawLogs | src/features/public/analytics/infrastructure/sql/visualization.sql.ts:10-50 | For a range ending on a bucket start and logs in wall order, that is all the raw logs in the half-open range. |
| Binning.EachInOneBucket | src/features/public/analytics/infrastructure/sql/visualization.sql.ts:15-49 | Every log is in exactly one bucket of the dense series if and only if the logs are in wall order. |
| Binning.SameWhateverTheBucket | src/features/public/analytics/domain/series-stats.ts:22-51 | Two bucket sizes that end the range alike give the same statistics. |
| Binning.ConservedInFixedOffset | src/features/public/analytics/infrastructure/sql/visualization.sql.ts:10-50 | With one offset both hold for any logs and any range ending on a bucket start. |
| Binning.SeriesHolds | src/features/public/analytics/infrastructure/sql/visualization.sql.ts:15-21 | The generated series is exactly the bucket starts in its range, each once, ascending. |
| Binning.InRangeHolds | src/features/public/analytics/infrastructure/sql/visualization.sql.ts:22-30 | The logs kept are the metric's in the half-open range, each as often as it is stored. |
| Binning.PointIsTheMean | src/features/public/analytics/infrastructure/persistence/VisualizationReadRepoSequelize.ts:82-90 | A bucket's point is the mean of its logs, a mean of zero included, and the fill only without logs. |
| Binning.EachRowTells | src/features/public/analytics/infrastructure/sql/visualization.sql.ts:31-50 | There is one row for each bucket of the series, in order, labelled with the bucket's start and with the count, mean, least and greatest of exactly that bucket's logs, or nulls for none. |
| RefreshTokens.InvAlways | src/features/shared/auth/application/use-cases/RotateRefreshToken.ts:47-136 | In every reachable state each family is one chain in issue order, with one user, and one organization once set, which is named. |
| RefreshTokens.LiveIsLast | src/features/shared/auth/domain/entities/RefreshToken.ts:88-105 | A token that is not revoked is the last of its family and was never replaced. |
| RefreshTokens.OneLivePerFamily | src/features/shared/auth/application/use-cases/RotateRefreshToken.ts:107-121 | A family has at most one token that is not revoked. |
| RefreshTokens.ReplacedByNext | src/features/shared/auth/application/use-cases/RotateRefreshToken.ts:107-121 | A token is replaced by another exactly when that is the next of its family, so the chain is acyclic. |
| RefreshTokens.ReplaceNeverThrows | src/features/shared/auth/domain/entities/RefreshToken.ts:100-105 | Rotation never meets a token that is already replaced. |
| RefreshTokens.DeadStaysDead | src/features/shared/auth/application/use-cases/RotateRefreshToken.ts:59-76 | Over any later login, rotation, switch and logout, a family whose tokens are all revoked never has a usable one. |
| RefreshTokens.PresentedFamilyDies | src/features/shared/auth/application/use-cases/RotateRefreshToken.ts:138-149 | Presenting a revoked or expired token revokes the whole family for good, whatever comes between the transaction and the revocation. |
| RefreshTokens.RejectsExactly | src/features/shared/auth/application/use-cases/RotateRefreshToken.ts:59-76 | Rotation answers with a family revocation exactly for a token that is not usable. |
| RefreshTokens.RotationAnswers | src/features/shared/auth/application/use-cases/RotateRefreshToken.ts:47-111 | A presented token gives a rotation for o exactly when it is a usable row, its user known, and o is its own organization with active membership, or its user's default when it has none; its family is revoked exactly when it is revoked or expired; anything else, an unknown token too, is unauthorized. |
| RefreshTokens.AuthTokens.RotateInTransaction | src/features/shared/auth/application/use-cases/RotateRefreshToken.ts:49-136 | Gives those answers; a rotation revokes and replaces the presented row and appends one live row of the same user and family for that organization, and any other answer leaves the rows as they were. |
| RefreshTokens.AuthTokens.RotateRefreshToken | src/features/shared/auth/application/use-cases/RotateRefreshToken.ts:42-152 | The transaction and, on a reject, the revocation of the family, which is then dead; unauthorized changes no row. |
| RefreshTokens.AuthTokens.SwitchOrganization | src/features/shared/auth/application/use-cases/SwitchOrganization.ts:32-71 | Whatever others do between its read, its revocations and its issue, no token of a family the user had at the read is usable after a switch, and the issued token is there; with nothing between, it is the user's only usable one and other users' tokens are as they were. |
| RefreshTokens.SwitchSpendsFamilies | src/features/shared/auth/application/use-cases/SwitchOrganization.ts:48-55 | Over any steps that hold a revocation of each family found active, every family the user had at the read is spent for good: a rotation that races the switch dies with it. |
| RefreshTokens.UsableAfterSwitchIsNew | src/features/shared/auth/application/use-cases/SwitchOrganization.ts:48-68 | A token of the user usable after them is of a family issued since the read. |
| RefreshTokens.AuthTokens.IssueRefreshToken | src/features/shared/auth/application/use-cases/IssueRefreshToken.ts:45-63 | Appends one token for the user and organization, in the given family or the new one, usable until now plus the lifetime and no longer. |
| RefreshTokens.AuthTokens.RevokeRefreshTokenFamily | src/features/shared/auth/application/use-cases/RevokeRefreshTokenFamily.ts:11-20 | Logout leaves the presented token's family dead, and an unknown token changes nothing. |
| RefreshTokens.RefreshToken.ReplaceWith | src/features/shared/auth/domain/entities/RefreshToken.ts:100-105 | Sets the replacement once, and refuses a second. |
| PercentEncoding.DecodeOfEncode | src/shared/cache/keys.ts:28-32 | Decoding undoes the encoding of every text, through UTF-8. |
| PercentEncoding.EncodedIsSafe | src/shared/cache/keys.ts:20-32 | An encoded text has no `:`, no `_` and no `*`, and is empty only for the empty text. |
| CacheKeys.WordsShareExactly | src/shared/cache/keys.ts:9-18 | Two texts share a segment exactly when they are equal after trimming; only a blank text shares the missing value's. |
| CacheKeys.TruthIsItsDigit | src/shared/cache/keys.ts:11 | A flag shares its segment with the text 1 or 0 and with no other. |
| CacheKeys.SlugIs | src/shared/cache/keys.ts:38 | A feature's words, whatever blanks are around and between them, are joined by single hyphens. |
| CacheKeys.VersionField | src/shared/cache/keys.ts:39-43 | A version counts alike with a v, a V or neither; none is version 1, and only an empty one leaves its field out. |
| CacheKeys.NormalizedIsOneField | src/shared/cache/keys.ts:9-18 | No value's segment is empty or holds a colon or a star. |
| CacheKeys.BuildCursorCacheKey | src/shared/cache/keys.ts:54-81 | The loop builds the key whose colon-separated fields are the specified ones. |
| CacheKeys.KeysEqualExactly | src/shared/cache/keys.ts:54-81 | Two keys with the same labels are equal exactly when their normalized values are. |
| RedisPatterns.CursorPatternExactly | src/features/public/metric-log/infrastructure/cache/MetricLogCacheRedis.ts:35-41 | The glob of a user's lists matches a cursor key exactly when it has that feature, user and organization, for ids that are no labels. |
| RedisPatterns.FieldPattern | src/features/public/metric-log/infrastructure/cache/MetricLogCacheRedis.ts:38-46 | A pattern of fields and a star matches exactly the longer keys that begin with those fields. |
| RedisPatterns.TwoStars | src/features/public/metric-log/infrastructure/cache/MetricLogCacheRedis.ts:11-14 | What a pattern with two stars matches, colons included. |
| MetricLogKeys.KeysShareExactly | src/features/public/metric-log/infrastructure/http/cache-keys.ts:23-68 | Any two cached reads, of any kind and tenant, share an entry exactly when user and organization agree and so do the requests' own fields: kind, ids, bounds, filters, sort, limit, cursor, relations asked for, log limit, chart, selected metrics. |
| MetricLogKeys.SameFieldsSameScope | src/features/public/metric-log/infrastructure/http/cache-keys.ts:46-68 | Reads that share an entry are of one tenant, ask the same and are about the same rows. |
| MetricLogRequests.ChartTells | src/features/public/analytics/infrastructure/cache/VisualizationCacheRedis.ts:60-68 | The text hashed for a chart tells the organization, user, metric, bucket, bounds, zone and fill. |
| MetricLogRequests.DashboardTells | src/features/public/analytics/infrastructure/cache/VisualizationCacheRedis.ts:74-82 | The text hashed for a dashboard tells its metrics, in order, and all its other parameters. |
| MetricLogRequests.RelationsTell | src/features/public/metric/infrastructure/http/detail-includes.ts:14-21 | The relations' text in a key tells exactly which relations are loaded. |
| MetricLogRequests.InstantTells | src/features/public/metric-log/infrastructure/http/cache-keys.ts:64-68 | A bound's text tells its instant, and an open bound. |
| MetricLogKeys.PatternExactly | src/features/public/analytics/infrastructure/cache/VisualizationInvalidationAdapter.ts:15-18 | Each of the seven patterns matches exactly the entries of the reads it is for. |
| MetricLogKeys.DeletedExactly | src/features/public/metric-log/infrastructure/cache/MetricLogCacheRedis.ts:26-60 | A write deletes an entry exactly when the ids in the entry's key are spelled as the write spells them. |
| MetricLogKeys.ChangedEntriesExactly | src/features/public/metric-log/application/use-cases/UpdateMetricLog.ts:72-80 | Of the entries a write changes, however it spells the metric, those deleted are exactly the ones whose key spells its id alike: after a write in lower case the lower-case reads' entries, after another all lower-case ones but the metric's own. |
| MetricLogCache.WriteAgrees | src/features/public/metric-log/infrastructure/cache/MetricLogCacheRedis.ts:26-60 | After a write of one log and its invalidation every remaining entry of a lower-case read, of any user, equals what the handler would now answer, but for the own reads of a metric that the last write named in another case. |
| MetricLogCache.GeneratedAgrees | src/features/public/metric-log/application/use-cases/GenerateDummyMetricLogsHandler.ts:94-127 | So it does after many new logs, though no log's own entry is deleted. |
| MetricLogCache.StoringAgrees | src/shared/middleware/cache.ts:53-69 | Storing a computed 200 keeps the agreement of every entry with what a handler of the whole request would answer, whatever else shares its key. |
| MetricLogCache.OtherCaseGoesStale | src/constants/zod/zod-rules.ts:24-31 | An entry read under another case survives a write that changes its answer. |
| MetricLogCache.OtherCaseWriteGoesStale | src/features/public/metric-log/application/use-cases/CreateMetricLog.ts:64-66 | A lower-case entry of the metric's own reads survives a write that changes its answer and names the metric in another case. |
| MetricLogCache.Server.Read | src/shared/middleware/cache.ts:33-71 | A lower-case read answers what the handler of the whole request would compute now, from the cache or not, unless it is a spoilt metric's own; what is stored is answered, anything else is computed, only a 200 is stored, and no empty dashboard. |
| MetricLogCache.Server.Invalidate | src/features/public/metric-log/infrastructure/cache/MetricLogCacheRedis.ts:26-60 | Leaves exactly the entries that no pattern of the footprint matches. |
| MetricLogCache.Server.Create | src/features/public/metric-log/application/use-cases/CreateMetricLog.ts:27-69 | Not found, forbidden, invalid or in conflict exactly as the metric, its owner, the timestamp and another log of the metric at it say, and otherwise done with a new id; keeps the agreement, and spoils the metric exactly when its id is not in lower case. |
| MetricLogCache.Server.Update | src/features/public/metric-log/application/use-cases/UpdateMetricLog.ts:28-82 | Not found exactly for another's or no log, invalid exactly for a value out of range or no date, in conflict exactly with another log of the metric at the new time, and otherwise done; never moves it to another metric, keeps the agreement for any spelling of the id, and its metric is spoilt no more. |
| MetricLogCache.Server.Delete | src/features/public/metric-log/application/use-cases/DeleteMetricLog.ts:18-27 | Removes exactly that log, keeps the agreement, and its metric is spoilt no more. |
| MetricLogCache.Server.Generate | src/features/public/metric-log/application/use-cases/GenerateDummyMetricLogsHandler.ts:77-128 | Adds all the rows or none, none for a duplicate, and clears the caches either way; keeps the agreement, and spoils the metric exactly when its id is not in lower case. |
| MetricLogCache.Serve | src/features/public/metric-log/infrastructure/http/cache-keys.ts:23-68 | In every serial run of reads, writes and expiries, for any handler of the validated request and the rows it sees, the cache agrees with recomputation throughout, but for the own reads of metrics that a create or job of the run named in another case. |
| KeysetPagination.ListByCursor | src/features/public/metric-settings/infrastructure/persistence/MetricSettingsRepositorySequelize.ts:154-243 | The page is the first min(size, rows left) rows of the asking user and organization that meet the filters and come past a cursor of the same sort: by the column the text names, never decreasing, never increasing behind a minus, ids breaking ties the same way, any other text by createdAt descending; size is the limit, 20 for none or zero, held to 1..100; the next cursor is the last row's place, just when more are left. |
| KeysetPagination.ReadExactlyOnce | src/features/public/metric-settings/infrastructure/persistence/MetricSettingsRepositorySequelize.ts:154-307 | Following the cursor to its end, a row that matches throughout and keeps its key is read exactly once, whatever changes between the pages. |
| KeysetPagination.WalkAscends | src/features/public/metric-settings/infrastructure/persistence/MetricSettingsRepositorySequelize.ts:245-307 | The pages together are strictly sorted, under any changes. |
| KeysetPagination.FixedTableWhole | src/features/public/metric-settings/infrastructure/persistence/MetricSettingsRepositorySequelize.ts:154-214 | On a fixed table the pages together are the whole sorted, filtered list. |
| KeysetPagination.FixedTableEnds | src/features/public/metric-settings/infrastructure/persistence/MetricSettingsRepositorySequelize.ts:188-203 | On a fixed table the cursor ends. |
| KeysetPagination.SelectIsSorted | src/features/public/metric-settings/infrastructure/persistence/MetricSettingsRepositorySequelize.ts:179-186 | The query returns exactly the matching rows, strictly sorted. |
| KeysetPagination.WhereIsPast | src/features/public/metric-settings/infrastructure/persistence/MetricSettingsRepositorySequelize.ts:245-286 | The cursor predicate keeps exactly the rows after the cursor in the list's own order, in both directions. |
| KeysetPagination.CursorStandsExactly | src/features/public/metric-settings/infrastructure/persistence/MetricSettingsRepositorySequelize.ts:197-202 | A cursor stands at its own row exactly when the row's sort key is whole milliseconds or isActive. |
| KeysetPagination.FractionExactly | src/features/public/metric-settings/infrastructure/persistence/MetricSettingsRepositorySequelize.ts:253-275 | Which rows a page's cursor repeats or skips, exactly: a descending list skips the later rows whose key is above the cursor's or equals it with an id no less, an ascending one repeats the shown rows above it or equal with a greater id; no other row is misplaced. |
| KeysetPagination.FractionRepeatsOrSkips | src/features/public/metric-settings/infrastructure/persistence/MetricSettingsRepositorySequelize.ts:253-275 | So, from a key with a fraction of a millisecond, an ascending list repeats the last row and a descending one skips the later rows of its millisecond above the whole. |
| ReadinessProbe.AnyOrder | src/shared/utils/readiness-probe.ts:33-80 | Over any events with a non-decreasing clock: starts a window apart, at most L / windowMs + 1 runs in a span of L, no check with two promises outstanding. |
| ReadinessProbe.Probe.Call | src/shared/utils/readiness-probe.ts:70-80 | The answer is the last result exactly when that is younger than the window, else the one current run, started only if none was. |
| ReadinessProbe.Probe.Resolve | src/shared/utils/readiness-probe.ts:47-55 | A run's promise takes its first outcome, and an outcome of another run changes nothing. |
| ReadinessProbe.Probe.StartChecks | src/shared/utils/readiness-probe.ts:38-56 | Exactly the checks that do not hang are started; a hanging one fails at once. |
| ReadinessProbe.Probe.Complete | src/shared/utils/readiness-probe.ts:58-68 | Stores the run's statuses at its end; a status is ok only if that run's own check resolved. |
| ReadinessProbe.StartsAreSpaced | src/shared/utils/readiness-probe.ts:70-80 | Runs one at a time whose next begins a window after the last end are spaced by the window. |
| ReadinessProbe.RateBound | src/shared/utils/readiness-probe.ts:18-26 | Starts a window apart are at most L / window + 1 in any span of L. |
| IpAddressKeys.EveryFormGivesTheAddress | src/shared/middleware/rate-limiter.ts:13-29 | Every text form of section 2.2 of RFC 4291, compressed anywhere, with a dotted tail or a zone id on its line, gives the same eight groups. |
| IpAddressKeys.KeysEqualExactly | src/shared/middleware/rate-limiter.ts:38-57 | Two clients have one key exactly when one network (see `NetworkIs`) is both of theirs: an IPv4 address, direct or IPv4-mapped, or a /64. |
| IpAddressKeys.KeyIsOfNetwork | src/shared/middleware/rate-limiter.ts:38-57 | A client's key depends on its network alone, however its address is written. |
| IpAddressKeys.NetworkIs | src/shared/middleware/rate-limiter.ts:42-57 | An IPv6 address is of the IPv4 host a.b.c.d exactly when its groups are five zeros, ffff, 256a + b and 256c + d; of any other, the network is its first four groups. |
| IpAddressKeys.BrokenZoneIsItsOwnKey | src/shared/middleware/rate-limiter.ts:14-15 | When a line end follows the only percent sign, nothing is stripped, so the text is no address and is itself the key. |
| IpAddressKeys.GroupIs | src/shared/middleware/rate-limiter.ts:28 | A written group is worth n when it is n in hex, with any leading zeros and in either case. |

## Left out

- Express routing, controllers, DTOs, schemas and OpenAPI: plumbing around libraries.
- The brokers themselves: that a confirmed publish is stored, a dead letter is routed by the declarations and an insert blocks on an uncommitted key are taken as the steps' own rules.
- JobWorker.Worker.Handle: a process death inside it is the protocol's crash step, not a branch of the method, and an ack that throws on a closed channel may also be lost silently; both orders are steps.
- JobWorker.Worker.RunOnce: an insert that is still blocked when it is tried again fails, as a lock timeout does; waiting longer is the await before it.
- JobInvariants.NoJobIsLost: queues are never deleted or purged, and a parked message stays parked; an operator's handling of parking is not part of the model.
- JobWorker.Worker.PublishOrRun: the invite row's deletion on failure and the content of reset, invite and verification tokens are not modelled; that no email is sent twice for one commit is, that an email is sent once is not promised by the code, since a send can precede a rollback.
- PublisherReturns.ConfirmedMeansRouted: assumes ids apart, which the code meets but for a retry published while a copy of it is; the publish timeout is a rejection like any other.
- ConsumerLifecycle.AnyOrder: prefetch and the channel's own close in `close` are not modelled.
- Zones.WallTimeOf: years before 1, which Intl prints without a sign, are not modelled.
- Zones.InstantOf: the wall times inside it are exact, so its result is not claimed for wall times in the years 0 to 99.
- RelativeRange.StartAtMostEnd: an end past the range of Date throws in the code and is not modelled, nor is the rounding of products above 2^53.
- FallbackRange.GuardHolds: bounds the estimate, not the number of rows of a month or year series.
- Binning.SummaryIsOfRawLogs: values are reals, so floating-point rounding in averages is not modelled; the dashboard's own query over many metrics is not modelled, only its rows' summary.
- RefreshTokens.InvAlways: interleavings inside one database transaction are not modelled; hashes and random ids are new ones, and organization ids are not empty.
- CacheKeys.KeysEqualExactly: a number is the text String() gives it; unpaired surrogates, on which encoding throws, are not modelled.
- RedisPatterns.CursorPatternExactly: of the Redis glob only `*` is modelled; ids hold none of its other signs.
- MetricLogCache.Serve: concurrent requests, Redis outages, other users' reads of public metrics and writes by other features are not modelled; the code promises no agreement there beyond the time to live.
- MetricLogRequests.ChartTells: SHA-1 cut to 16 characters is taken to have no collisions; the encoded text stands for it.
- MetricLogKeys.KeysShareExactly: a bound of Stats is taken as the instant Date.parse gives it, which the handler reads too.
- KeysetPagination.ReadExactlyOnce: the cursor's JSON and base64url are not modelled, an undecodable one being absent; a UUID is a number in byte order.
- ReadinessProbe.AnyOrder: a clock set back is outside the stated results, though the code's guard for it is modelled.
- KeysetPagination.ListByCursor: the optional total count and the entity mapping are not modelled.
- Rate-limit keys of texts that are no address: the key is the text itself, which needs no result.
- Log scrubbing, environment parsing, shutdown helpers, last-owner checks, JWT and bcrypt: shallow next to these cores.
