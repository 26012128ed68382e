# Events processor: model and proofs

The events processor consumes raw usage events from Kafka, enriches each with its billable
metric, its subscription and the charges of the subscription's plan, pushes the results to other
topics, flags the subscription for a refresh, expires cached charge usage, and commits offsets.
This project models that path and proves what it promises.

* **Delivery** — `Workers` (the goroutines of one batch and their shared list), `Commit` (which
  offset a batch commits), `Delivery` (batch after batch, assignment after assignment) and
  `Lifecycle` (assignment, dispatch, loss and shutdown of partition consumers, as a step relation
  in which all goroutines interleave freely).
* **Cache** — `Times`, `ChangeLog`, `Convergence` (snapshot plus replay for the five tables that
  drop deleted rows), `SoftDelete` and `Expiry` (the same for subscriptions, which keep terminated
  rows for a while), `TableCache` (the store as the program updates it, start-up end to end),
  `Keys`, `Scan`, `Entities` (keys, prefix search, the six tables).
* **Enrichment** — `Timestamps`, `Subscriptions` (the search against the SQL query it replaces),
  `FlatFilterJoin` (the join over five tables), `Filters` (the most specific filter), `CachedChoice`
  (both together), `Results`, `Enrichment`, `Processor` (what is pushed, flagged and expired for an
  event and its record), `EffectOrder` (whether the order of the charges matters), `Pipeline` (from
  the cached tables to the pushes, while these change).
* **Small pieces** — `FlagStore` (the debounced sorted set), `PostgresArray` (the array parser),
  `Text`, `Options`.

## What the proofs say about the code

Where a promise does not hold on all inputs, the exact condition is proved, and a lemma gives an
input for which it fails.

* A later batch's commit can step over a record that an earlier batch left for a retry; the record
  is then lost to this consumer group. A session loses nothing exactly when no batch commits after
  one with a gap (`Delivery.SkipsNothingExactlyWhen`, `Delivery.GapCanBeSteppedOver`).
* Replaying the change log over a newer snapshot converges exactly when the last image of every
  live row is newer, in milliseconds, than its earlier images since its last deletion, or equal to
  them. Updates within one millisecond can be dropped. Reviving a deleted id is harmless, and times
  of different ids need not be ordered (`Convergence.ConvergesExactlyWhen`,
  `Convergence.SameMillisecondUpdateIsLost`).
* A subscription that neither the snapshot nor the log shows before its termination is never cached
  (`SoftDelete.ConvergesExactlyWhen`, `SoftDelete.FirstSeenTerminatedIsLost`). Expiry never removes
  a row that is not terminated and never brings back a stale one (`Expiry.ServesExactlyWhen`,
  `Expiry.SameMillisecondUpdateIsLost`).
* A colon in an external subscription id lets a search for a shorter id hit the row
  (`Keys.ExternalIdHits`, `Subscriptions.ColonReachesAnotherSubscription`).
* For event times on a millisecond boundary the cache misses the rows the query admits that start
  within the following millisecond, and no others, so its answer can differ from the query's;
  RFC 3339 times, which are not truncated, widen the difference (`Subscriptions.AlignedGap`,
  `Subscriptions.RefinesSqlExactlyWhen`, `Subscriptions.StartingSubscriptionIsMissed`,
  `Subscriptions.UnalignedTimesDiffer`).
* Enrichment reads the metric twice, and the change consumers may remove it in between; the event
  then fails, to be retried, though the metric was found (`Pipeline.CachedFailures`,
  `Pipeline.MetricCanGoInBetween`).
* When no filter of a charge matches, the default bucket takes its pricing keys from whichever
  filter comes first, so the result can depend on their order; it does not exactly when there is
  one possible winner (`Filters.OrderFreeExactlyWhen`, `Filters.DefaultBucketDependsOnOrder`). With
  the cache as source that filter is the one with the least key
  (`CachedChoice.DefaultBucketOfCachedCharge`).
* The enriched push and the in-advance push carry the copy for whichever charge is visited first,
  so with two or more charges they depend on the order (`EffectOrder.EffectsOrderFreeExactlyWhen`).
* The seconds and the time of an event can name different milliseconds, before 1970 and for numbers
  with a fraction of a millisecond (`Timestamps.SecondsAndTimeAgreeExactlyWhen`,
  `Timestamps.HalfMillisecondBefore1970`).
* The name under which a processed record is indexed, key and offset joined by a hyphen, is
  ambiguous only between an offset and its negative (`Commit.NameCollision`,
  `Commit.NamesCanCollide`).
* The array parser drops empty elements, splits at commas inside quotes, keeps the backslashes with
  which PostgreSQL escapes quotes and backslashes, and trims space characters outside ASCII from
  unquoted elements; it reads back exactly the arrays in which none of these occurs (`PostgresArray.RoundTripExactlyWhen`, `PostgresArray.QuoteIsReadWithBackslash`).
* The comment in `events-processor/models/stores.go` says that a member waits after the last event
  of its window. That is so up to the end of the window: a flag is answered by the first full poll
  from nine seconds plus the consumer's delay on, and nine is exact (`FlagStore.AnsweredInTime`,
  `FlagStore.BoundIsTight`).

## Model

| member | source | states |
|---|---|---|
| `Workers.StepKeepsInv` | events-processor/processors/events_processor/processor.go:45-94 | every step of every worker keeps: the mutex is held by the one worker in its critical section, what it has read of the shared list is the list, and the list holds each finished settled record once |
| `Workers.NeverStuck` | events-processor/processors/events_processor/processor.go:45-97 | while a worker is not done some worker can move |
| `Workers.PoolFinishes` | events-processor/processors/events_processor/processor.go:45-98 | every run is finite, at most five steps a record, and can only end with all workers done |
| `Workers.ReturnsSettledOnce` | events-processor/processors/events_processor/processor.go:40-98 | for every interleaving the returned list holds each settled record exactly once and no other |
| `Workers.PickedIsBatch` | events-processor/config/kafka/consumer.go:89-92 | what the workers return is what the committer needs: records of the batch, none twice |
| `Workers.BatchCommitsSettledPrefix` | events-processor/config/kafka/consumer.go:82-104 | for every interleaving the position committed after a batch ends its longest prefix of settled records, and the lengths agree exactly when every record is settled |
| `Commit.NameCollision` | events-processor/config/kafka/consumer.go:282 | two records have one name exactly when key and offset agree, or one offset is the other's negative and its hyphen ends the key |
| `Commit.NamesCanCollide` | events-processor/config/kafka/consumer.go:282 | two different records with one name |
| `Commit.IndexProcessed` | events-processor/config/kafka/consumer.go:279-284 | the index holds exactly the names of the processed records |
| `Commit.MinUnprocessed` | events-processor/config/kafka/consumer.go:287-298 | the lowest offset of a record whose name is not indexed, or the largest offset if there is none |
| `Commit.FindMaxCommitableRecord` | events-processor/config/kafka/consumer.go:278-308 | for any inputs the record returned is a safe processed one of the highest offset, and none is returned only if none is safe |
| `Commit.LargestSafePrefix` | events-processor/config/kafka/consumer.go:274-308 | on a batch: everything at or below the chosen record is processed, no processed record above it has that property, and there is no choice exactly when none has it |
| `Commit.AllProcessedWhenAsMany` | events-processor/config/kafka/consumer.go:92 | comparing lengths is a sound and complete test for "all processed" |
| `Commit.MaxCommitableIsLeadingEnd` | events-processor/config/kafka/consumer.go:92-101 | the chosen record ends the longest processed prefix |
| `Commit.ProcessRecordsAndCommit` | events-processor/config/kafka/consumer.go:82-109 | either branch commits the end of the longest processed prefix, or nothing when that is empty |
| `Commit.HighestOffset` | events-processor/config/kafka/consumer.go:104 | committing records means the position after the highest of their offsets |
| `Delivery.HandledFacts` | events-processor/config/kafka/consumer.go:82-109 | a batch moves the position forward past its first record, or leaves it; the position never passes an unprocessed record of that batch |
| `Delivery.PositionNeverDecreases` | events-processor/config/kafka/consumer.go:82-109 | along a session the committed position never goes back |
| `Delivery.NoCommitNoMove` | events-processor/config/kafka/consumer.go:96-100 | the position moves only when a batch's first record was processed |
| `Delivery.SkippedMeansSteppedOver` | events-processor/config/kafka/consumer.go:82-109 | an unprocessed record lies below the final position exactly when a later batch committed |
| `Delivery.SkipsNothingExactlyWhen` | events-processor/config/kafka/consumer.go:82-109 | nothing unprocessed lies below the final position exactly when no batch commits after one with a gap |
| `Delivery.GapCanBeSteppedOver` | events-processor/config/kafka/consumer.go:96-100 | a session that loses a record |
| `Delivery.SessionProcessesItsStretch` | events-processor/config/kafka/consumer.go:82-109 | a session that stops at its first gap has processed every record of the log between its two positions |
| `Delivery.AtLeastOnce` | events-processor/config/kafka/consumer.go:82-109 | over any number of reassignments, sessions that stop at their first gap process every record between the first and the last position at least once |
| `Lifecycle.StepKeepsInv` | events-processor/config/kafka/consumer.go:51-80 | every action of poller, callbacks, workers and shutdown keeps the invariant of the group |
| `Lifecycle.ReachableHasInv` | events-processor/config/kafka/consumer.go:111-225 | the invariant holds in every reachable state |
| `Lifecycle.OneWorkerPerPartition` | events-processor/config/kafka/consumer.go:111-150 | at most one worker of a partition is running in any reachable state |
| `Lifecycle.NoWorkerAfterLoss` | events-processor/config/kafka/consumer.go:132-150 | once `lost` has returned and until a partition is assigned again, no worker of it runs |
| `Lifecycle.NoBatchAfterLoss` | events-processor/config/kafka/consumer.go:132-205 | a consumer out of the map gets no further batch, never comes back, and only winds down |
| `Lifecycle.QuitClosedAtMostOnce` | events-processor/config/kafka/consumer.go:76-80 | the quit channel is closed at most once in every reachable state |
| `Lifecycle.BothCanAskToQuit` | events-processor/config/kafka/consumer.go:132-225 | a reachable state in which both shutdown and `lost` have asked one consumer to quit, and its channel was closed once |
| `Lifecycle.DispatchNeverStuck` | events-processor/config/kafka/consumer.go:190-203 | in every reachable state a dispatch can be brought nearer to its end |
| `Lifecycle.DispatchWorkNeverRises` | events-processor/config/kafka/consumer.go:190-203 | no action of anybody sets a dispatch back |
| `Lifecycle.BatchReachesItsWorker` | events-processor/config/kafka/consumer.go:190-203 | every batch fetched of a partition that is held is handed to that partition's worker before the dispatch ends, unless the context is done |
| `Lifecycle.LossNeverStuck` | events-processor/config/kafka/consumer.go:132-150 | in every reachable state a running `lost` callback can be brought nearer to its return |
| `Lifecycle.LossWorkNeverRises` | events-processor/config/kafka/consumer.go:132-150 | no action of anybody makes `lost` wait longer; its own actions and those of awaited workers shorten the wait |
| `Lifecycle.ShutdownAwaitsEveryWorker` | events-processor/config/kafka/consumer.go:207-225 | in every run the client is closed only after the worker of every partition held when the shutdown began has exited |
| `Lifecycle.ShutdownNeverStuck` | events-processor/config/kafka/consumer.go:207-225 | in every reachable state a shutdown under way can be brought nearer to its end |
| `Lifecycle.ShutdownWorkNeverRises` | events-processor/config/kafka/consumer.go:207-225 | no action of anybody makes the shutdown wait longer, though a dispatch under way may still give a batch to a worker told to quit; its own actions and those of awaited workers shorten the wait |
| `Times.ThroughJson` | events-processor/utils/time.go:133-172 | an instant stored in microseconds and read back is at most a microsecond earlier and in the same millisecond |
| `Times.NestedFloor` | events-processor/utils/time.go:133-172 | flooring to microseconds first does not change the floor to milliseconds |
| `Times.TruncatedComparisons` | events-processor/models/subscriptions.go:29-34 | comparisons of a truncated column restated on the raw column |
| `Times.TickOf` | events-processor/utils/time.go:133-172 | an instant lies in the millisecond it is truncated to, and truncation spares exactly the multiples of a millisecond |
| `ChangeLog.KeyContainsIdGivesOneLiveRow` | events-processor/cache/charges.go:18-20 | a key that contains the row id never has two live rows |
| `Convergence.HoldsLiveIsUnique` | events-processor/cache/cache.go:231-274 | there is one cache that holds exactly the live rows of a position |
| `Convergence.HoldsLiveKeeps` | events-processor/cache/cache.go:131-145 | a cache that holds the live rows has each under its key with all its columns as the log has them, and its update time less than a microsecond earlier |
| `Convergence.SnapshotThenReplay` | events-processor/cache/consumer.go:92-175 | if every last write is the newest, a snapshot as of n and a replay from any m up to n end with exactly the live rows of the whole log |
| `Convergence.StaleImageSurvives` | events-processor/cache/consumer.go:146-158 | otherwise a snapshot and a position exist whose replay keeps a stale row |
| `Convergence.ConvergesExactlyWhen` | events-processor/cache/consumer.go:92-175 | snapshot plus replay always converges if and only if every last write is the newest |
| `Convergence.SameMillisecondUpdateIsLost` | events-processor/cache/consumer.go:146-158 | a log of two updates within one millisecond that does not converge |
| `Convergence.KeyChangeLeavesStaleEntry` | events-processor/cache/consumer.go:107-175 | without stable keys convergence fails |
| `Convergence.TwoLiveRowsOnOneKeyCollide` | events-processor/cache/billable_metrics.go:18-20 | with two live rows on one key it fails |
| `Convergence.ApplyIdempotent` | events-processor/cache/consumer.go:92-175 | applying a change twice is applying it once |
| `Convergence.ApplyIsLocal` | events-processor/cache/consumer.go:109-144 | a change touches no other key, and a deletion never removes a row of another id |
| `Convergence.EntriesOnlyFreshen` | events-processor/cache/consumer.go:146-158 | without a deletion on its key an entry stays and its millisecond time never falls |
| `SoftDelete.SnapshotThenReplay` | events-processor/cache/subscriptions.go:119-183 | under the termination rule a replay ends with the newest image of every row, terminated ones included |
| `SoftDelete.ConvergesExactlyWhen` | events-processor/cache/subscriptions.go:119-183 | as long as nothing expires, the subscription cache always converges if and only if the rule holds |
| `SoftDelete.HoldsNewestKeeps` | events-processor/cache/cache.go:131-145 | the same of a cache that holds the newest images: no column of any of them is lost |
| `SoftDelete.FirstSeenTerminatedIsLost` | events-processor/cache/consumer.go:109-112 | a log with one termination of a row never seen before that does not converge |
| `Expiry.PartialSnapshotThenReplay` | events-processor/models/subscriptions.go:54-77 | a replay from a snapshot with any part of the terminated rows, with anything expiring on the way, serves the newest images |
| `Expiry.ServesExactlyWhen` | events-processor/cache/cache.go:158-175 | whatever part of the terminated rows the snapshot has and whatever expires and when, a replay always ends with every unterminated row served by its newest image and nothing stale if and only if such a row's last write is newer than all since its last termination |
| `Expiry.ServesNewestKeeps` | events-processor/cache/cache.go:131-145 | the same of a cache that serves the newest images |
| `Expiry.SameMillisecondUpdateIsLost` | events-processor/cache/consumer.go:146-158 | a log of two updates within one millisecond after which a stale row is served |
| `TableCache.Table.Set` | events-processor/cache/cache.go:131-145 | the entry is overwritten by the row, all columns kept and the time less than a microsecond earlier, and loses its time to live |
| `TableCache.Table.Delete` | events-processor/cache/cache.go:147-175 | the entry is dropped, or replaced by the terminated row with thirty days to live |
| `TableCache.Table.Expire` | events-processor/cache/cache.go:158-175 | only entries of terminated rows whose time is up go, and none with a time in the past is left |
| `TableCache.Table.ProcessRecord` | events-processor/cache/consumer.go:92-175 | the store becomes what one change makes of it, a record that does not decode changes nothing, and a new expiry is thirty days after a termination |
| `TableCache.Table.LoadSnapshot` | events-processor/cache/cache.go:231-274 | the rows are written in turn, those without a key skipped, and the count is of those written |
| `TableCache.CountKeyedIsCount` | events-processor/cache/cache.go:245-262 | the number reported is that of the rows with a key |
| `TableCache.Table.ConsumeFrom` | events-processor/cache/consumer.go:58-87 | in a table that drops rows the consumer loop amounts to the replay of the records that decode |
| `TableCache.Table.ConsumeSubscriptionsFrom` | events-processor/cache/consumer.go:58-87 | the consumer loop with expiry is a replay with expiry of the records that decode, and one without if the clock stays within one time to live |
| `TableCache.SnapshotIsLive` | events-processor/cache/cache.go:231-274 | loading the live rows, in any order, gives the cache that holds exactly them |
| `TableCache.SnapshotIsNewest` | events-processor/cache/subscriptions.go:130-150 | a subscription snapshot with all terminated rows gives the cache of all newest images |
| `TableCache.SnapshotServes` | events-processor/models/subscriptions.go:54-77 | a subscription snapshot cut to the terminated rows of the last month serves every unterminated row and nothing stale |
| `TableCache.KeysContainIds` | events-processor/cache/subscriptions.go:21-23 | the log of any table but the metrics' meets the hypothesis that keys contain ids |
| `TableCache.WarmUp` | events-processor/main.go:77-78 | start-up end to end: load, then consume from an older position, with records that do not decode in between, leaves exactly the live rows with all their columns |
| `TableCache.WarmUpSubscriptions` | events-processor/main.go:77-78 | the same for subscriptions from a snapshot cut at a month: every unterminated row by its newest image, columns and all, and nothing stale; and all terminated rows too if none was cut and the replay takes less than the time to live |
| `Keys.JoinInjective` | events-processor/cache/charges.go:18-20 | keys with colon-free components, all but the last, are injective |
| `Keys.PrefixHits` | events-processor/cache/charges.go:32-35 | a prefix search hits exactly the keys with the leading components sought |
| `Keys.OtherTableMisses` | events-processor/cache/charge_filters.go:32-35 | a search of one table hits no key of another |
| `Keys.ExternalIdHits` | events-processor/cache/subscriptions.go:21-47 | a search for an external id hits exactly it and those that continue it with a colon |
| `Scan.PrefixedKeysAreContiguous` | events-processor/cache/cache.go:207-208 | keys with a prefix are contiguous in the store's order and start at the prefix |
| `Scan.BeforeIsLexicographic` | events-processor/cache/cache.go:207-208 | one key is before another exactly when it is a proper prefix of it or smaller at the first character that differs |
| `Scan.ListingIsUnique` | events-processor/cache/cache.go:207-208 | a set of keys has one listing in store order |
| `Scan.Least` | events-processor/cache/cache.go:208 | seek and next give the least key at or after, or after, a position |
| `Scan.Search` | events-processor/cache/cache.go:199-229 | the rows under the prefix, all of them, in key order |
| `Entities.TablesAreDisjoint` | events-processor/cache/billable_metrics.go:18-20 | rows of two of the six tables never share a key |
| `Entities.KeyDeterminesParts` | events-processor/cache/charge_filter_values.go:18-20 | rows of one table share a key only if parents and id agree |
| `Entities.EqualKeysEqualIds` | events-processor/cache/subscriptions.go:21-23 | rows with one key have one id in every table but the metrics', whatever external ids customers chose |
| `Entities.SearchHits` | events-processor/cache/charge_filter_values.go:32-35 | a search by leading components hits exactly that table's rows with those components |
| `Entities.SearchMetricFilters` | events-processor/cache/billable_metric_filters.go:32-36 | exactly the metric's filters, in key order |
| `Entities.SearchCharge` | events-processor/cache/charges.go:32-35 | exactly the charges of the plan and metric, in key order |
| `Entities.SearchChargeFilter` | events-processor/cache/charge_filters.go:32-35 | exactly the charge's filters, in key order |
| `Entities.SearchChargeFilterValue` | events-processor/cache/charge_filter_values.go:32-35 | exactly the charge filter's values, in key order |
| `Timestamps.ConversionsFailTogether` | events-processor/utils/time.go:14-78 | both conversions fail on the same timestamps |
| `Timestamps.NumbersAreAligned` | events-processor/utils/time.go:14-49 | every timestamp but an RFC 3339 date gives a time on a millisecond boundary |
| `Timestamps.TimeOf` | events-processor/utils/time.go:14-49 | which instant each kind of timestamp names, a date to the nanosecond and a number to its millisecond |
| `Timestamps.SecondsOf` | events-processor/utils/time.go:51-78 | which seconds each kind gives, a text cut to the millisecond: numbers towards zero, dates downwards |
| `Timestamps.SecondsAndTimeAgreeExactlyWhen` | events-processor/utils/time.go:14-78 | for every kind of timestamp, exactly when the two conversions name one millisecond |
| `Timestamps.HalfMillisecondBefore1970` | events-processor/utils/time.go:24-78 | a text and a number for which they do not |
| `Subscriptions.KeepEligible` | events-processor/cache/subscriptions.go:54-68 | exactly the rows started at or before the time and not terminated before it |
| `Subscriptions.RankingIsAnOrder` | events-processor/cache/subscriptions.go:70-101 | unterminated rows come before terminated ones, later terminated ones before earlier, equally terminated ones by the later start; and this is a strict weak order |
| `Subscriptions.Prefer` | events-processor/cache/subscriptions.go:71-101 | the branches keep the row that comes first under the query's order |
| `Subscriptions.KeepBest` | events-processor/cache/subscriptions.go:70-101 | one pass finds a row that none outranks |
| `Subscriptions.SearchSubscriptions` | events-processor/cache/subscriptions.go:45-117 | a first row among the eligible ones hit, and not found exactly when none is eligible |
| `Subscriptions.AnswerIndependentOfOrder` | events-processor/cache/subscriptions.go:70-101 | answers from different enumeration orders rank the same, and are equal when eligible rows do not tie |
| `Subscriptions.EligibilityGap` | events-processor/models/subscriptions.go:29-34 | exactly the rows that one of cache and query admits and the other does not, for every event time |
| `Subscriptions.AlignedGap` | events-processor/models/subscriptions.go:29-34 | on a millisecond boundary the query admits exactly the cache's rows and those that start within the next millisecond |
| `Subscriptions.RefinesSqlExactlyWhen` | events-processor/models/subscriptions.go:29-42 | the cache's answer answers the query if and only if every row that starts within the next millisecond is matched by one that has started and that it does not outrank |
| `Subscriptions.RefinesSqlByAnswer` | events-processor/models/subscriptions.go:29-42 | the same in terms of the answer |
| `Subscriptions.StartingSubscriptionIsMissed` | events-processor/cache/subscriptions.go:60-62 | an event time on a millisecond boundary and a row that the query gives while the cache finds nothing |
| `Subscriptions.UnalignedTimesDiffer` | events-processor/models/subscriptions.go:33 | off the boundary the cache can admit a row the query rejects |
| `Subscriptions.HitsExactlyWhen` | events-processor/cache/subscriptions.go:45-47 | the search finds exactly the subscriptions of the external id if and only if none of the organization continues it with a colon |
| `Subscriptions.ColonReachesAnotherSubscription` | events-processor/cache/subscriptions.go:45-47 | a store in which an event gets another external id's subscription |
| `FlatFilterJoin.JoinedIsLast` | events-processor/cache/flat_filters.go:63-84 | a charge filter's map has a key exactly when some value row joins a metric filter of that key, and holds what the last such row stands for, the all-values marker expanded |
| `FlatFilterJoin.JoinedByFields` | events-processor/cache/flat_filters.go:63-84 | the same by columns: the last value row that names a key decides, with its own values, or with all those of the metric filter if it lists the all-values marker |
| `FlatFilterJoin.FilterMapKeys` | events-processor/cache/flat_filters.go:51-84 | the keys of a charge filter in the cache are those of the metric filters of the same metric that its value rows name |
| `FlatFilterJoin.IndexIsFaithful` | events-processor/cache/flat_filters.go:26-29 | the index by id holds exactly the metric's filters |
| `FlatFilterJoin.MetricKey` | events-processor/cache/flat_filters.go:13-17 | the row under a metric's key is that organization's metric with that code |
| `FlatFilterJoin.BuildFlatFilters` | events-processor/cache/flat_filters.go:10-105 | the nested loops compute the join of what each search sees, whichever states of the cache these are, and fail exactly when the metric is not cached |
| `FlatFilterJoin.JoinIsTheRelation` | events-processor/cache/flat_filters.go:37-102 | a row is in the join if and only if it comes from a matching charge and one of its filters, or from a charge without filters |
| `FlatFilterJoin.JoinedFields` | events-processor/cache/flat_filters.go:37-102 | the same field by field: a row carries the id, time and payment flags of a charge of the plan and metric, with the pricing keys of that charge and no filter, or with the id, time, pricing keys and map of one of its filters; and every such row is in the join |
| `FlatFilterJoin.JoinListsNoPairTwice` | events-processor/cache/flat_filters.go:37-102 | no charge and filter are listed twice |
| `Filters.IsMatchingEvent` | events-processor/models/flat_filters.go:144-163 | true exactly when every key of the filter is a property with one of the listed values, whatever order the keys come in |
| `Filters.Keys` | events-processor/models/flat_filters.go:125-138 | the keys of the filter, each once |
| `Filters.CollectCandidates` | events-processor/models/flat_filters.go:194-201 | the filters with keys that match, in order |
| `Filters.KeptIsBest` | events-processor/models/flat_filters.go:207-224 | the walk keeps the first of the matching filters with the most keys |
| `Filters.MatchingFilter` | events-processor/models/flat_filters.go:180-227 | the first most specific matching filter, or the first filter's default bucket exactly when none with keys matches |
| `Filters.ChoiceFields` | events-processor/models/flat_filters.go:165-227 | the choice by fields: if nothing matches, the first filter without filter id, time and values and otherwise unchanged; if not, one of the list, each of whose keys is a property with a listed value, and with the most keys of all that match |
| `Filters.NoCandidateFields` | events-processor/models/flat_filters.go:144-201 | nothing matches exactly when every filter has no keys or a key without a listed property |
| `Filters.ChoiceIsUnique` | events-processor/models/flat_filters.go:180-227 | that describes one result |
| `Filters.LessSpecificIsNeverChosen` | events-processor/models/flat_filters.go:207-224 | a match whose keys are strictly among those of another match is never chosen |
| `Filters.WinnersAreTheChoices` | events-processor/models/flat_filters.go:180-227 | the results over all orders of the list are exactly the winners |
| `Filters.OrderFreeExactlyWhen` | events-processor/models/flat_filters.go:180-227 | the result does not depend on the order if and only if there is one winner |
| `Filters.DefaultBucketDependsOnOrder` | events-processor/models/flat_filters.go:203-205 | two filters of one charge and an event for which the order matters |
| `CachedChoice.GroupOfCharge` | events-processor/processors/events_processor/enrichment_service.go:151-158 | the group of a cached charge in the join is its own rows |
| `CachedChoice.DefaultBucketOfCachedCharge` | events-processor/models/flat_filters.go:165-205 | a cached charge none of whose filters match is grouped by the keys of its filter with the least key, which are the charge's own if and only if that filter has the same ones |
| `Enrichment.GroupingHolds` | events-processor/processors/events_processor/enrichment_service.go:189-198 | the loop over pricing keys groups by exactly these keys, a missing property as the empty text |
| `Enrichment.GroupedByKeysAndWallet` | events-processor/processors/events_processor/enrichment_service.go:184-208 | a copy is grouped by exactly its filter's pricing keys and, when the filter accepts one and the event names one, the target wallet |
| `Enrichment.EnrichWithPricingGroupKeys` | events-processor/processors/events_processor/enrichment_service.go:184-208 | the loop and the wallet branch give the copy that belongs to the filter |
| `Enrichment.GroupsConserveFilters` | events-processor/processors/events_processor/enrichment_service.go:151-158 | grouping by charge loses and doubles no filter |
| `Enrichment.IndexByCharge` | events-processor/processors/events_processor/enrichment_service.go:151-158 | the index has exactly the charges listed, each with its filters in order |
| `Enrichment.BuildBuckets` | events-processor/processors/events_processor/enrichment_service.go:160-179 | one copy per distinct charge, each with its charge's choice, in whatever order the charges are visited |
| `Enrichment.BucketCarriesCharge` | events-processor/processors/events_processor/enrichment_service.go:168-174 | a copy carries its charge's id, a filter, and the event's own identity and subscription |
| `Enrichment.BucketFilter` | events-processor/processors/events_processor/enrichment_service.go:160-179 | a copy takes its filter from the choice among its charge's own filters, and carries no filter id and time when none of them matches |
| `Enrichment.BucketsIndependentOfOrder` | events-processor/processors/events_processor/enrichment_service.go:160-179 | as a multiset the copies do not depend on the order of the charges, and each occurs once |
| `EffectOrder.SameExpansions` | events-processor/processors/events_processor/processor.go:131-138 | the expanded pushes do not depend on the order of the copies |
| `EffectOrder.EffectsOrderFreeExactlyWhen` | events-processor/processors/events_processor/processor.go:110-165 | the effects of a charged event are the same for every order of its charges if and only if it is reprocessed or falls under at most one |
| `Enrichment.EnrichWithChargeInfo` | events-processor/processors/events_processor/enrichment_service.go:130-182 | the event alone without subscription or filters, a plain failure if the lookup fails, otherwise one copy per charge |
| `Enrichment.EnrichEvent` | events-processor/processors/events_processor/enrichment_service.go:25-76 | the stages in turn, each failure wrapped with its own details, a subscription not found passed over |
| `Enrichment.EnrichWithBillableMetric` | events-processor/processors/events_processor/enrichment_service.go:78-120 | the branches that evaluate an expression and set the value give the measured event, or the failure of the expression |
| `Enrichment.EnrichedFields` | events-processor/processors/events_processor/enrichment_service.go:25-120 | an event enriched up to its charges carries the metric looked up, the time and seconds of its timestamp, its properties with only the metric's field replaced by an expression that applies, the value "1" for a count and otherwise the text of that field, and the subscription found at that time |
| `Enrichment.EveryCopyIsEnriched` | events-processor/processors/events_processor/enrichment_service.go:25-182 | so does every copy of a successful enrichment; it either is the only one and uncharged, or carries the ids and times of its filter |
| `Enrichment.FailureFields` | events-processor/processors/events_processor/enrichment_service.go:25-76 | which stage failed decides the code, message, retry and capture flags of a failure |
| `Enrichment.RetryClassification` | events-processor/processors/events_processor/enrichment_service.go:25-149 | through all wrapping a failure is final if and only if it comes from the timestamp, a metric not found at the first lookup, or the expression |
| `Enrichment.SuccessIsNonEmpty` | events-processor/processors/events_processor/processor.go:110-111 | a successful enrichment is never empty, is about the event given, and is all charged or one uncharged event |
| `Processor.EventProcessor.Produce` | events-processor/processors/events_processor/event_producer_service.go:88-104 | one attempt, and one dead letter if it fails |
| `Processor.EventProcessor.ProduceExpanded` | events-processor/processors/events_processor/processor.go:131-138 | one expanded push for every charged copy |
| `Processor.EventProcessor.ExpireCache` | events-processor/processors/events_processor/cache_service.go:18-29 | one expiry for every copy with a filter |
| `Processor.EventProcessor.Refresh` | events-processor/processors/events_processor/processor.go:140-163 | an in-advance push exactly if a charge is paid in advance, one flag, and the expiries unless the flag is refused |
| `Processor.EventProcessor.ProcessEvent` | events-processor/processors/events_processor/processor.go:101-166 | its answer and exactly its effects: none for a failed enrichment, only expanded pushes for a reprocessed event |
| `Processor.EventProcessor.HandleRecord` | events-processor/processors/events_processor/processor.go:47-92 | a record is settled as the workers assume, and an event that is given up leaves one dead letter on top of those of its pushes |
| `Processor.VerdictIsOutcome` | events-processor/processors/events_processor/processor.go:65-84 | retry flag and age decide between a retry and a dead letter |
| `Processor.LeftForRetryExactlyWhen` | events-processor/processors/events_processor/processor.go:65-84 | a record is left uncommitted if and only if its event is under twelve hours old and failed for a reason other than its timestamp, an unknown metric or its expression |
| `Processor.OneCopyPerCharge` | events-processor/processors/events_processor/enrichment_service.go:151-181 | as many copies as distinct charges |
| `Processor.EveryFailureLeavesALetter` | events-processor/processors/events_processor/event_producer_service.go:88-104 | over all pushes of an event as many fail as leave dead letters |
| `Processor.EffectsOfSuccess` | events-processor/processors/events_processor/processor.go:110-165 | the effects of an enriched event in numbers: pushes per topic, flags, expiries, and as many dead letters as failed pushes |
| `Processor.EffectsByEvent` | events-processor/processors/events_processor/processor.go:101-166 | the same by the fields of the event: no enriched push exactly if its metadata says it is reprocessed; flag, in-advance push and expiries only for an event with a subscription that is not reprocessed and not post-processed by the API |
| `Processor.EffectsBelong` | events-processor/processors/events_processor/processor.go:110-165 | an effect is among those of an enriched event if and only if it is an attempt, dead letter, flag or expiry that belongs to one of its copies, with the topic, texts and ids it must have |
| `Pipeline.CacheCanAnswer` | events-processor/processors/events_processor/enrichment_service.go:34-143 | for all states of the cache whose rows lie under their keys there are lookups that answer from them, so what is said of enrichment from a cache is never empty |
| `Pipeline.CachedFailures` | events-processor/processors/events_processor/enrichment_service.go:34-143 | with the cache as source, each lookup seeing a state of its own, enrichment fails for good exactly on the timestamp, a metric not cached at the first look or the expression, and fails to be retried exactly when the metric is gone at the second look, for an event with a subscription |
| `Pipeline.MetricCanGoInBetween` | events-processor/processors/events_processor/enrichment_service.go:141-143 | an event for which the metric goes in between |
| `Pipeline.CachedFailuresAreFinal` | events-processor/processors/events_processor/enrichment_service.go:34-143 | if the cache stands still meanwhile, no failure is to be retried |
| `Pipeline.JoinedCharges` | events-processor/cache/flat_filters.go:31-102 | the join names exactly the charges of the metric on the plan |
| `Pipeline.OneExpandedPushPerCachedCharge` | events-processor/processors/events_processor/processor.go:131-138 | as many expanded pushes as there are charges of the event's metric on its subscription's plan in the state of the cache in which the join looked for charges |
| `FlagStore.MemberInjective` | events-processor/models/stores.go:56-60 | one member for each value and window, whatever the values contain |
| `FlagStore.FlagStore.Flag` | events-processor/models/stores.go:52-67 | the member's score becomes the time of the flag, unless the store cannot be reached |
| `FlagStore.ScoresStayInWindow` | events-processor/models/stores.go:46-67 | along every run a score lies in its member's window and is not ahead of the clock |
| `FlagStore.FrozenAfterWindow` | events-processor/models/stores.go:46-51 | once its window is over a member keeps its score until it is taken and never comes back |
| `FlagStore.FlagIsKept` | events-processor/models/stores.go:46-67 | a flag is covered at every later point until a poll has answered it |
| `FlagStore.AnsweredInTime` | events-processor/models/stores.go:46-51 | no starvation: a full poll nine seconds and the delay after a flag finds it answered |
| `FlagStore.BoundIsTight` | events-processor/models/stores.go:46-51 | a second earlier it can still be waiting |
| `FlagStore.TakenWhenQuiet` | events-processor/models/stores.go:46-51 | a member is taken only when every flag it stands for is as old as the delay |
| `PostgresArray.ParsePostgresArray` | events-processor/utils/string.go:47-72 | the method computes the parse |
| `PostgresArray.ParsedElements` | events-processor/utils/string.go:60-69 | for every input no element is empty or contains a comma |
| `PostgresArray.SplitJoined` | events-processor/utils/string.go:60 | splitting undoes joining comma-free parts |
| `PostgresArray.JoinSplit` | events-processor/utils/string.go:60 | joining undoes splitting |
| `PostgresArray.RoundTripExactlyWhen` | events-processor/utils/string.go:47-72 | an array in the PostgreSQL form is read back if and only if every element is readable |
| `PostgresArray.QuoteIsReadWithBackslash` | events-processor/utils/string.go:62-69 | a text with a quote inside comes back with a backslash |
| `PostgresArray.EscapedReadsBack` | events-processor/utils/string.go:47-72 | the escaping that the round trip speaks of is PostgreSQL's: dropping each backslash that escapes gives the text back |
| `PostgresArray.StringArray.Scan` | events-processor/utils/string.go:19-45 | the receiver becomes what the column stands for, and an unknown type is an error that leaves it |
| `PostgresArray.ScanRoundTrip` | events-processor/utils/string.go:19-45 | bytes and text in the PostgreSQL form are read back alike |

## Left out

- Kafka, Redis, Badger, gorm and pgx internals and connection setup: only the log, sorted-set, key-value and commit operations are modelled, and committing, storing and searching do not fail.
- Tracing, logging and error capture, environment parsing and topic names: nothing proved depends on them.
- The expression evaluator is a partial function given from outside; so is JSON decoding, of which a failure is the only thing known.
- Rounding of floating-point timestamps: seconds with a fraction are exact rationals.
- Hard deletes and changes of a row's key: stable keys are a hypothesis of convergence, shown to be needed.
- Changes whose records do not decode: they are passed over, and the convergence theorems speak of the log of those that do.
- A time to live counts nanoseconds, where Badger rounds expiry to seconds.
- Data races on the consumers map during shutdown, and whether closing the client can hang when a poll returned without allowing a rebalance again.
- Aliasing: copies of an enriched event share one map of properties with the event, and the evaluator's result is written into it; the model copies values, so a dead letter shows the properties as received. EnrichedEvent is a value here for the same reason.
- An event whose properties are null: writing an expression's result into them would panic.
- The order in which the goroutines of one event push: effects are known as a multiset.
- A failed push to the dead letter queue, a failed cache expiry and events that cannot be marshalled, which are only logged.
- The SQL join that stands in for the cached one, `FetchFlatFilters`, and the other queries: their answers are values given to the model.
- The consumer of the flag store is not part of this repository: it is any process that takes members whose score is a given delay old.
- PostgreSQL arrays with NULL elements or nested arrays.
