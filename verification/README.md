# koanf etcd provider: a verified model

The provider reads configuration from etcd, under one key or a prefix, and keeps it fresh with a watch.
This project models its hard parts in Dafny and proves what they promise. Nothing here was executed;
the statements in the model table are proved by the verifier (`dafny verify dfyconfig.toml`).

The watch engine is a state machine over values (`WatchModel`): one session's event buffer with its debounce
timer, pending cap and final flush, and around it the retry loop with inline resync, pending resync, backoff
and stop. Everything the environment does is an input: responses, clock expiries, how a session ends, what a
re-read finds, Reads that the user makes beside the watch, cancellation, callback panics. `Providers.Provider` is the
object itself, with the loops and counters as written; each method is proved equal to the state machine, so theorems
about runs are theorems about the methods. The state machine in turn is held to descriptions that do not use it: the
debounce window (`Batching`), the filter by kinds (`Filters`), the script of announcements and sleeps
(`Announcements`), the log that the counters count (`Counters`). etcd is an abstract history: the operations committed at each revision (`History`).

| file | what it holds |
|---|---|
| `Options`, `Sequences`, `Bytes`, `History` | optional values; concatenation; byte strings and etcd's key order; histories, snapshots, replay |
| `WatchModel`, `Provider` | the watch engine as functions, and as an object whose methods equal them |
| `SessionLaws`, `Filters`, `Batching` | what one session delivers, which events it drops, how it groups them, with no assumption about etcd |
| `LoopLaws`, `RetryLaws`, `Announcements`, `Counters` | what every run keeps, announces, sleeps and counts, with no assumption about etcd |
| `RunLaws`, `WatchTheorems`, `Replica` | whole runs against a history: no gap, order, exactly once, replica agreement |
| `Boundaries` | where the promises end, each with its exact condition |
| `Pagination`, `RangeRead`, `TornReads` | paged scans, prefix ranges, pages from different stores |
| `ReadPrefix`, `ReadAnswers` | the whole read and its use as a re-read; what it answers when paths are not split, and its errors |
| `ReadThenWatch`, `DefaultKeys` | a paged read followed by a watch, end to end; the same for the default transforms |
| `DefaultReads`, `Whitespace` | the default read pipeline as a whole; the default value transform |
| `Paths`, `Nesting`, `Unflatten` | split, clean, join, the default key transform; nested maps; collision detection |
| `Backoff` | int64 wrap-around and the backoff ceiling |
| `Lifecycle` | the watch slot under every interleaving of Watch, WatchTyped, Close and the exiting goroutine |

## What is assumed

- etcd's promises are a predicate on turns (`RunLaws.EtcdIsFair`). A response header is a frontier: it is not below
  the watch's start, and all wanted changes up to it have been sent by then, once and in order. Re-reads are not
  stale: they are served at or past the position reached and every compaction seen. Such turns exist at every head
  about to open a session (`Boundaries.PromisesCanBeKept`) and, with a resync pending, wherever the history goes
  beyond the compactions reported (`Boundaries.PendingPromisesCanBeKept`).
- The user's own Reads share the revision cell that the loop stores to. `RunLaws.FairTurn` assumes one thing of them:
  none that was served before the position reached, or before a compaction seen, stores between a re-read's store
  and the loop's load (`watch.go:476-489`). `Boundaries.RereadKeepsPlaceIff` shows that exactly this is needed, and
  `Boundaries.EarlyReadWinsRace` what happens otherwise. Apart from that race, user Reads may store any revision at any
  time: nothing delivered and no watch position of a running watch depends on them, so the theorems about the stream,
  coverage, order, exactly-once and replicas hold with them. What `OnReconnect`, `Revision()` and a restart make of
  them is said under the findings.
- Session laws, batching, filtering, announcements, sleeps, retry accounting, counters and `WatchTheorems.NoDoomedWatch`
  need none of these assumptions.
- The theorems about histories start at a pinned watch: resuming is on, a read has been made
  (`WatchTheorems.FreshHead`), created-notify is off and no explicit read revision is configured.
- A resync event carries no data. The consumer answers it with a Read of its own, served at the resync's revision
  or later, and the replica theorems load what that Read should find: it is assumed to succeed and not to be torn. It is
  served by the same paged `readPrefix`; `ReadThenWatch.ReloadIsUntornRead` says when it returns what they load.
- The replica theorems hold for any value transform, applied to events by the consumer as `etcd.go:348-349` says. They
  need the keys that occur, in the history and in the pages read, to keep distinct paths, and their values to
  transform by the path as they do by the key (`Replica.Followable`). For the default transforms `DefaultKeys`
  discharges both, for all keys if the delimiter contains "/" and otherwise for keys whose segments come through it.
- A run is any finite script of turns, so each theorem holds at every loop head of an endless watch.
- Hooks are taken as installed; what they would be told is in the log. A callback may panic at any output.
  Timers follow the stop-and-drain channel discipline that the source is written for.

## Findings

- Resuming follows the highest response header, not the last event. A header that runs ahead of its events
  loses exactly the wanted changes in between (`Boundaries.HeaderAheadIff`, with failing inputs in
  `Boundaries.HeaderAheadLoses`); a created notification is one.
- A re-read stores its revision before it can still fail, on a path collision or a strict empty prefix
  (`read.go:209-226`, `PrefixReads.RereadIs`, `PrefixReads.CollidingStore`). If the watch is then cancelled and another
  is started without a Read, the new watch begins after that revision, and what lies between is neither delivered nor
  covered by a resync (`Boundaries.RefusedRereadThenRestartSkips`; exact condition in `Boundaries.RestartIsExactIff`).
- The loop loads a re-read's revision back from the cell that user Reads store to without comparing. A Read served
  before the compaction that stores late makes the loop announce a resync at the old revision and open the next watch
  at or below the compacted one (`Boundaries.EarlyReadWinsRace`). The same late store moves a restart
  (`Boundaries.LateReadMovesRestart`).
- Where two keys share a path a replica diverges: deleting one removes the other's value. It also diverges where the
  value transform looks at the key: a read passes it the etcd key (`read.go:192`), while consumers are told to pass it
  the event's path (`etcd.go:348-349`). These are the only two ways (`Replica.AgreementIffFollowable`). The default key
  transform keeps all keys in scope apart exactly when the delimiter contains "/" (`DefaultKeys.DefaultKeepsApartIff`).
- The repository's README says that the revision reported by `OnReconnect` is where the next watch resumes
  (`README.md:312`). Only the last report before a watch opens does. A session that recovers and then meets compaction
  reports twice, and the first report is wrong unless the re-read finds the same revision
  (`Boundaries.ProgressReportTellsIff`, `Boundaries.FirstReportMisleads`). A user's Read, for example one made in the
  callback to answer a resync, can put the report and `Revision()` ahead of the watch or behind it
  (`WatchTheorems.LastReportTells`), and `Revision()` can fall (`Boundaries.RevisionCanFall`).
- Pages of one read are not one snapshot. A change behind the cursor is missed although the recorded revision
  is past it, and the watch then starts after it (`TornReads.WriteBehindCursorIsMissed`; exact condition in
  `ReadThenWatch.ReadMirrorsIff`).
- The backoff overflow guard does not catch every wrap: a minimum with low bits set can wrap to a small positive
  number and fall back to the minimum (`Backoff.GuardMissesWrap`). The defaults are exact.
- Two flat keys that clean to one path are not reported as a collision; one value is lost, and which one depends
  on Go's map order (`Unflatten.LosslessIffAgreeing`).
- `ARCHITECTURE.md` and the comments in `watch.go:91-99` say that a session resets the attempt count when it
  delivered an event. The code resets it on any response without an error, also an empty one
  (`RetryLaws.AttemptIsStreak`). The repository's README lists progress notifications as off by default
  (`README.md:304`); `settings.go:101-105` turns them on.
- A permanent authentication error is counted and reported twice (`RetryLaws.PermanentErrorsCountTwice`).

## Model

| member | source | states |
|---|---|---|
| `ReadThenWatch.ReadThenWatchAgrees` | watch.go:24-168 | a paged read followed by a watch, for any value transform: in every fair run, the read's map, the delivered events and late answers to resyncs equal the store's transformed entries at the position reached once the last answer is passed; needs distinct paths, and values that transform alike by key and path, only for keys that occur |
| `ReadThenWatch.ReadMirrorsIff` | read.go:145-209 | a read served page by page from changing stores mirrors the snapshot at the revision it records, under any value transform, if nothing already read had changed by the last page; and only if, where the transform keeps raw values apart |
| `ReadThenWatch.RawReadMirrorsIff` | read.go:145-209 | for raw values: the read mirrors that snapshot if and only if it is not torn |
| `ReadThenWatch.ReloadIsUntornRead` | read.go:145-209 | what the replica theorems load at a resync is what the paged read returns if that read is not torn; and only if, where the transform keeps raw values apart |
| `DefaultKeys.DefaultReadThenWatch` | etcd.go:53-58 | the end-to-end result for a provider left at its default transforms, values trimmed: for all keys if the delimiter contains "/", otherwise for keys whose segments come through it |
| `DefaultKeys.DefaultReplicaAgreement` | transform.go:16-29 | replica agreement for the default key transform and any value transform that ignores the key, under that condition on the history's keys |
| `DefaultKeys.DefaultKeepsApartIff` | transform.go:16-29 | the default transform keeps all keys in scope apart if and only if the delimiter contains "/" |
| `DefaultReads.DefaultReadShows` | read.go:145-229 | the default read over an unchanging store, with any page limit: each pair belongs at its remainder split on "/" and cleaned; the read collides if and only if one of these paths is a proper prefix of another; else it shows leaves exactly there, and each value at its own path if and only if pairs at one path agree |
| `Whitespace.TrimIsExact` | transform.go:31-37 | the transformed value is the one value that has no white space at either end and gives the raw value when white space characters are put before and after it |
| `Whitespace.TrimmedOnce` | transform.go:31-37 | a value is left as it is if and only if it has no white space at either end; a transformed value is left as it is |
| `Whitespace.PaddingIsIgnored` | transform.go:31-37 | white space put before or after a value does not change what it is transformed to: the trailing newlines that the source names |
| `Whitespace.SpacesAreUnicode` | transform.go:35-37 | a white space character is the UTF-8 encoding of a code point that Unicode calls white space |
| `ReadThenWatch.CollectOrdered` | read.go:168-207 | over changing stores too, the pairs gathered are strictly ascending and inside the prefix range: no key twice |
| `Replica.LateReplicaAgreement` | watch.go:50-155 | in every fair run and for any value transform, a consumer that applies puts and deletes and answers each resync with a Read served at its revision or later mirrors the store at the loop's position as soon as the watch has passed its last Read |
| `Replica.ReplicaAgreement` | watch.go:50-155 | when each Read is served at the revision it answers, the copy mirrors the store at every head and stop, for every mix of closes, errors, compactions and refused re-reads |
| `Replica.LateReadAgrees` | watch.go:217-229 | a copy read later than the revision it was told is right once the changes sent have passed its read |
| `Replica.AgreementIffFollowable` | etcd.go:341-350 | for every set of keys and value transform: a copy built from the events agrees with every history over them at every position if and only if no two of them in scope share a path and values transform by path as by key |
| `WatchTheorems.DeliveryIsGapFree` | watch.go:24-155 | the delivered stream of every fair run is a chain of adjacent history spans and forward resyncs, and every head continues at its end |
| `WatchTheorems.NoGapCoverage` | watch.go:88-143 | each wanted change between the first watch position and the position reached is delivered in the run, or a resync at its revision or later is |
| `WatchTheorems.DeliveryIsOrdered` | watch.go:327-352 | revisions across all batches and resyncs of a run never go back |
| `WatchTheorems.ExactlyOnce` | watch.go:107-143 | apart from resyncs, a run delivers exactly the wanted changes of the revisions its sessions covered, once, in commit order; the rest were jumped by a resync |
| `WatchTheorems.NoDoomedWatch` | watch.go:55-88 | under every environment, pinned or not: from a compaction report on no watch opens until a resync completes, and at every head a resync is pending exactly then |
| `WatchTheorems.OpensAboveCompaction` | watch.go:107-143 | in every fair run each watch opens strictly above every compacted revision reported before it |
| `WatchTheorems.LastReportTells` | watch.go:297-301 | in every fair run without user Reads each watch opens just after the last revision reported before it, and startRev is Revision()+1; with user Reads, which may store any revision, either can instead be one that such a Read stored |
| `WatchTheorems.RevisionOnlyGrows` | watch.go:141-143 | between heads about to open a session the watch position never falls, nor, without user Reads, does the provider's revision |
| `RunLaws.PendingTurn` | watch.go:55-86 | a pending-resync turn delivers one resync event and resumes just after it, or stays in place with the resync still owed |
| `RunLaws.SessionTurn` | watch.go:88-153 | a session's turn delivers its buffered events before any resync that its compaction causes, and moves to the header or past the re-read |
| `RunLaws.FrontierReceives` | watch.go:366-377 | a session whose headers are frontiers receives exactly the changes from its start to its highest header |
| `SessionLaws.BatchingRefinesStream` | watch.go:323-403 | for every interleaving of responses, timer fires, cap flushes and endings, the delivered batches end to end are the filtered, translated events received |
| `SessionLaws.GroupingIsAllThatChanges` | watch.go:378-401 | debounce, cap, timing and panicking callbacks change only the grouping |
| `SessionLaws.SessionResultIs` | watch.go:314-323 | the session reports its highest header, and progress exactly when some response arrived |
| `SessionLaws.NothingStranded` | watch.go:353-402 | at every select: buffered events have exactly one tick coming, zero debounce buffers nothing, a positive cap is never reached |
| `SessionLaws.DebounceFires` | watch.go:398-400 | when the window passes, everything buffered is delivered |
| `Batching.SessionBatches` | watch.go:353-402 | for every session, the batches that the callback is given are those of a plain debounce window, which the timer and its channel implement, and the rest is the last batch |
| `Batching.ResponseIsHeld` | watch.go:390-397 | with debounce set, a response that leaves the buffer below the cap delivers nothing, keeps what was held and starts the clock afresh, so that a tick does nothing before the next expiry |
| `Batching.DebounceMakesOneBatch` | watch.go:390-402 | while no tick is taken and the cap is not met the log is unchanged, however many responses come; the expiry's tick or the ending then delivers everything received as one batch |
| `Batching.EachResponseIsABatch` | watch.go:390-397 | with debounce 0 each response with wanted events is its own batch, at once |
| `Batching.CapShipsAll` | watch.go:378-389 | the response that meets the cap delivers everything held and its own events as one batch, and no tick is then due |
| `Filters.SessionIsFiltered` | watch.go:427-450 | for every session and filter, what is delivered is the unfiltered watch's stream without the events whose kind, put or delete, is not wanted |
| `Filters.FilterIsExact` | watch.go:427-436 | the same for any list of changes |
| `Filters.FilterByKind` | watch.go:427-450 | a put is delivered only if puts are wanted and a delete only if deletes are; each change whose kind is wanted is delivered with its path, value and revision |
| `Filters.OpenReportsAll` | watch.go:437-450 | without a filter each change gives one event in its place: kind, path, raw value or none, revision |
| `SessionLaws.SessionBalances` | watch.go:427-473 | after each session, events delivered equal puts, deletes and resyncs translated |
| `LoopLaws.AccountingConserved` | watch.go:35-154 | over every run: attempts reported plus owed equal reconnects plus inline recoveries; reports are positive; failedAttempts equals attempt; a pending resync has failed once |
| `LoopLaws.IterateBooks` | watch.go:50-154 | one turn keeps that ledger and adds one exactly for an inline compaction recovery |
| `Announcements.AnnouncementsAreScripted` | watch.go:24-207 | over every run and in order: each watch opened and where, each error with its wrapping and class, each recovery with the number of failures in a row, the last one's error and the revision, each resync's revision, each sleep, all as the script of the environment determines them |
| `Announcements.SleepsAreStreaks` | watch.go:50-154 | over every run, a turn asks the backoff to sleep if and only if it fails and is not stopped, and then for the number of consecutive failures up to and including it, counted on the script |
| `Announcements.KthSleepIsExponential` | watch.go:303-312 | the k-th consecutive failure is slept on for a delay drawn between min and min(min*2^(k-1), max), for every min and max for which the shift is exact |
| `Announcements.LastSleepIsStreak` | watch.go:303-312 | the sleep that ends a failed turn is for the streak that it completes |
| `Counters.CountersCountTheLog` | watch.go:427-473 | over every run, from any counters: puts, deletes and resyncs move by the events delivered of that kind, and so do events, watch errors, flushes and reads by what the log shows; the log keeps its shape |
| `Counters.CountersFromZero` | watch.go:217-237 | from zero the counters are those counts; a callback's panic is reported right after its batch and nowhere else; each resync announced is delivered next, alone, at the announced revision |
| `RetryLaws.ClassesAre` | watch.go:568-589 | which errors end the watch, one by one, and the class that each is reported with |
| `RetryLaws.AttemptIsStreak` | watch.go:95-96 | over every run the loop's attempt is the number of consecutive failures since a response or a re-read that succeeded |
| `RetryLaws.StopsIff` | watch.go:131-153 | a turn ends the loop if and only if the context was cancelled or the error is permanent, unless a re-read succeeded |
| `RetryLaws.PermanentErrorsCountTwice` | watch.go:131-137 | a permanent error ends the watch, counted twice and reported bare, then wrapped |
| `Boundaries.PromisesCanBeKept` | watch.go:88-143 | at every head about to open a session, for every later position, some turn keeps etcd's promises and reaches it |
| `Boundaries.PendingPromisesCanBeKept` | watch.go:55-70 | the same with a resync pending, for every position above the compactions reported |
| `Boundaries.HeaderAheadIff` | watch.go:366-369 | a session that closes with its header ahead of its events loses nothing if and only if no wanted change lies between |
| `Boundaries.HeaderAheadLoses` | watch.go:366-369 | at every head, an empty response with a later header and a close skip every wanted change up to it |
| `Boundaries.ProgressReportTellsIff` | watch.go:95-121 | the report after a session names the revision before the next watch if and only if no inline re-read finds another; an inline recovery then reports again |
| `Boundaries.FirstReportMisleads` | watch.go:95-121 | at every head that owes a report, a fair turn makes two reports and the watch opens only where the second says |
| `Boundaries.RevisionCanFall` | watch.go:366-369 | a header stored after a user's later Read lowers the provider's revision, and the position is unaffected |
| `Boundaries.RereadKeepsPlaceIff` | watch.go:476-489 | the resync event and the next watch follow the revision loaded after the re-read; with etcd's promises kept, the turn keeps its place if and only if that is at or past the position and every compaction seen |
| `Boundaries.EarlyReadWinsRace` | watch.go:476-489 | at every head, an early Read that stores in between makes the loop announce its old revision and open at or below the compacted one |
| `Boundaries.LateReadMovesRestart` | read.go:209 | a Read that stores late moves the next watch to its revision, whatever was delivered |
| `Boundaries.FirstWatchPinnedIff` | watch.go:159-168 | the first watch is pinned if and only if resuming is on and a read has been made, and then starts just after it |
| `Boundaries.UnpinnedWatchForgets` | watch.go:159-168 | an unpinned session that closes silently delivers nothing and opens unpinned again |
| `Boundaries.RestartIsSeamless` | watch.go:159-168 | a watch stopped with nothing pending can be followed by another: it begins where delivery ended, or just after a revision that a user's Read stored; without user Reads never earlier |
| `Boundaries.RestartIsExactIff` | read.go:209-226 | the next watch begins where delivery ended if and only if neither a refused re-read nor a user's Read, older or newer, was the last to store another revision |
| `Boundaries.RefusedRereadThenRestartSkips` | read.go:209-226 | for every head and revision ahead of it: refused re-read, cancel, restart starts past undelivered changes |
| `Providers.Provider.WatchLoop` | watch.go:24-155 | the loop, driven by any script, ends in the state machine's state with its output and counters |
| `Providers.Provider.RetryPending` | watch.go:55-86 | the pending-resync branch does what a turn with a resync pending does |
| `Providers.Provider.WatchOnce` | watch.go:88-153 | the body of the loop does what a turn with nothing pending does |
| `Providers.Provider.AfterWatch` | watch.go:91-153 | progress, then compaction, then stop or back off, as the state machine orders them |
| `Providers.Provider.ConsumeWatch` | watch.go:323-403 | draining a session in place gives the session function's result, output and counters |
| `Providers.Provider.HandleCompaction` | watch.go:176-207 | report, count and re-read in the order of the state machine |
| `Providers.Provider.ResyncState` | watch.go:217-229 | a re-read that succeeds counts, notifies, then delivers; one that fails may leave its revision stored |
| `Providers.Provider.TranslateEvent` | watch.go:427-450 | a filtered event is dropped uncounted, any other is translated and counted by kind |
| `Providers.Provider.DeliverBatch` | watch.go:453-467 | the batch is counted before the callback, and a panicking callback is reported and survived |
| `Pagination.PaginationRefinesOneRead` | read.go:145-207 | over an unchanging store every page limit gives the map, revision and first error of one unpaged read of exactly the keys with the prefix |
| `Pagination.ScanByPages` | read.go:170-207 | whatever store serves each page: the first bad value among the pairs so far is the error, else a refused page is, else the map of all pairs with the last page's revision is the result |
| `Pagination.LastWriterWins` | read.go:191-199 | the value at a path is that of the last pair transformed to it, and no other path changes |
| `Pagination.FirstBadStops` | read.go:191-196 | the first pair whose value cannot be transformed stops the page, and its etcd key is reported |
| `Pagination.ReadPages` | read.go:145-207 | the page loop terminates and computes the scan for every sequence of replies |
| `Pagination.AddPage` | read.go:191-199 | the pairs of a page are added in order, the last writer of a path wins, the first bad value stops |
| `Pagination.ContinuationIsRest` | read.go:178-182 | continuing after the n-th key of a range reads exactly the rest of it |
| `TornReads.ReadIsSnapshotIff` | read.go:170-209 | a paged read returns the pairs of the store whose revision it records if and only if no part already read had changed; one page always does |
| `TornReads.WriteBehindCursorIsMissed` | read.go:170-209 | what the last store lists below the first cursor, and was not on the first page, is missing from the read |
| `TornReads.TornReadExists` | read.go:170-209 | every range with three keys admits such a read |
| `PrefixReads.ReadPrefix` | read.go:145-229 | the revision is stored exactly when every page was read; the answer is empty, strict error, collision, flat or nested accordingly |
| `PrefixReads.RereadIs` | read.go:209-226 | used as a re-read, it is refused after storing its revision if and only if its pages were read and were empty under strict, or collide; and refused before if and only if a page failed |
| `PrefixReads.ShadowedIsUnanswerable` | read.go:221-226 | two keys whose cleaned paths shadow one another make a read fail after its revision is stored |
| `PrefixReads.CollidingRead` | read.go:209-226 | a store of two keys that shadow one another, read in one page, is refused with its revision stored, whatever the map order |
| `PrefixReads.CollidingStore` | read.go:299-311 | such stores exist for every delimiter and any two segments without its first byte: "a" and "a.b" |
| `PrefixReads.AnswersAreUnique` | read.go:211-228 | the answer does not depend on map order unless keys that clean to one path disagree |
| `ReadAnswers.UnsplitReadShows` | read.go:145-229 | over an unchanging store, with any page limit and unflattening off or no delimiter: the first bad value is reported by its etcd key and nothing is stored; an empty prefix fails if it must not be empty; else the answer shows, at each path that some pair is transformed to and nowhere else, the transformed value of the last such pair |
| `ReadAnswers.RefusedPageIsReported` | read.go:183-188 | a page refused after good pages makes the read answer that page's error and leaves the revision as it was |
| `RangeRead.ComputePrefixEnd` | read.go:233-245 | the in-place carry computes the bound |
| `RangeRead.PrefixRangeIsExact` | read.go:168-182 | a key is in the prefix's range if and only if it starts with the prefix |
| `RangeRead.PrefixEndIsLeast` | read.go:231-245 | the bound is the least one above every key with the prefix, and is absent exactly when there is none |
| `Bytes.SuccessorSkipsNothing` | read.go:179-181 | the key with a zero byte appended is its immediate successor |
| `Unflatten.UnflattenMap` | read.go:277-318 | for every visiting order a collision is reported if and only if one cleaned path is a proper prefix of another; else the result shows exactly the non-empty cleaned paths, with values of their keys |
| `Unflatten.ScanKey` | read.go:290-315 | one key of the scan: a collision is real, and without one the three maps hold exactly the leaves, parents and values of the keys visited |
| `Unflatten.WalkParents` | read.go:304-311 | the parent walk hits exactly when some parent is a leaf, else records exactly the parents |
| `Unflatten.LosslessIffAgreeing` | read.go:290-317 | every value is read back at its path if and only if keys that clean to one path agree |
| `Unflatten.OrderDoesNotMatter` | read.go:290-317 | the nested map is then unique and shows nothing else |
| `Paths.SplitCleanPath` | read.go:327-336 | the reslicing loops compute the cleaned path |
| `Paths.CleanCutsEnds` | read.go:320-336 | cleaning cuts only empty segments, only at the ends, and all of them |
| `Paths.RoundTripIffCanonical` | read.go:297-306 | splitting a joined list gives it back if and only if it is one that splitting can produce, also for delimiters that overlap themselves |
| `Paths.ParentsResplit` | read.go:297-306 | a cleaned path and each of its parents re-split to their own segments |
| `Paths.JoinedParentsAreFaithful` | read.go:299-313 | string keys in the leaf and sub-tree sets identify segment lists |
| `Paths.Remainder` | transform.go:18-24 | the prefix comes off once, from a key that starts with it, if trimming is on; any other key stays whole |
| `Paths.TransformIsFaithfulIff` | transform.go:16-29 | the transformed key splits into the remainder's "/" segments if and only if the delimiter is "/" or those segments survive it |
| `Paths.DefaultPathsAreFaithful` | transform.go:10-29 | for keys whose segments come through the delimiter, the tree path is the remainder split on "/" and cleaned |
| `Paths.PlainSegmentsSurvive` | transform.go:16-29 | segments without the delimiter's first byte come through |
| `Paths.SlashDelimiterIsInjective` | transform.go:16-29 | with a delimiter that contains "/" the default transform is injective on all keys under the prefix |
| `Paths.DefaultTransformInjective` | transform.go:16-29 | on keys under the prefix whose segments come through, the default transform is injective, trimmed or not |
| `Backoff.GuardExactness` | watch.go:525-543 | the guarded shift is the ideal ceiling if and only if the product did not overflow or the guard caught it |
| `Backoff.ShiftIsExponential` | watch.go:525-543 | if 2^t divides min and min times max is below 2^(63+t), the shift is min(min*2^(attempt-1), max) for every attempt |
| `Backoff.DefaultsAreExact` | settings.go:98-99 | one second and two minutes qualify |
| `Backoff.CeilingEscalates` | watch.go:525-543 | the ceiling never falls as attempts accumulate and stays at max |
| `Backoff.DelayBounds` | watch.go:525-543 | for all int64 bounds: never below min, the range of the draw, and exactly when the draw panics |
| `Backoff.FirstAttemptIsOne` | watch.go:529-532 | an attempt below one is treated as the first |
| `Backoff.GuardMissesWrap` | watch.go:533-536 | an input for which the guard misses the wrap |
| `Lifecycle.SlotIsExclusive` | etcd.go:288-338 | in every interleaving at most one goroutine is unfinished, the two callbacks are never both set, each done channel is closed exactly once, after its goroutine signals |
| `Lifecycle.CloseIsFinal` | etcd.go:85-118 | after Close's critical section no goroutine starts, and any unfinished one is cancelled and is the one Close awaits |
| `Lifecycle.CloseIsNotStranded` | etcd.go:93-110 | the channel Close awaits is closed, or its goroutine still holds it and is on its way |
| `Lifecycle.WatchAcceptedIff` | etcd.go:288-338 | a call is refused as closed if and only if Close has been called; as active if and only if it has not and an earlier goroutine has not cleared the slot; else it is accepted |
| `Lifecycle.CallbackIsTheCallers` | etcd.go:288-338 | in every interleaving, while a goroutine is unfinished it is the last accepted call's, and the typed callback is set if and only if that call was WatchTyped, the untyped one if and only if it was Watch; else the slot is empty; goroutines and accepted calls are equally many |
| `Lifecycle.CallsStartOrNot` | etcd.go:288-338 | a refused call, also one with a finished context, changes nothing; an accepted one starts one goroutine with its own kind of callback and touches nothing outside the slot |
| `Lifecycle.CancelledBy` | etcd.go:85-94 | a context is cancelled by its caller, or by Close if its goroutine is unfinished then, and by nothing else |
| `Lifecycle.WatchSlot.Watch` | etcd.go:288-309 | the critical section is the atomic step, with the source's refusals in order |
| `Lifecycle.WatchSlot.WatchTyped` | etcd.go:320-338 | the same for typed watches, with a finished context refused first |
| `Lifecycle.WatchSlot.MarkClosed` | etcd.go:86-88 | only the first Close wins, and nothing else changes |
| `Lifecycle.WatchSlot.SweepOnClose` | etcd.go:89-94 | cancel and forget the context, and note the channel to wait for |
| `Lifecycle.WatchSlot.SignalWatchDone` | watch.go:276-282 | the exiting goroutine closes its own channel, once |
| `Lifecycle.WatchSlot.ClearWatchState` | watch.go:263-270 | the slot is emptied, so the next watch can start |

## Left out

- Client construction, TLS, SRV lookup, authentication set-up, options and their validation: foreign calls and one-branch facts. RPC errors are an enumeration.
- The `write` package: thin wrappers over etcd transactions.
- Single-key and blob reads: straight-line. A re-read is abstract in the watch, loading a revision or failing before or after it is stored.
- Watch options on the wire (server-side filters, progress and created notifications): the filter is modelled where the client applies it.
- Timestamps, `lastBatch`, `lastFlushCoalesced`, trimming and copying of the batch's backing array: values are immutable here, so aliasing of batches is not captured.
- Clocks and random draws: timer expiry is an input, and a backoff delay is a range.
- The library's unflattening is specified as one insertion per key in any order; the wrapper establishes what it needs.
- A panic in a key transform or a hook, which ends the loop: only callback panics inside a delivery are modelled.
- `Close`'s timeout and the client it closes: waiting is modelled, giving up is not.
- ReplicaAgreement: takes value transforms that succeed; one that fails makes the read fail (`Pagination.Scan`) and leaves the consumer without an answer.
- A user's Read beside the watch is modelled by the revision it stores; the read counter it bumps is not, so `totalReads` counts the loop's re-reads.
- AgreementIffFollowable: assumes that puts and deletes are both wanted, because a replica cannot follow a stream with either filtered out. The delivery theorems allow any filter.
- The context's cancellation while the session has responses ready: the select may take either, and a script holds the outcome.
