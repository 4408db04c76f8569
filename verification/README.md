# Verified model of the RSP data analytics dashboard server

The project models the parts of the dashboard's Python server whose correctness is least obvious from
reading one function, and proves what they keep over every input and every run. `dafny verify
dfyconfig.toml` checks all of it.

- **Downsampling** (`NumpyOps`, `SegmentBudgets`, `LttbSegment`, `Downsampler`). The inflection-aware
  LTTB downsampler as the class it is, over exact reals. The main result: a series longer than the
  target is reduced to exactly `target` strictly increasing indices from its first to its last point,
  with every inflection kept whenever the anchors fit. The room the anchors leave goes to what canonical LTTB
  picks between them: budgets are a largest-remainder split over the curvature of the segments, each segment
  yields the first largest triangle of every occupied bucket, and only what that leaves is filled up evenly.
- **Scheduled damage** (`DamageModel`, `DamageRefinement`, `DamageStore`, `DamageChannels`,
  `DamageLifecycle`). The damage table and the methods that change it. The rescale fast path refines the
  full recalculation exactly where the calculator would return the stored base again. Over every run of
  saves, channel-map changes, readings, recalculations, deletions, purges and uploads rows stay well formed,
  a channel-map stamp is lifted only by recalculating the row, and a base that may be reused stays one of
  the newest channel map exactly when all changes of the run are clean.
- **Identity migration** (`Substitution`, `IdentityMigration`). Users of many databases merged into one
  store, first one wins, references rewritten pair by pair. Sequential rewriting is simultaneous
  substitution exactly when no pair feeds a later one. A migration completes exactly when no new id is
  taken and no key column would hold an id twice; references then resolve to the user they named; stopping
  after any transaction and starting again ends as one uninterrupted run does, completed or not.
- **Admission** (`TaskKinds`, `Admission`, `AdmissionSteps`). Handlers, workers, requests with the database
  they were given, row clean-up and the exclusive section as a transition system; what each step does to rows,
  workers and the slot is proved apart from its definition. In every interleaving at most one handler
  is inside the section. While handlers run without interruption between guard and release, a switch or
  deletion meets a live worker of the current database exactly when one whose row was taken away is still
  live there, and it is proved which steps take a live worker's row. A small helper, `DatabaseSwap`, models
  the exchange of the store.
- **Uploads** (`EventIds`, `Ingestion`, `UploadRuns`, `UploadCleanup`, `UploadRestoration`). Generated event
  ids, ingestion with its log of transactions, the tables after any such transactions, and the cleanup of a
  failed upload. Proved are how the first failing check of a file ends the run, what is reported against what was
  committed, exactly which runs, sources and
  derived artifacts a stopped upload and its cleanup leave, when they restore every table, and that every
  reference stays resolved.
- **Requests, plots and schedules** (`RateLimiter`, `PlotEncoding`, `FileTokens`, `StableSort`,
  `ScheduleRows`). The token bucket with its exact admission rule and Retry-After, the binary plot layout
  with its decoder, and schedule rows generated from file names.

Where the code does not do what its documentation says, or a natural claim about it is false, the code is
kept and the exact condition is proved:

- The segment selection is documented to pick strictly between `start` and `end`; the last bucket is
  closed, and `end` is picked exactly when the inner points exceed the budget and that bucket holds no other
  of them (`EndPickedOnlyAlone`, `SelectInSegment`).
- The output is documented to be bounded by `target_points`; it holds exactly for a target of at least one,
  and for a target of zero on an empty series (`Downsample`).
- A rescale may reuse a base from an outdated channel map: only `current` rows turn stale, so the first
  reason sticks (`MapChangeKeepsFreshIff`, `FirstReasonSticks`). A purge leaves damage rows in place,
  so an event that is deleted, purged after a channel-map change and uploaded again finds its old row
  current (`EventsReplacedKeepsFreshIff`, `PurgedRowReturns`). A map change between the reading of a series
  and the storing of its channels makes an outdated base current (`InterruptedReadIsStored`), and a folder
  upload that replaces the map marks nothing (`MapReplacedKeepsFreshIff`). The rescale on its own also
  revives stamped rows of purged events (`RescaleRevivesOnlyUnlisted`).
- Pair-by-pair rewriting merges two users whose ids were swapped (`SwappedIdsCollapse`); the migration
  relies on one id never naming two usernames. Even then it never completes if a dashboard's
  `user_preferences`, keyed by user id, hold both a legacy id and the id it is rewritten to
  (`KeyCollisionStops`, `BobStopsMigration`).
- A cleanup deletes only the ids an upload recorded, and the worker replaces the recorded ids by the
  reported ones when the ingestion ends. An error after a commit reports nothing, so the committed events
  stay (`ReportsAllIff`, `CleanupRestoresEventsIff`).
- With a channel map every file is registered before the first is committed, so an upload that stops in its
  write loop is never undone: runs of files that were not reported stay (`StoppedMappedUploadLeavesRun`,
  `UploadRestoredIff`).
- Originals are stored before any check. A refused re-upload of a known file under another name or by another
  user leaves the new name and owner on the old original (`RefusedUploadOverwrites`), and of two files of one
  name the first one's original is left without a run (`SameNameLeavesSource`).
- Duplicate detection skips deleted events, and a retained artifact is stored once per content. Uploading
  the file of a soft-deleted event again moves that event's retained artifact to the new event, and a
  cleanup then deletes it (`ReuploadLosesRetained`).
- A cleanup checks the runs, not the derived artifacts, before it deletes a source. If the canonical content
  of a cleaned file equals that of an older one, the older derived artifact is left naming a source that
  no longer exists (`SourceNameDanglesIff`, `SharedContentDangles`).
- The exclusive slot alone does not keep uploads out of a switch: the guard and the section must not be
  interrupted by another handler (`InterleavedHandlersBreakSwaps`).
- The guard reads task rows of the current database only. A request keeps the database it was given, so an
  upload can start in a database that was switched away meanwhile, and that database can then be deleted
  under the live worker (`DeletionUnderLiveWorker`).
- A live worker's row can be taken from it: by the deletion of its scope, which no guard admits
  (`ScopeDeletionHidesWorker`), by opening its database for a switch, which fails all active rows there
  (`SwitchBackHidesWorker`), and when its row or its heartbeat expires. The worker is then invisible to the
  guard, and to a reprocess of its scope (`LosesRowIff`, `SwapMeetsWorkerIff`, `ReprocessMeetsOnlyLost`). An
  export that a status poll has marked as stalled is so, too.

Hypotheses of the run theorems: a clock does not go back (`RateLimiter`), the query service lists the fixed
channels for every known event (`DamageLifecycle`), a saved schedule names live events of its scope
(`DamageLifecycle`), and each managed dashboard path is listed once (`IdentityMigration`).

Python's integers are unbounded, as here. Floats are exact reals. Text is a sequence of code points; the
plot response works on UTF-8 bytes.

## Model

| member | source | states |
|---|---|---|
| `Downsampler.LTTBDownsampler.DownsampleIndices` | server/services/downsampling.py:79-119 | a series longer than the target yields exactly target strictly increasing indices from the first point to the last; if the anchors fit, they are all kept, the room they leave is split fairly among the segments, exactly what canonical LTTB selects in each segment is added, and the rest is evenly spread missing indices; if they do not fit, evenly spread anchors are kept; a short series is kept whole |
| `Downsampler.LTTBDownsampler.Downsample` | server/services/downsampling.py:28-53 | exactly min(n, max(1, target)) points of the series in source order with both ends, and of a longer series those the normalized series reduces to; the documented bound by target_points holds iff the target is at least one, or zero on an empty series |
| `Downsampler.LTTBDownsampler.DownsampleByFactor` | server/services/downsampling.py:270-285 | the borrowed target field is put back, and the points are those of a reduction to max(100, int(n * factor)) |
| `Downsampler.LTTBDownsampler.SelectPoints` | server/services/downsampling.py:107-117 | the selected indices are exactly the anchors and, for each segment with a positive budget, what canonical LTTB selects in it; they never exceed the target |
| `Downsampler.LTTBDownsampler.DownsampleAround` | server/services/downsampling.py:93-119 | around any anchors that include both ends: the selection under a fair split, filled up with evenly spread missing indices to exactly the target, or the anchors thinned out evenly |
| `Downsampler.LTTBDownsampler.SelectAround` | server/services/downsampling.py:101-117 | the fair split of the room left by the anchors, and the selection under it |
| `Downsampler.LTTBDownsampler.AllocateAround` | server/services/downsampling.py:101-111 | the segments are those of the anchors, their weights are curvature plus 1e-12, and the budgets a largest-remainder split of target minus anchors |
| `Downsampler.PadTo` | server/services/downsampling.py:250-268 | a selection that is too small is filled up with evenly spread picks from the missing indices |
| `Downsampler.EvenPicksAt` | server/services/downsampling.py:240-248 | pick k of n lies k steps of (size - 1) / (n - 1) from the first, rounded down |
| `Downsampler.SegmentsAreGaps` | server/services/downsampling.py:93-97 | every segment is a gap between neighbouring anchors with a point in between |
| `Downsampler.GapsAreSegments` | server/services/downsampling.py:93-97 | every such gap is a segment |
| `Downsampler.SegmentsInOrder` | server/services/downsampling.py:93-97 | segments come in the order of the series |
| `Downsampler.NormalizeScales` | server/services/downsampling.py:86-88 | normalizing subtracts the least value and divides by the spread plus 1e-12 |
| `Downsampler.CrossIsShoelace` | server/services/downsampling.py:121-135 | the curvature of three points is twice the signed area of their triangle |
| `Downsampler.LastSegmentExists` | server/services/downsampling.py:90-101 | no inflection lies on the next-to-last point, so there is always a segment and the even-spread fallback is never taken |
| `Downsampler.InflectionsAreTurns` | server/services/downsampling.py:121-135 | a position is an inflection iff the curvature before it and at it have opposite signs and both magnitudes are above the threshold |
| `Downsampler.CurvatureAddsUp` | server/services/downsampling.py:137-143 | integrated curvature is additive over parts that share two points |
| `Downsampler.CurvatureOfOneTurn` | server/services/downsampling.py:137-143 | a part of four points weighs the magnitude of the turn of its first three |
| `Downsampler.CurvatureVanishesIff` | server/services/downsampling.py:137-143 | a segment weighs nothing iff the line through its points, but for the last, never turns |
| `Downsampler.SubsampleWithEndpoints` | server/services/downsampling.py:240-248 | thinning keeps the first and, from two points on, the last index, has exactly the target size, and picks evenly spread positions |
| `Downsampler.EnforceExactBudget` | server/services/downsampling.py:250-268 | exactly target strictly increasing indices; too much is thinned out, and too little is filled with evenly spread picks from all missing indices, of which there are always enough |
| `Downsampler.BuildOutput` | server/services/downsampling.py:55-77 | a selection that meets the contract passes unchanged; any other is brought within range, order and size, and never empty |
| `SegmentBudgets.AllocateSegmentBudgets` | server/services/downsampling.py:145-172 | budgets sum to what is available, lie between minimum plus floor and minimum plus ceiling of the proportional share, and rounding up goes to fractions at least as large as those rounded down |
| `SegmentBudgets.FloorsPlusLucky` | server/services/downsampling.py:158-172 | floors plus one point for each of the last entries of the fraction order is a largest-remainder split |
| `SegmentBudgets.LuckyArePositive` | server/services/downsampling.py:166-170 | a segment whose share is whole never gets a leftover point |
| `SegmentBudgets.LuckyAreLargest` | server/services/downsampling.py:168-170 | no segment without a leftover point has a larger fraction than one with |
| `SegmentBudgets.SharesSum` | server/services/downsampling.py:162-164 | the proportional shares add up to what is shared |
| `SegmentBudgets.ShareIsProportional` | server/services/downsampling.py:162-164 | a share is to the whole as its weight is to all weights |
| `SegmentBudgets.AddLeftover` | server/services/downsampling.py:166-170 | the in-place loop adds one point to exactly the chosen segments and raises the total by the leftover |
| `LttbSegment.SelectInSegment` | server/services/downsampling.py:174-238 | the picks are those of the specification of a segment's selection: strictly increasing, at most budget many and inside (start, end]; they are all inner points if these fit, and otherwise one first largest triangle per occupied bucket; the end is picked iff the inner points do not fit and it is alone in the last bucket |
| `LttbSegment.BucketsPartition` | server/services/downsampling.py:194-207 | every position lies in exactly one bucket and buckets follow the order of positions |
| `LttbSegment.OnePickPerOccupiedBucket` | server/services/downsampling.py:209-238 | every bucket with a position other than the start yields exactly one pick, the first of largest triangle area seen from the pick before |
| `LttbSegment.FilterOnlyDropsStart` | server/services/downsampling.py:212-216 | the filter on positions after the previous pick removes nothing but the segment's start |
| `LttbSegment.EndPickedOnlyAlone` | server/services/downsampling.py:174-238 | the segment's end is picked iff the last bucket holds no other position |
| `LttbSegment.MakeSegmentValid` | server/services/downsampling.py:190-231 | cumulative distances and edges ascend together and the end's triangle is degenerate, as the lemmas on segments require |
| `LttbSegment.SegmentPicks` | server/services/downsampling.py:190-238 | for the segment cut out of any series: one pick per occupied bucket, and the end iff it is alone in the last one |
| `LttbSegment.BucketsAreEqualParts` | server/services/downsampling.py:190-207 | bucket i holds the points whose arc length lies between i and i + 1 parts of budget equal ones, half open but for the last |
| `LttbSegment.ArcLengthSteps` | server/services/downsampling.py:190-193 | the arc length starts at zero and grows by the length of each step |
| `LttbSegment.AreasAreTriangles` | server/services/downsampling.py:218-234 | a candidate is weighed by twice the area of its triangle with the previous pick and the centroid of the next bucket, or the end where that is empty or missing |
| `LttbSegment.SelectFromBuckets` | server/services/downsampling.py:209-238 | the loop over buckets computes the walk the lemmas speak about |
| `NumpyOps.LinspaceSpreads` | server/services/downsampling.py:240-248 | truncated evenly spaced positions are strictly increasing with both ends whenever there are no more of them than indices |
| `DamageRefinement.RescaleRefinesRecalculation` | server/services/schedule_damage_rescale.py:86-132 | for an eligible, validated schedule whose channels still calculate to their stored bases, the fast path leaves every scheduled row as the full task does, and both leave unscheduled rows alone |
| `DamageRefinement.RescaleAgreesIffBaseHolds` | server/services/schedule_damage_rescale.py:86-132 | on a scheduled (event, channel) the two paths agree iff the calculator would return the stored base |
| `DamageModel.RecalculatedAt` | server/services/damage_calculation_task.py:188-279 | the nested loops leave each scheduled key as computed from the event's last schedule row and the channel's last item, and every other key alone |
| `DamageModel.RecalculatedRowIs` | server/services/damage_calculation_task.py:188-279 | every column of a recalculated row: unavailable, error or current, with its base, and with base times repeats times weight times multiplier |
| `DamageModel.RescaledRowIs` | server/services/schedule_damage_rescale.py:100-130 | every column of a rescaled row; rows without a base and of unscheduled events stay |
| `DamageModel.ScheduledDamageScales` | server/services/schedule_damage_calculation.py:9-16 | scheduled damage is the base when nothing scales it, adds up over repeats, and is homogeneous in weight and multiplier |
| `DamageModel.ReusableIs` | server/services/schedule_damage_rescale.py:67-83 | a base is reusable iff its row is there, its event live and in scope, it has a base, is not in error, and is stale for no reason but a changed schedule |
| `DamageModel.MarkedStaleAt` | server/storage/database.py:1467-1519 | marking turns exactly the current rows of live events of the scope stale |
| `DamageModel.ClearedAt` | server/storage/database.py:1521-1556 | clearing removes exactly the rows of live events of the scope |
| `DamageModel.ScheduledRowsSplit` | server/services/schedule_damage_validation.py:24-61 | scheduled rows keep their order |
| `DamageModel.ScalingOnlyIff` | server/services/schedule_damage_rescale.py:12-52 | a change is scaling-only iff all scaling is given, the same events are scheduled with the same patterns, and the multiplier or some event's scaling differs |
| `DamageStore.DamageStore.RescaleScheduleDamage` | server/services/schedule_damage_rescale.py:86-132 | nothing changes if validation fails; otherwise exactly the rows with a base of scheduled events are rescaled, and counted (`RescaledRowIs` gives their columns) |
| `DamageStore.DamageStore.AssessRescaleEligibility` | server/services/schedule_damage_rescale.py:55-83 | eligible iff every scheduled (event, channel) has a reusable base; otherwise the reason is that of the first one in scan order that has none |
| `DamageStore.RefusalIs` | server/services/schedule_damage_rescale.py:67-83 | which reason a row is refused for, in the order base missing, error, stale for another reason |
| `DamageStore.DamageStore.RunDamageCalculationTask` | server/services/damage_calculation_task.py:142-315 | the task row ends completed with all rows counted and the table fully recalculated, failed with the table untouched when validation fails, or failed with exactly the channels before the error recalculated (`RecalculatedRowIs` gives the columns) |
| `DamageStore.ValidateScheduleForDamage` | server/services/schedule_damage_validation.py:24-61 | the issues are those of every scheduled row in order, and none iff all have repeats and weight |
| `DamageStore.IssuesOfOne` | server/services/schedule_damage_validation.py:24-61 | of one row missing repeats are reported before a missing weight |
| `DamageStore.AllIssuesSplit` | server/services/schedule_damage_validation.py:24-61 | issues come in the order of the rows |
| `DamageStore.DamageStore.UpsertEventChannelDamage` | server/storage/database.py:1328-1390 | one row is replaced, all others stay |
| `DamageStore.DamageStore.MarkEventChannelDamageStale` | server/storage/database.py:1467-1519 | exactly the current rows of live events of the scope turn stale with the reason |
| `DamageStore.DamageStore.ClearEventChannelDamage` | server/storage/database.py:1521-1556 | the rows of live events of the scope go, and are counted |
| `DamageStore.DamageStore.UpdateUploadTask` | server/storage/database.py:2932-2960 | only the named, existing task row changes, and in it only the fields given |
| `DamageStore.DamageStore.AssessScopeDamageRepairState` | server/services/scope_damage_repair.py:12-61 | complete iff every scheduled (event, channel) is current; stale-only iff some is stale, none current and none in error |
| `DamageStore.RepairStateMeans` | server/services/scope_damage_repair.py:36-61 | the flags kept by the scan mean what the repair state says of all scheduled channels |
| `DamageStore.StatusAtIs` | server/services/scope_damage_repair.py:12-35 | the status seen for a scheduled channel is that of the row of a live event of the scope |
| `DamageStore.DamageStore.DecideAfterScheduleSave` | server/services/post_upload_precompute.py:84-163 | rescales iff prerequisites are met, only scaling changed and every base is reusable; otherwise the damage rows are cleared unless stamped ones must stay visible, and then the start is refused by an exclusive operation, an active derived task reused, or a task started; fails unhandled iff the same events are scheduled as before and repeats or weight is blank in either preview |
| `DamageStore.SavedRowsAre` | server/services/post_upload_precompute.py:84-163 | the damage rows a save leaves: unchanged, rescaled, kept because a live row of the scope waits for a reprocess, or cleared |
| `DamageStore.ReprocessDecides` | server/services/post_upload_precompute.py:24-81 | after a reprocess a task is started or reused iff there is a schedule whose damage is not complete and its prerequisites are met |
| `DamageStore.InspectDecides` | server/services/post_upload_precompute.py:165-224 | the same when damage is inspected, but for damage that is stale only, which starts nothing |
| `DamageChannels.DeriveDamageChannelSpecs` | server/services/damage_channels.py:90-142 | whatever the channel map, the same twelve keys in the same order, and for every group its three specs with channel, unit, axis and plot, or with the error for a missing plot, disagreeing X channels or a channel that is not configured |
| `DamageChannels.SpecsSay` | server/services/damage_channels.py:90-142 | spec by spec: x and y from the axes of the XY plot, z from the Y axis of the XZ plot |
| `DamageChannels.DamageKeysAre` | server/services/damage_channels.py:46-87 | the twelve keys by name |
| `DamageChannels.PlotRowIsLast` | server/services/damage_channels.py:90-99 | of several rows of one plot the last counts |
| `DamageLifecycle.RunKeepsWellFormed` | server/services/damage_calculation_task.py:210-273 | in every reachable table a row is current or stale iff it has a base, and its scheduled value is then base times repeats times weight times multiplier as stored beside it |
| `DamageLifecycle.ChangesMark` | server/services/durability_schedule.py:168-172 | a channel-map change, and a save that goes no further, turn exactly the current rows of live events of the scope stale, each with its reason |
| `DamageLifecycle.WithoutScopeIs` | server/storage/database.py:2427-2465 | the deletion of a scope takes its events but those deleted softly before |
| `DamageLifecycle.CurrentAgainOnlyByRecalculation` | server/services/schedule_damage_rescale.py:67-83 | in every run a row stamped channel_reprocess_required is current again only if it was recalculated |
| `DamageLifecycle.RescaleRevivesOnlyUnlisted` | server/services/schedule_damage_rescale.py:55-132 | without a save's check for live events the fast path revives a stamped row iff its event is scheduled but its channel is no longer listed |
| `DamageLifecycle.PurgedEventRevives` | server/services/schedule_damage_rescale.py:55-132 | a stamped row of a purged event is such a case |
| `DamageLifecycle.MapChangeKeepsFreshIff` | server/storage/database.py:1467-1519 | after a channel-map change every reusable base is of the newest map iff no row of the scope was stale for another reason |
| `DamageLifecycle.EventsReplacedKeepsFreshIff` | server/storage/database.py:772-783 | deleting, purging, moving and uploading events keeps every reusable base fresh iff no event that becomes live finds a usable row of an older map or another scope |
| `DamageLifecycle.MapReplacedKeepsFreshIff` | server/services/ingestion.py:912-960 | a map replaced by a folder upload, which marks nothing, keeps every reusable base fresh iff the scope has none |
| `DamageLifecycle.ScopeDeletedKeepsFresh` | server/storage/database.py:2427-2465 | the deletion of a scope drops its map and keeps damage rows, but leaves no live event that could use one |
| `DamageLifecycle.StoreKeepsFreshIff` | server/services/damage_calculation_task.py:188-273 | storing a channel keeps every reusable base fresh iff its series was read under the newest map of its event's scope, or the row holds no base or its event is gone |
| `DamageLifecycle.StaysFreshIffClean` | server/storage/database.py:1467-1519 | over any run every base a rescale may reuse is of its scope's newest map throughout iff each map change, each change of the events and each stored channel meets its condition |
| `DamageLifecycle.StepKeepsReadsNewestIff` | server/services/damage_calculation_task.py:188-204 | a step leaves a task with a reading of an older map iff it changes the map of, or moves, a live event between its reading and its storing |
| `DamageLifecycle.UninterruptedStoresAreFresh` | server/services/ingestion.py:1365-1386 | in runs without such steps the conditions on map and event changes alone decide |
| `DamageLifecycle.InterruptedReadIsStored` | server/services/damage_calculation_task.py:188-273 | a map change between reading and storing makes a row current and reusable with an outdated base |
| `DamageLifecycle.PurgedRowReturns` | server/storage/database.py:753-783 | deleting an event, changing the map, purging and uploading again leaves any current row reusable with its outdated base |
| `DamageLifecycle.FirstReasonSticks` | server/storage/database.py:1486-1507 | a blocked save followed by a map change leaves any fresh current row reusable with an outdated base |
| `DamageLifecycle.RecalculationIsFixpoint` | server/services/post_upload_precompute.py:38-46 | after a recalculation the scope is complete iff every scheduled event is live and each of its channels calculates; both follow-up decisions then do nothing |
| `Substitution.SequentialIsSimultaneousIffNoChain` | server/storage/identity.py:376-398 | rewriting pair by pair equals substituting at once iff no pair writes an id a later pair rewrites |
| `Substitution.SettledRewriteIsIdempotent` | server/storage/identity.py:376-398 | with settled targets rewriting twice is rewriting once |
| `Substitution.SwappedIdsCollapse` | server/storage/identity.py:376-398 | two swapped ids are both rewritten to the same user |
| `IdentityMigration.ReferencesResolve` | server/storage/identity.py:285-315 | if no id names two usernames and the migration completes, every listed reference that named a legacy user ends naming the identity-store user of that username, and all others stay |
| `IdentityMigration.RestartReachesSameState` | server/storage/identity.py:276-315 | stopping after any number of committed transactions and starting over ends with the users, references and mark of one uninterrupted run, or stops where that does |
| `IdentityMigration.CompletesIff` | server/storage/identity.py:269-324 | a migration completes iff the ids of new users are free and no dashboard's key column would hold an id twice after substitution |
| `IdentityMigration.KeyCollisionStops` | server/storage/identity.py:376-398 | preferences of both a legacy id and the id it is rewritten to stop every migration |
| `IdentityMigration.BobStopsMigration` | server/storage/identity.py:22-33 | a host with such preferences, although no id names two users and no key is held twice |
| `IdentityMigration.FirstOneWins` | server/storage/identity.py:285-299 | a merged user is the identity store's own, or has every column of the first legacy row of that name in path order, except that an administrator may always write |
| `IdentityMigration.MergedUsersNamed` | server/storage/identity.py:285-299 | existing users are unchanged, every non-blank legacy name becomes a user, and each user's id was given to that name before |
| `IdentityMigration.ReadableRow` | server/storage/identity.py:285-373 | a legacy row without id or name is skipped; a name that is not blank is stripped |
| `IdentityMigration.ReadableSplit` | server/storage/identity.py:337-373 | legacy rows are read in their order |
| `IdentityMigration.AllLegacySplit` | server/storage/identity.py:285-299 | dashboards are read in path order |
| `Text.StripCuts` | server/storage/identity.py:285-293 | stripping cuts spaces off both ends and nothing else |
| `IdentityMigration.IdPairsSettled` | server/storage/identity.py:300-313 | if one id never names two usernames, no id map rewrites a target again |
| `IdentityMigration.MigratedIs` | server/storage/identity.py:269-324 | the transactions of a completed run add up to the merged users and the remapped dashboards |
| `IdentityMigration.IdentityHost.Migrate` | server/storage/identity.py:269-324 | runs once; completes with exact counts iff the conditions hold, and otherwise leaves what was committed before the transaction that violates a key; `FirstOneWins` and `ReferencesResolve` say what the result holds |
| `IdentityMigration.IdentityHost.InsertLegacyUser` | server/storage/identity.py:236-266 | a known username is left alone; a new one is inserted with the columns of its row, an administrator with write access, unless its id is taken under another name |
| `IdentityMigration.IdentityHost.RemapDashboardUserReferences` | server/storage/identity.py:376-398 | all listed columns of one dashboard are rewritten by the id map and a change is reported iff an update was issued, or nothing changes iff a key column would hold an id twice |
| `IdentityMigration.UpdatePairwise` | server/storage/identity.py:387-397 | the in-place loop over pairs computes the rewriting of every value; in a key column some update fails iff the result holds an id twice |
| `Admission.AtMostOneInSection` | server/services/operation_admission.py:256-288 | in every interleaving at most one handler is in the exclusive section and the slot is held exactly while one is; a rejected caller never clears it |
| `Admission.SwapMeetsWorkerIff` | server/routers/export.py:325-440 | in every run of atomic handlers and freely interleaved workers and clean-ups a switch or deletion meets a live worker of the current database iff one that has lost its row is live there, an active task iff such a worker set its row active again, an export iff it was marked as stalled, and a live worker of its target iff one there has its row active or has lost it |
| `Admission.SwapsAreQuiet` | server/routers/export.py:325-440 | as long as no live worker's row was taken, a switch or deletion meets no active task and no live worker in the current database |
| `Admission.QuietLeavesOnlyLost` | server/services/operation_admission.py:213-243 | what passes the guard: every live worker of the current database has lost its row |
| `Admission.LosesRowIff` | server/storage/data_backfills.py:207-261 | a live worker's row stays active iff the step does not take it: row or heartbeat expiry, deletion of its scope in its database, opening of its database for a switch |
| `Admission.LosesAnyIff` | server/storage/database.py:2452-2460 | a first worker loses its row iff a step takes a live worker's |
| `Admission.ReprocessMeetsOnlyLost` | server/services/ingestion.py:1365-1386 | a reprocess that starts, and so changes its scope's map, meets no live derived task of the scope but such as have lost their row |
| `Admission.StepKeepsOwnRows` | server/services/ingestion.py:1399-1455 | a live worker that has not lost its row has it active in the database its request was given, also while a reprocess worker hands over to its follow-up damage task |
| `Admission.NoWorkerIff` | server/services/operation_admission.py:213-243 | an existing database has no live worker iff none there has lost its row and no active row in it is that of a live worker |
| `Admission.LeavesHomeIff` | server/dependencies.py:34-79 | while all workers belong to the current database, a step changes that iff a request starts a task in a database switched away since, or a switch happens under a worker that has lost its row |
| `Admission.SwapMeetsNoWorkerIff` | server/routers/export.py:325-440 | a switch or deletion meets no live worker at all iff all are at home and none has lost its row, which holds as long as no request has started a task away and no row was taken |
| `Admission.DeletionUnderLiveWorker` | server/routers/upload.py:456-529 | a run in which a database is deleted under a live upload worker while the guard finds the current one quiet |
| `Admission.SwitchBackHidesWorker` | server/routers/export.py:160-164 | a run in which a switch back fails the row of a live upload worker, and the next switch happens under it |
| `Admission.ScopeDeletionHidesWorker` | server/routers/upload.py:867-897 | a run in which the deletion of a scope takes the row of a live damage worker, and the next switch happens under it |
| `Admission.HeldStepsKeepGuard` | server/services/operation_admission.py:213-243 | once a handler passed its guard, only workers that have lost their row can work on the current database or make a row active there |
| `Admission.InterleavedHandlersBreakSwaps` | server/routers/upload.py:517-529 | if another handler may run between guard and section, an upload started there is live when the database is switched |
| `AdmissionSteps.StartIff` | server/services/operation_admission.py:193-211 | a start creates its queued row and live worker iff no exclusive operation is under way, the request's database is not deleted and the unfinished derived task of the scope, if any, is not to be reused; otherwise nothing changes |
| `AdmissionSteps.UploadStartsIff` | server/services/operation_admission.py:193-200 | an upload is kept out by an exclusive operation or the deletion of its database only |
| `AdmissionSteps.ReprocessStartsIff` | server/services/ingestion.py:1365-1371 | a reprocess starts iff, besides, no derived task of its scope is unfinished |
| `AdmissionSteps.DecisionIs` | server/services/ingestion.py:1399-1466 | a reprocess worker fails at its follow-up iff its database is deleted, or it needs one during an exclusive operation |
| `AdmissionSteps.FollowUpIff` | server/services/ingestion.py:1399-1466 | the follow-up damage task is created iff the unfinished derived task found is no damage task |
| `AdmissionSteps.GuardPassesIff` | server/services/operation_admission.py:213-288 | the guard passes iff nobody else uses the database to be switched, no export is listed, no task of the current database is unfinished and the slot is free |
| `AdmissionSteps.SectionIs` | server/services/operation_admission.py:256-288 | a caller enters iff the slot is free, and leaves it free |
| `AdmissionSteps.TakenRowIs` | server/storage/data_backfills.py:207-261 | which rows each clean-up, switch and deletion fails or deletes |
| `AdmissionSteps.WorkerWrites` | server/storage/database.py:2932-2960 | a worker changes the status of its own row only, if that is still there |
| `AdmissionSteps.CancelIs` | server/routers/upload.py:233-275 | a cancel request marks a queued or running task, and nothing else |
| `AdmissionSteps.ChangeIs` | server/routers/export.py:325-440 | the current database changes iff a switch succeeds, and one is deleted iff a deletion does |
| `DatabaseSwap.AppState.SwapActiveDatabase` | server/routers/export.py:214-239 | a helper: swaps iff both health checks and the session manager succeed, otherwise puts everything back; the server keeps serving one open store with only its own cached data unless clearing the caches fails |
| `EventIds.GenerateEventId` | server/services/ingestion.py:1814-1836 | ends for every finite id set with the first candidate that is not taken |
| `EventIds.BaseNameIs` | server/services/ingestion.py:1822-1827 | the base name is the file's name without one .csv or .rsp at its end, in any case |
| `EventIds.DecimalIs` | server/services/ingestion.py:1829-1834 | a suffix is the number's decimal digits without a leading zero |
| `EventIds.TakenAreMany` | server/services/ingestion.py:1828-1834 | the counter never passes the number of existing ids |
| `EventIds.BatchIdsFresh` | server/services/ingestion.py:971-979 | the ids of a batch are new and pairwise distinct |
| `EventIds.BatchIdsUnique` | server/services/ingestion.py:971-979 | the ids are determined by the file names and the starting set |
| `EventIds.SameNamesCountUp` | server/services/ingestion.py:1828-1834 | files of one unused base name get the name and then the suffixes _1, _2, _3 in order |
| `EventIds.BasenameIsTail` | server/services/ingestion.py:1819-1820 | the base name is what follows the last slash |
| `Ingestion.IngestionService.IngestPending` | server/services/ingestion.py:640-827 | without a channel map: the committed ids in order, and what is reported at every way to stop (`RunEndsBy` says which check stops it how) |
| `Ingestion.IngestionService.WriteMapped` | server/services/ingestion.py:966-1160 | with a channel map: the same for the write phase |
| `Ingestion.IngestionService.Ingest` | server/services/ingestion.py:628-1160 | the whole ingestion by the place and manner of its end, with the exact log of its transactions; errors that escape it come before any commit; `RunEndsBy`, `ChecksEndBy` and `NothingToWrite` say the end in terms of the files' answers |
| `Ingestion.IngestionService.RunUpload` | server/services/ingestion.py:486-566 | the task row ends with the reported ids and the matching status, or failed with the ids recorded on the way if writing it fails; the store with the logged transactions |
| `Ingestion.FirstFailingCheckDecides` | server/services/ingestion.py:646-827 | the checks of a file in order: it goes through iff all pass, and otherwise the first that fails decides whether it is a cancellation or a failure, before or after the commit |
| `Ingestion.RunEndsBy` | server/services/ingestion.py:646-827 | a write loop ends cancelled iff the first check to fail was a look at the cancel request; a failed step reports nothing, and an event is committed and unreported iff that check came behind its commit |
| `Ingestion.ChecksEndBy` | server/services/ingestion.py:881-966 | with a channel map a file failing its first checks ends the run with nothing committed, cancelled iff by a cancel request |
| `Ingestion.RunPasses` | server/services/ingestion.py:971-1160 | if every file passes, all are committed, and reported iff what follows succeeds |
| `Ingestion.WritesIff` | server/services/ingestion.py:628-971 | a write loop is reached iff there is a file, the surrounding steps succeed and, with a channel map, every file passes its first checks |
| `Ingestion.NothingToWrite` | server/services/ingestion.py:628-645 | without stored originals, channel map or tables an upload fails with nothing committed |
| `Ingestion.SetupFails` | server/services/ingestion.py:912-966 | the same if the snapshot or the tables cannot be prepared after the first checks |
| `Ingestion.LoggedByChecks` | server/services/ingestion.py:646-827 | a file's artifact, run, event and retained original are each stored iff all checks up to then passed |
| `Ingestion.ReportedWereCommitted` | server/services/ingestion.py:646-827 | reported ids are leading committed ones, new and distinct; a cancelled run omits at most the last |
| `Ingestion.SuccessReportsAll` | server/services/ingestion.py:971-1151 | a successful run committed one event per file and reports exactly these in order with their rows summed |
| `Ingestion.ReportsAllIff` | server/services/ingestion.py:1059-1160 | all committed ids are reported iff no write loop was reached, or all files and what follows them succeeded, or the file that stopped the loop was not committed and was a cancel request, a failed commit or the first |
| `Ingestion.CommitsAllReportsNone` | server/services/ingestion.py:646-827 | if all files go through and what follows fails, one event per file is committed and none reported |
| `Ingestion.UnreportedEvent` | server/services/ingestion.py:646-827 | such a run, for any file name and database |
| `Ingestion.CleanupRestoresEventsIff` | server/storage/database.py:2020-2063 | a cleanup of the reported ids restores the events under the same condition; otherwise exactly the unreported ones stay |
| `Ingestion.RecordedRestoresEventsIff` | server/services/ingestion.py:455-471 | the ids recorded on the way include the reported ones, and their cleanup restores the events iff the file that stopped a write loop was not committed |
| `UploadCleanup.UploadStore.CleanupFailedFolderUploadTask` | server/storage/database.py:2030-2175 | refuses unknown, non-upload and live tasks without change; otherwise deletes exactly the recorded existing events and what only they used |
| `UploadCleanup.SweptRuns` | server/storage/database.py:2137-2147 | deleting the candidate runs that no remaining link names leaves exactly the runs in use |
| `UploadCleanup.CleanupKeepsClosure` | server/storage/database.py:2100-2175 | surviving links keep their run, surviving runs both artifacts, and rows, lineage and retained artifacts their event |
| `UploadCleanup.SurvivorsKeepEverything` | server/storage/database.py:2100-2175 | a surviving event keeps every row, its run and the run's artifacts unchanged |
| `UploadCleanup.CandidatesGoUnlessShared` | server/storage/database.py:2137-2175 | what deleted events used is gone iff nothing remaining uses it; what they did not use stays |
| `UploadCleanup.CleanupLeavesNothingNewOver` | server/storage/database.py:2137-2175 | every run or artifact that is unused after a cleanup was unused before |
| `UploadCleanup.CleanupsAddUp` | server/storage/database.py:2100-2175 | two cleanups one after the other are one cleanup of both sets, in either order |
| `UploadCleanup.SecondCleanupDeletesNothing` | server/storage/database.py:2046-2063 | a second cleanup of a task finds none of its events and deletes nothing |
| `UploadRuns.UploadKeepsClosure` | server/storage/database.py:886-1064 | an upload stopped after any of its transactions leaves every reference resolved |
| `UploadRuns.CommitWrites` | server/services/ingestion.py:971-1059 | a commit appends measurements and replaces the other rows of its event, and touches no other rows |
| `UploadRuns.RunsLeft` | server/services/ingestion.py:228-276 | after a stopped upload and its cleanup the runs are the older ones and those of registered files that were not cleaned up |
| `UploadRuns.SourcesLeft` | server/storage/database.py:2149-2175 | the sources left are those there before or stored, but for those only deleted runs used, each with the name and owner it was last stored under |
| `UploadRuns.DerivedsLeft` | server/storage/database.py:1020-1064 | the same of derived artifacts, each with the source and owner it was last stored under |
| `UploadRuns.StoppedUploadRestoredIff` | server/storage/database.py:2030-2175 | wherever an upload stopped, the cleanup restores every table iff all registered files are cleaned up, their ids left no trace before, their content was retained for no earlier event, new artifacts are used by cleaned files alone, and old ones were used before if at risk and last stored with the columns they had |
| `UploadRuns.OverwrittenSourceStays` | server/storage/database.py:951-993 | an original last stored under another name or owner keeps these whatever is cleaned up |
| `UploadRuns.UnusedSourceStays` | server/storage/database.py:2149-2175 | a new original that no registered file's run names stays without a user |
| `UploadRuns.ReuploadLosesRetained` | server/storage/database.py:915-926 | a cleaned file whose content was retained before takes the earlier retained artifact with it |
| `UploadRuns.SourceNameDanglesIff` | server/storage/database.py:2162-2175 | after a stopped upload and its cleanup every derived artifact names a stored source iff no derived artifact that stays was last stored from a source that goes |
| `UploadRuns.SharedContentDangles` | server/storage/database.py:1020-1064 | it goes wrong for every cleaned file with the canonical content of an older run but a source of its own |
| `UploadRestoration.UploadRestoredIff` | server/services/ingestion.py:628-1160 | over whole uploads: the cleanup of the reported ids restores every table iff all registered files were reported and the conditions on ids, retained content and artifacts hold |
| `UploadRestoration.AllReportedIff` | server/services/ingestion.py:881-966 | which ways to end an upload report every file it registered |
| `UploadRestoration.UploadLeavesRuns` | server/services/ingestion.py:228-276 | the runs left are the older ones and those of files registered but not reported |
| `UploadRestoration.StoppedMappedUploadLeavesRun` | server/services/ingestion.py:881-1160 | an upload with a channel map that stops in its write loop always leaves the last file's run behind |
| `UploadRestoration.RefusedUploadOverwrites` | server/services/ingestion.py:633-700 | an upload whose first file is refused reports nothing and leaves known originals under the new name and owner |
| `UploadRestoration.SameNameLeavesSource` | server/services/ingestion.py:228-246 | of files of one name every run names the last one's original, and a new one before it stays unused |
| `UploadRestoration.IngestionKeepsClosure` | server/services/ingestion.py:628-1160 | however an upload ends, it and its cleanup leave every reference resolved |
| `RateLimiter.AdmittedIff` | server/middleware/rate_limiter.py:36-46 | a request is admitted iff, counting it, neither the requests since the start nor those since any earlier request exceed the bucket's allowance |
| `RateLimiter.WindowAdmitsAtMost` | server/middleware/rate_limiter.py:36-46 | any window of requests admits at most the capacity plus what is refilled in it |
| `RateLimiter.TokensStayInRange` | server/middleware/rate_limiter.py:36-46 | in every run tokens stay between zero and the capacity |
| `RateLimiter.RetryAfterIsEnough` | server/middleware/rate_limiter.py:48-53 | with only refusals in between, a request made after the advertised wait is admitted iff the bucket can hold a token; a wait exists iff the bucket refills |
| `RateLimiter.RetryAfterIsClose` | server/middleware/rate_limiter.py:48-53 | the advertised wait is at least one second and at most one more than needed: a request over a second earlier is refused |
| `RateLimiter.RefusalsLeaveNoTrace` | server/middleware/rate_limiter.py:36-46 | refused requests do not change the level at any later time |
| `RateLimiter.TokenBucket.Consume` | server/middleware/rate_limiter.py:36-46 | refills, then takes the tokens iff they are there |
| `RateLimiter.TokenBucket.constructor` | server/middleware/rate_limiter.py:32-34 | an initial count of zero means a full bucket |
| `RateLimiter.Limiter.GetBucket` | server/middleware/rate_limiter.py:122-132 | one bucket per key, new ones full, existing ones untouched |
| `RateLimiter.Limiter.CheckRateLimit` | server/middleware/rate_limiter.py:134-160 | blocks iff the key's own bucket lacks a token, and leaves every other key's bucket alone |
| `RateLimiter.BucketKeyInjective` | server/middleware/rate_limiter.py:139-142 | different categories or actors have different keys |
| `PlotEncoding.BuildBinaryPlotData` | server/routers/dashboard.py:784-811 | the buffer is the documented layout, or an error iff a length or count does not fit |
| `PlotEncoding.LowestByteFirst` | server/routers/dashboard.py:787-803 | byte i of a packed length or count is its digit of weight 256 to the i: little-endian |
| `PlotEncoding.SeriesLayout` | server/routers/dashboard.py:787-803 | the place of every part of a series: two texts behind their lengths, the number of x values, x values, y values |
| `PlotEncoding.WordAt` | server/routers/dashboard.py:800-803 | value i of an array takes the four bytes from 4 i on |
| `PlotEncoding.ResponseLayout` | server/routers/dashboard.py:784-787 | the response starts with the number of series |
| `PlotEncoding.EncodedReadsBack` | client/src/lib/utils/binary-decode-core.ts:38-77 | the decoder returns every fitting list with equal x and y lengths, whatever follows it |
| `PlotEncoding.ReadIsEncoded` | client/src/lib/utils/binary-decode-core.ts:38-77 | whatever the decoder accepts is the encoding of what it returns, followed by ignored bytes |
| `PlotEncoding.RoundTripIff` | server/routers/dashboard.py:761-809 | for a fitting list the round trip holds iff every series has as many x as y values |
| `PlotEncoding.EncodingsArePrefixFree` | server/routers/dashboard.py:761-809 | bytes split into a response and a rest in one way only |
| `FileTokens.DiscoverEventDelimiter` | server/services/schedule_event_rows.py:14-39 | the token found in most files, then at the earliest position, then met first; none iff there is no token (`CountIs` and `PositionIs` say what is compared) |
| `FileTokens.CountIs` | server/services/schedule_event_rows.py:18-27 | the count of a token is the number of files that hold it |
| `FileTokens.PositionIs` | server/services/schedule_event_rows.py:18-27 | the position of a token is the smallest at which it first occurs in a file |
| `FileTokens.LastComponentIsTail` | server/services/schedule_event_rows.py:9-11 | the file name is what follows the last slash or backslash |
| `FileTokens.StemAndExtension` | server/services/schedule_event_rows.py:9-11 | the stem is the name without its last extension, a dot and at least one character behind it |
| `FileTokens.SplitHasNoSeparator` | server/services/schedule_event_rows.py:19 | tokens hold no underscore |
| `FileTokens.EventNameIsPrefix` | server/services/schedule_event_rows.py:42-47 | the event name is the beginning of the stem, cut right before the delimiter |
| `FileTokens.JoinSplit` | server/services/schedule_event_rows.py:42-47 | joining a stem's tokens gives the stem back |
| `ScheduleRows.MatchIsFirstLongest` | server/services/schedule_event_rows.py:50-54 | a stem matches its first longest occurring pattern, and none iff no pattern occurs |
| `ScheduleRows.OccursIff` | server/services/schedule_event_rows.py:50-54 | a pattern occurs iff the stem is something, the pattern and something |
| `ScheduleRows.BuildScheduleEventRows` | server/services/schedule_event_rows.py:57-107 | the rows of the events with a file, sorted, under the discovered delimiter |
| `ScheduleRows.OneRowPerFile` | server/services/schedule_event_rows.py:79-99 | one row per event with a source file |
| `ScheduleRows.RowsAreSorted` | server/services/schedule_event_rows.py:101-106 | a stable permutation sorted by sequence and file name; `SortedRowsAscend` says which way |
| `ScheduleRows.SortedRowsAscend` | server/services/schedule_event_rows.py:101-106 | sequences ascend, equal ones by file name, and a row without one follows every row below a thousand million |
| `ScheduleRows.TextLeIs` | server/services/schedule_event_rows.py:101-106 | file names compare character by character, a beginning first |
| `ScheduleRows.RowFollowsItsEntry` | server/services/schedule_event_rows.py:83-99 | a row carries the pattern, scaling and number of the first entry with its longest matching pattern; an empty pattern means no pattern occurs |
| `ScheduleRows.RowNamesItsEvent` | server/services/schedule_event_rows.py:79-99 | a row names its event, stripped file and event name; without a pattern it has the scaling of the first entry with the empty pattern, if any |
| `ScheduleRows.GeneratedPassesIff` | server/services/schedule_damage_validation.py:24-61 | generated rows pass validation iff every event with a file leads to an entry with repeats and weight, or to a blank pattern |
| `ScheduleRows.CompleteEntriesPass` | server/services/schedule_damage_validation.py:24-61 | entries that all state repeats and weight always yield a schedule that passes |
| `StableSort.SortAlike` | server/services/schedule_event_rows.py:101-106 | sorting keeps the order of rows with equal keys |

## Left out

- Float rounding, NaN and infinities in the downsampler: geometry is over exact reals, and the final filter on non-finite values is the identity there. Distances are any non-negative function of the coordinate differences.
- SQL, DuckDB connections, Parquet and artifact files, and thread scheduling inside one transaction: tables are maps and sets, a transaction is one step.
- Fatigue calculation, RSP conversion, CSV and YAML parsing, channel-name resolution: uninterpreted functions or answers given as parameters.
- Message texts: error messages and display names are shortened or dropped; which row, field or reason they report is modelled.
- DamageStore.DamageStore.RescaleScheduleDamage: the store's rows are visited in an arbitrary order and the whole rescale is one transaction, while the server commits row by row.
- DamageStore.DamageStore.DecideAfterScheduleSave: the latest active derived task is a parameter, and starting the task is the decision, not the thread; whether the exclusive section admits it is given.
- DamageLifecycle.StaysFreshIffClean: a series counts as read under the map at the time of reading; measurements that a reprocess rewrites after it has changed the map are not modelled.
- Terminal task states being absorbing: workers, reconciliation and cancel write the status unconditionally, so the code does not guarantee it.
- Admission.SwapMeetsWorkerIff: present users, task progress fields and the health checks are not part of the transition system; a worker's writes to its row are one step each, and so is all that one request handler does between two awaits.
- IdentityMigration.IdentityHost.Migrate: discovering and opening the dashboard files is left out, and an empty id map counts as a remap that changes nothing. A key violation is one of the result of an update; DuckDB's own limits on changing a key twice in one transaction are not modelled.
- Ingestion.IngestionService.Ingest: normalization is a parameter, so files that a cancelled conversion leaves out are not counted; per-file results, hashes and concurrent uploads enter only as answers of validation and commit.
- UploadCleanup.UploadStore.CleanupFailedFolderUploadTask: unlinking artifact files and the order of the reported lists; damage rows of deleted events, which the cleanup leaves in place, are not modelled.
- UploadRuns.StoppedUploadRestoredIff: "every table" means events, their rows, retained artifacts, links, lineage, runs and artifacts; the program row, the channel map and its snapshot, which an upload also writes, are not part of it. No other upload or cleanup runs in between, and every recorded id is one the upload committed. A purge leaves links, lineage and rows of an event behind, so that there are none under the new ids is a condition here, and that references resolve at the start a hypothesis of the closure theorems.
- UploadRestoration.UploadRestoredIff: covers uploads that end by themselves; a worker lost on the way is any beginning of the transactions, as in UploadRuns.StoppedUploadRestoredIff.
- Admission.DeletionUnderLiveWorker: what the lost worker's store does once its file is gone; a file created under the name of a deleted one counts as another database.
- DatabaseSwap.AppState.SwapActiveDatabase: the contents of the stores, connections and cache; each step's success is given.
- RateLimiter.Limiter.CheckRateLimit: choosing the category and the actor of a request; with a limit of zero the server fails with a division error where the model returns no wait.
- PlotEncoding.BuildBinaryPlotData: text encoding and float conversion; words are bit patterns, and the decoder's offset is the rest of the bytes.
- EventIds.GenerateEventId: paths use forward slashes.
- Transfer packages: generated ids are reassigned on import, so it is not an identity on references.
- Authentication, sessions, presence, configuration, caches with a time limit, weight buckets, URI helpers, plotting and the client: plumbing or facts of one branch.
