# FlowPulse: append-only logs, resumable readers and one-time protocols

A Dafny model of the FlowPulse control plane's logs and protocols, and proofs about
every run of them. `dafny verify dfyconfig.toml` checks all of it.

- **Spool reader** (`SpoolLog`, `SpoolReader`, `SpoolFacts`, `SpoolExactlyOnce`,
  `SpoolProgress`, `SpoolStalls`, `SpoolConnector`): a Collector file is read through a durable
  (byte offset, item index) cursor. Each poll admits at most one fact and then saves
  the cursor; a crash can fall between the two. A run is any sequence of appends,
  polls and crashed polls. The main theorem is that the store is one clean pass over
  the facts between two cursors, plus at most the fact the cursor points at.
- **Metric intervals** (`MetricDecoder`, `SpoolIntervals`, `SpoolMetrics`): histogram
  points become cumulative totals, totals become reset-aware intervals that add up,
  over feeds of scrapes and over runs of the reader.
- **Trace join** (`TraceJoin`, `TraceReader`, `TraceConnector`, `TraceLookback`): the
  span index, the join through a sliding lookback, the exact condition under which
  the window loses nothing, and a file on which it does.
- **Live outbox** (`LiveOutbox`, `LiveTransactions`, `LiveStore`): transactions that
  take a case lock, read, take the tenant lock, allocate `MAX + 1` and commit.
  Every interleaving is serial in commit order.
- **Live stream** (`LiveStream`, `LiveSnapshot`): paged server reads, the browser's
  handler, disconnects and `Last-Event-ID` resumes (section 9.2 of the WHATWG HTML
  Standard), what the page shows compared with the latest projections, and runs after
  which the snapshot misses a case (`LiveCutOff`).
- **Owner gate** (`OwnerGate`, `OwnerWorkflow`): the frozen diagnosis workflow as one
  routine and any number of updates that interleave at each await under one lock.
- **Knowledge ledger** (`Knowledge`, `KnowledgePlane`), **authorization**
  (`Authorization`), **evidence lineage and verification** (`Lineage`,
  `Verification`), **run binding** (`BindingLocks`, `BindingWaits`) and the **browser's event window**
  (`BoundedMerge`). `SortedLists` and `Options` are shared helpers.

Objects the source updates in place are classes whose methods are proved equal to the
step functions of the run models; loops stay loops. Protocols with concurrency are
state machines whose steps are the stretches between two awaits or two statements.

## Where the code differs from what is written about it

Each of these is a lemma, with the exact condition or a concrete input.

- A lost acknowledgement is meant to retry idempotently (control_plane/flowpulse_cp/otel_spool.py:1675-1677). It
  does only while the fact keeps its freshness class and the same actor polls, because the
  compared hash covers freshness and subjects (control_plane/flowpulse_cp/realtime_models.py:365-378). Afterwards the retry is refused and the reader
  stops for good: `RetryAcceptedIff`, `ExpiredRetryStallsForever`.
- A rejected fact is meant not to poison the stream (control_plane/flowpulse_cp/otel_spool.py:1639-1640). A fact
  outside the binding's validity is not rejected by the normalizer but refused by the
  store, and the reader never passes it: `OutsideBindingStallsForever`.
- A record longer than the byte limit stops the reader: `OverlongRecordStallsForever`.
  `SpoolStalls` works all three standstills through on one small file.
- The lookback moves forward with a partial cursor, so a parent can drop out of sight
  between two items of one record: `ListStableIff`, `LookbackLosesFact`.
- One interval, computed from the first item, serves every item of a metric record:
  `OneIntervalPerRecord`, `SecondHistogramMispublished`. Snapshots out of time order
  are counted twice: `BalancedIff`, `LateScrapeIff`, `SwappedScrapesCountTwice`.
- The live snapshot holds at most 100 incidents; a case cut off stays invisible until it
  is heard of again: `CutOffByCount`, `SnapshotPlusStream`, with 101 cases as the input
  in `FirstOf101Invisible`.
- Binding locks are taken in name order, but the keys are hashes of the names:
  `DeadlockIff`, `CollisionsDeadlock`.
- Promoting a superseded revision again is a collision, not a replay: `RepromotionIff`.
- A repeated claim id with other citations adds link rows: `LinksExactIff`.
- A workspace intent that expires before its assertion is signed is spent:
  `LateSigningBurns`.

## Model

| member | source | states |
|---|---|---|
| `SpoolLog.ReadWindow` | control_plane/flowpulse_cp/otel_spool.py:890-910 | The read loop returns the one longest run of consecutive whole records that fits the line limit and the byte limit |
| `SpoolLog.WindowIsLongest` | control_plane/flowpulse_cp/otel_spool.py:890-910 | The recursive window is such a longest fitting run |
| `SpoolLog.LongestIsUnique` | control_plane/flowpulse_cp/otel_spool.py:890-910 | There is only one such run, so the loop and the recursion agree |
| `SpoolConnector.SpoolRepository.SaveSpoolCursor` | control_plane/flowpulse_cp/realtime_v3_persistence.py:144-159 | A cursor revision is written once and revisions stay contiguous; the same cursor again is a replay, anything else an error |
| `SpoolConnector.SpoolRepository.FindEvent` | control_plane/flowpulse_cp/realtime_repository.py:637-639 | The stored delivery with a provider event id, if any |
| `SpoolConnector.SpoolRepository.AdmitSourceEvent` | control_plane/flowpulse_cp/realtime_repository.py:627-700 | Insert-if-absent on the provider event id; refused outside the binding, when a stored twin differs in anything hashed (all but the arrival time), or over its dispatch row; for the rows connectors send the dispatch checks cannot fail, so it is refused exactly in the first two cases |
| `SpoolConnector.OtelSpoolConnector.Decode` | control_plane/flowpulse_cp/otel_spool.py:886-928 | The decode loop finds the first and the last record with observations |
| `SpoolConnector.OtelSpoolConnector.SaveCursor` | control_plane/flowpulse_cp/otel_spool.py:946-974 | The cursor never moves backwards or in place; otherwise one revision is appended with the lines passed |
| `SpoolConnector.OtelSpoolConnector.Deliver` | control_plane/flowpulse_cp/otel_spool.py:1051-1168 | One item is published, normalized and admitted before the cursor moves; its whole effect on the repository |
| `SpoolConnector.OtelSpoolConnector.Poll` | control_plane/flowpulse_cp/otel_spool.py:809-1168 | One poll has exactly the effect of the run model's poll step: nothing outside the binding's validity at its own clock, and a refused admission leaves the repository as it was |
| `SpoolFacts.FirstSkipsNothing` | control_plane/flowpulse_cp/otel_spool.py:1021-1025 | Taking the first record with observations leaves no fact of the window behind |
| `SpoolFacts.LastLeavesNothing` | control_plane/flowpulse_cp/otel_spool.py:1021-1025 | On entry, taking the last record leaves no fact of the window after it |
| `SpoolFacts.CountIsLines` | control_plane/flowpulse_cp/otel_spool.py:966-969 | The line number grows by exactly the record ends passed |
| `SpoolExactlyOnce.ExactlyOnce` | control_plane/flowpulse_cp/otel_spool.py:856-1168 | Over every run of appends, polls and crashed polls from any good cursor: the store is its old keys followed by the kept facts between the two cursors, each once and in file order, plus at most the fact the cursor points at; every other fact was skipped for an empty interval or a rejection; offsets are record starts and the line number is exact |
| `SpoolExactlyOnce.EveryEventHasOrigin` | control_plane/flowpulse_cp/otel_spool.py:1051-1160 | Every event stored along a run is the normalized form of an item of the file taken at one poll of that run |
| `SpoolExactlyOnce.NoPartialRecordSurprise` | control_plane/flowpulse_cp/otel_spool.py:978-1047 | The partial-record-changed and record-drained outcomes cannot occur once the cursor matches the file |
| `SpoolExactlyOnce.PlanByTarget` | control_plane/flowpulse_cp/otel_spool.py:975-1168 | A poll does nothing outside the binding's validity; inside it reads nothing, passes records without facts, or works on exactly one item of the first record with any |
| `SpoolProgress.PollAdvancesUnlessRefused` | control_plane/flowpulse_cp/otel_spool.py:809-1168 | With a whole record waiting, a poll moves (offset, item) strictly forward if and only if the binding is in force at its clock and its event is not turned down; otherwise it changes nothing |
| `SpoolProgress.AdvanceShrinksWork` | control_plane/flowpulse_cp/otel_spool.py:946-974 | Each lexicographic advance strictly shrinks a natural measure of the remaining work |
| `SpoolProgress.Drains` | control_plane/flowpulse_cp/otel_spool.py:809-1168 | A quiet file whose records fit is read to its last complete record within one poll per fact and per record, counting the polls at which the binding is in force, as long as no delivery is refused |
| `SpoolProgress.CrashLosesAck` | control_plane/flowpulse_cp/otel_spool.py:1672-1688 | On every stream, a crash between admission and cursor save leaves the item at the cursor with its delivery stored; a metric record keeps its interval |
| `SpoolProgress.RetryAcceptedIff` | control_plane/flowpulse_cp/otel_spool.py:1672-1688 | At any clock and on every stream, the retry after such a crash is refused if and only if the binding is in force, the fact is not from the future, and it no longer has the freshness it was stored with or is read for other subjects |
| `SpoolProgress.ExpiredRetryStallsForever` | control_plane/flowpulse_cp/realtime_models.py:365-378 | Once every retry is too late for the stored freshness or comes from another actor, no poll ever moves or stores anything again |
| `SpoolProgress.OutsideBindingStallsForever` | control_plane/flowpulse_cp/realtime_repository.py:148-163 | A sound fact of any stream outside the binding validity keeps the cursor in front of it for good |
| `SpoolProgress.OverlongRecordStallsForever` | control_plane/flowpulse_cp/otel_spool.py:897-906 | A record longer than the byte limit keeps the cursor in front of it for good |
| `SpoolStalls.LateRetryStalls` | control_plane/flowpulse_cp/otel_spool.py:1672-1688 | On a file of two facts, one crashed poll and only late retries: the cursor never moves and the second fact is never stored |
| `SpoolStalls.FactBeforeBindingStalls` | control_plane/flowpulse_cp/realtime_repository.py:148-163 | On the same file with a binding that begins after the first fact: the second, which lies inside, is never stored |
| `SpoolStalls.OverlongFirstStalls` | control_plane/flowpulse_cp/otel_spool.py:897-906 | On the same file with a limit of one byte: nothing is ever stored |
| `SpoolProgress.EntryPoll` | control_plane/flowpulse_cp/otel_spool.py:866-883 | On first start or rotation the first cursor saved is a record start in the tail window, with no fact of the window left behind it outside its own record; no cursor is written otherwise |
| `MetricDecoder.DecodeHistogram` | control_plane/flowpulse_cp/otel_spool.py:128-176 | The decoder keeps usable points only and returns their summed counts, failures and durations, the latest observation and the earliest start; nothing without a request |
| `MetricDecoder.TotalsAdd` | control_plane/flowpulse_cp/otel_spool.py:153-163 | Counting point by point or group by group gives the same totals |
| `MetricDecoder.DecodedIsWellformed` | control_plane/flowpulse_cp/otel_spool.py:148-163 | Every decoded snapshot is acceptable to the interval ledger and its cumulative error rate lies in [0,1] |
| `MetricDecoder.OneIntervalPerRecord` | control_plane/flowpulse_cp/otel_spool.py:243-295 | On any store, an item is published with the value of its own counters' growth if and only if its snapshot and the first item's both have an interval with the same growth for its measure, or neither has one |
| `MetricDecoder.DecodedEarliestFirst` | control_plane/flowpulse_cp/otel_spool.py:188-223 | Sorted as the decoder sorts them, no fact of a record is earlier than the first one's snapshot |
| `MetricDecoder.SecondHistogramMispublished` | control_plane/flowpulse_cp/otel_spool.py:243-295 | Two histograms with different counts in one record, on an empty store: the second is published with the first one's count and not its own |
| `SpoolIntervals.PriorIsLastEntry` | control_plane/flowpulse_cp/otel_spool.py:248-260 | In time order, the prior source is the last admitted scrape |
| `SpoolIntervals.ScrapeContinuesLedger` | control_plane/flowpulse_cp/otel_spool.py:261-284 | An interval carries exactly the growth since the last admitted scrape and starts where it ended, or starts a new epoch from zero |
| `SpoolIntervals.IntervalsConserve` | control_plane/flowpulse_cp/otel_spool.py:227-295 | Over any feed of scrapes in time order, the amounts since the last reset add up to the counters read, and intervals that are not resets abut |
| `SpoolMetrics.RunConserves` | control_plane/flowpulse_cp/otel_spool.py:1051-1168 | Over every run of the metric reader (appends, polls, crashes, retries, rejections): each stored event shows the amounts of one scrape of a ledger in time order, each scrape counts once, and the amounts since the last reset add up to the counters read |
| `SpoolMetrics.RunFeeds` | control_plane/flowpulse_cp/otel_spool.py:1051-1168 | Along any such run the store remains that of a feed of whole scrapes in time order, however a record's items are split over polls |
| `SpoolMetrics.TargetNotBefore` | control_plane/flowpulse_cp/otel_spool.py:1021-1025 | A poll never works on a record before the last one it stored from |
| `SpoolIntervals.DroppedExactlyWhenIdle` | control_plane/flowpulse_cp/otel_spool.py:282-286 | A scrape is dropped exactly when no request completed and no counter went back |
| `SpoolIntervals.ErrorRateIsRatio` | control_plane/flowpulse_cp/otel_spool.py:287-289 | The published error rate lies in [0,1] if and only if the success count did not go back |
| `SpoolIntervals.BalancedIff` | control_plane/flowpulse_cp/otel_spool.py:227-295 | Whenever a scrape arrives and whatever rows were read: balanced books stay balanced if and only if it resets or the counters of its prior source are those of the newest ledger entry; the reports exceed the counters read by exactly the growth from that prior to the newest entry |
| `SpoolIntervals.CapHarmless` | control_plane/flowpulse_cp/otel_spool.py:1048-1053 | Reading only the 256 newest rows gives the interval all rows give, as long as at most that many rows are as new as the prior source or newer |
| `SpoolIntervals.CapForgets` | control_plane/flowpulse_cp/otel_spool.py:1048-1053 | With that many rows as new as the scrape or newer, it is taken for a first one and reports its counters from zero |
| `SpoolIntervals.LateScrapeIff` | control_plane/flowpulse_cp/otel_spool.py:248-286 | After any run in time order, one more scrape of the running epoch that is no reset keeps the books balanced if and only if it is later than every scrape admitted before |
| `SpoolIntervals.SwappedScrapesCountTwice` | control_plane/flowpulse_cp/otel_spool.py:248-260 | Three growing readings, the last two the wrong way round: the growth between the two earlier ones is counted twice |
| `SpoolIntervals.LateScrapeCountsTwice` | control_plane/flowpulse_cp/otel_spool.py:248-260 | 30 requests are reported as 40 |
| `TraceJoin.BuildIndex` | control_plane/flowpulse_cp/otel_spool.py:1411-1431 | The nested decode loops build the span dictionary in which later spans replace earlier ones with the same id |
| `TraceJoin.IndexFinds` | control_plane/flowpulse_cp/otel_spool.py:1411-1431 | With unique span ids the dictionary finds every span where it occurs |
| `TraceJoin.ChildLookup` | control_plane/flowpulse_cp/otel_spool.py:1444-1468 | Looking a parent up by key finds every pair a child is part of, whatever order the dictionary is walked in |
| `TraceJoin.Collect` | control_plane/flowpulse_cp/otel_spool.py:1442-1468 | The candidate loop collects exactly the failed client spans and linked pairs completed behind the cursor |
| `TraceJoin.Observe` | control_plane/flowpulse_cp/otel_spool.py:1442-1554 | The poll accepts the first line with any observation (the last on entry) with exactly its observations, sorted and without repetition |
| `TraceReader.WindowExactIff` | control_plane/flowpulse_cp/otel_spool.py:1298-1559 | The windowed join of a record equals the join over the whole file if and only if no pair it completes begins before the window; otherwise items are missing |
| `TraceReader.ListStableIff` | control_plane/flowpulse_cp/otel_spool.py:1298-1559 | A record's observation list is the same at every poll that reaches it if and only if its pairs lie within the lookback measured from its own line |
| `TraceReader.LookbackMonotone` | control_plane/flowpulse_cp/otel_spool.py:1298-1325 | The lookback start never moves backwards as the cursor advances |
| `TraceReader.TracePollExact` | control_plane/flowpulse_cp/otel_spool.py:1298-1688 | Under unique ids and local pairs a trace poll decides exactly what the reader that joins the whole history decides |
| `TraceReader.TraceRunExact` | control_plane/flowpulse_cp/otel_spool.py:1298-1688 | Over every such run the sliding-window reader and the whole-history reader are the same, so the exactly-once theorem holds of it |
| `TraceReader.ShortWindowLosesItems` | control_plane/flowpulse_cp/otel_spool.py:1469-1580 | A cursor inside a record whose list became too short never offers the remaining items: the poll stalls or moves past the record |
| `TraceLookback.LookbackLosesFact` | control_plane/flowpulse_cp/otel_spool.py:1298-1495 | A parent one line back and a lookback of one byte: one of two relations is stored, and every later poll stays |
| `TraceConnector.AcceptedIsChosen` | control_plane/flowpulse_cp/otel_spool.py:1502-1510 | Choosing the smallest (largest) candidate line end is choosing the first (last) record with facts |
| `TraceConnector.OtelTraceConnector.ReadLines` | control_plane/flowpulse_cp/otel_spool.py:1304-1363 | Decoding line by line yields the lines of the stretch |
| `TraceConnector.OtelTraceConnector.Poll` | control_plane/flowpulse_cp/otel_spool.py:1207-1688 | One trace poll has exactly the effect of the sliding-window run's poll step |
| `LiveOutbox.AcceptedContinues` | control_plane/flowpulse_cp/postgres.py:802-817 | An accepted commit extends its case by exactly one projection revision and by events that follow the log without a gap |
| `LiveOutbox.ApplyGood` | control_plane/flowpulse_cp/postgres.py:477-521 | Every transaction run alone keeps the outbox 1..N, its restriction to each case that case's event log in order, snapshots without missing revisions and revisions equal to counts |
| `LiveOutbox.ApplyGrows` | control_plane/flowpulse_cp/postgres.py:477-521 | Rows are only added, never changed |
| `LiveStore.WorkspaceStore.MaxKey` | control_plane/flowpulse_cp/postgres.py:501-505 | COALESCE(MAX(key), 0) by a scan in any order |
| `LiveStore.WorkspaceStore.InsertWorkspaceEvents` | control_plane/flowpulse_cp/postgres.py:490-521 | The insert loop writes one event row and one outbox row per event at MAX + 1, or gives the transaction up on a constraint violation |
| `LiveStore.WorkspaceStore.CommitWorkspace` | control_plane/flowpulse_cp/postgres.py:832-884 | Lock, read, decide, stage, allocate and record: the whole transaction or nothing, for first checkpoints, commands and syncs |
| `LiveTransactions.StepKeeps` | control_plane/flowpulse_cp/postgres.py:477-884 | Each statement of each writer keeps what every open transaction did equal to what it would have done serially on the tables as committed now |
| `LiveTransactions.Serializable` | control_plane/flowpulse_cp/postgres.py:477-884 | Every interleaving of writers is equal to running the commits one after another in commit order, on good tables |
| `LiveTransactions.VisibilityOrder` | control_plane/flowpulse_cp/postgres.py:483-505 | At any instant the visible outbox is exactly 1..N, rows never change, and whatever becomes visible later has a larger sequence |
| `LiveTransactions.CommitLog` | control_plane/flowpulse_cp/postgres.py:477-521 | The outbox restricted to a case is that case's event log in order, its newest summary is the latest projection, and no revision or sequence is missing |
| `LiveTransactions.RevisionsCountCommits` | control_plane/flowpulse_cp/postgres.py:770-884 | Workflow revision is 1 plus accepted commands, projection revision 1 plus commands plus syncs, in every reachable state |
| `LiveTransactions.ReplayForever` | control_plane/flowpulse_cp/postgres.py:779-790 | A recorded request resubmitted at any later state returns the original commit when its hash is the same and a conflict otherwise, and changes no table |
| `LiveTransactions.SomeWriterMoves` | control_plane/flowpulse_cp/postgres.py:483-489 | Case lock then tenant lock never waits in a circle: an open transaction can always move |
| `LiveStream.PageIsNext` | control_plane/flowpulse_cp/postgres.py:696-710 | A page is the next hundred sequences or all that are left |
| `LiveStream.ResetIffAhead` | control_plane/flowpulse_cp/app.py:228-238 | A reset is sent exactly to a cursor beyond the outbox; cursor_expired is never sent |
| `LiveStream.LiveIncidentAdapter.HandleEvent` | public/live-v3.mjs:249-259 | The cursor moves by exactly one and then exactly the row's case is shown anew or taken off, or nothing shown changes; a gap is counted exactly when a row was missed; a page that shows the fold of an outbox still does after any of its events |
| `LiveStream.DeliveredExactly` | control_plane/flowpulse_cp/app.py:369-437 | Through any disconnects, resumes and commits the delivered ids are exactly s+1, s+2, ...; no reset is sent, no gap is seen, and the page is the fold of exactly the delivered rows |
| `LiveSnapshot.CaseRebuiltIff` | control_plane/flowpulse_cp/postgres.py:644-694 | Snapshot plus fold shows a case as the outbox has it if and only if it was heard of since (not last completed while unresolved), or it was not heard of and fewer than a hundred active projections were newer at the snapshot |
| `LiveSnapshot.CutOffByCount` | control_plane/flowpulse_cp/postgres.py:658-664 | An active case is missing from the snapshot if and only if at least a hundred active projections are newer than its own |
| `LiveSnapshot.SnapshotPlusStream` | control_plane/flowpulse_cp/postgres.py:644-694 | Over every session, the page shows the latest unresolved projection at its cursor exactly for the cases heard of since, or with fewer than a hundred newer active projections at the snapshot |
| `LiveSnapshot.SmallTenantNotCut` | control_plane/flowpulse_cp/postgres.py:658-664 | With no more active cases than the limit, none is cut off |
| `LiveCutOff.CheckpointsRun` | control_plane/flowpulse_cp/postgres.py:644-694 | For every n some run of concurrent writers leaves good tables with the first checkpoints of n cases and nobody writing |
| `LiveCutOff.CutOffAfter` | control_plane/flowpulse_cp/postgres.py:658-664 | After that run exactly the first n - 100 cases are cut off |
| `LiveCutOff.OldestInvisible` | control_plane/flowpulse_cp/postgres.py:644-694 | A page opened then shows none of them, though each is active and unresolved |
| `LiveCutOff.InvisibleUntilHeard` | control_plane/flowpulse_cp/postgres.py:644-694 | A case cut off stays off the page over any session until a row of its own arrives |
| `LiveSnapshot.WritersGrow` | control_plane/flowpulse_cp/postgres.py:644-710 | Any two instants of concurrent writing are related as the session model assumes, and a page that caught up shows the latest projections |
| `OwnerGate.GateSafety` | control_plane/flowpulse_cp/legacy_temporal_workflow.py:56-91 | In every interleaving the gate is scheduled at most once, behind a passing critic and verifier, with the stored proposal and an approval that names it; packets are numbered 1..n |
| `OwnerGate.StoredForever` | control_plane/flowpulse_cp/legacy_temporal_workflow.py:162-205 | A set proposal or approval never changes and sent packets stay |
| `OwnerGate.SettleKeeps` | control_plane/flowpulse_cp/legacy_temporal_workflow.py:186-200 | Accepting a command keeps everything the lock holder checked before its await |
| `OwnerGate.RejectedChangesNothing` | control_plane/flowpulse_cp/legacy_temporal_workflow.py:162-205 | A rejected command changes nothing but the sequence counter: by nothing when refused under the lock, by one when its validation refused it |
| `OwnerGate.ReapprovalOnlyRestatesWho` | control_plane/flowpulse_cp/legacy_temporal_workflow.py:176-197 | After an approval is stored, an accepted one repeats it word for word and replaces only the assertion and the authenticated actor |
| `OwnerWorkflow.LegacyDiagnosisWorkflow.RunFromStart` | control_plane/flowpulse_cp/legacy_temporal_workflow.py:102-134 | The first segment goes to routing when evidence came with the request and to acquisition otherwise; it equals the model's start step and keeps the gate invariant |
| `OwnerWorkflow.LegacyDiagnosisWorkflow.ResumeRun` | control_plane/flowpulse_cp/legacy_temporal_workflow.py:128-150 | After each answer the routine ends or sends exactly the next stage's packet, and lets owner updates in before the owner wait; nothing stored changes and the gate invariant holds |
| `OwnerWorkflow.LegacyDiagnosisWorkflow.WakeRun` | control_plane/flowpulse_cp/legacy_temporal_workflow.py:151-156 | Sends the first and only gate packet, behind a passing critic and verifier, with the stored proposal, an approval that names it and the authenticated actor |
| `OwnerWorkflow.LegacyDiagnosisWorkflow.CheckCommand` | control_plane/flowpulse_cp/legacy_temporal_workflow.py:166-185 | No reason against a command if and only if it is for this workflow, updates are let in, storing it would change nothing that is set, and its approval would name the stored proposal |
| `OwnerWorkflow.LegacyDiagnosisWorkflow.EnterUpdate` | control_plane/flowpulse_cp/legacy_temporal_workflow.py:162-191 | A refused update changes nothing but its receipt, not even the sequence; any other sends one validation packet and keeps the lock; the gate invariant holds |
| `OwnerWorkflow.LegacyDiagnosisWorkflow.SettleUpdate` | control_plane/flowpulse_cp/legacy_temporal_workflow.py:192-205 | A stored proposal or approval never changes; the lock is free and one receipt is left; unless it was vouched for, nothing is stored; the gate invariant holds |
| `Knowledge.ChainAlways` | control_plane/flowpulse_cp/knowledge.py:38-78 | After any promotions, accepted or refused, each document is a strictly increasing chain, each revision superseding the one right before it, exactly the last active; the target-not-active branch is dead |
| `Knowledge.ChainShape` | control_plane/flowpulse_cp/knowledge.py:38-78 | Listed in order, the first supersedes none, each other supersedes its predecessor, and only the last is active |
| `Knowledge.IngestKeeps` | control_plane/flowpulse_cp/knowledge.py:38-78 | A promotion changes a status only from active to superseded and removes nothing |
| `Knowledge.StoredIff` | control_plane/flowpulse_cp/knowledge.py:38-78 | A revision is stored exactly when it opens a document or follows the active revision with a larger number |
| `Knowledge.TargetAlwaysActive` | control_plane/flowpulse_cp/knowledge.py:66-67 | knowledge_supersession_target_not_active cannot be raised |
| `Knowledge.RepromotionIff` | control_plane/flowpulse_cp/knowledge.py:44-48 | A stored revision promoted again is accepted exactly while it is active |
| `KnowledgePlane.KnowledgePlane.Promote` | control_plane/flowpulse_cp/knowledge.py:38-78 | The dictionary update, branch by branch, equals the promotion guard; a refusal changes nothing |
| `KnowledgePlane.KnowledgePlane.Retrieve` | control_plane/flowpulse_cp/knowledge.py:80-130 | Whatever order the dictionary is walked in, the result is the front of the ranking; the content-hash check never fails |
| `KnowledgePlane.RetrievesTheBest` | control_plane/flowpulse_cp/knowledge.py:130-130 | Nothing eligible that was left out is ahead of anything returned, and as many are returned as limit and plane allow |
| `KnowledgePlane.OnePerDocument` | control_plane/flowpulse_cp/knowledge.py:94-104 | At most one revision of a document is retrieved |
| `Authorization.HmacAuthorizationAuthority.ResolveAssertion` | control_plane/flowpulse_cp/authorization.py:211-283 | A failed resolution consumes nothing; a granted one consumes exactly its assertion when asked to; a consumed one is a replay |
| `Authorization.HmacAuthorizationAuthority.VerifySignatureAndTime` | control_plane/flowpulse_cp/authorization.py:200-209 | Passes if and only if this authority, asked again for the content, would hand out that very assertion, for this audience and inside its window; no other assertion with its signature ever passes |
| `Authorization.CheckPassesIff` | control_plane/flowpulse_cp/authorization.py:200-209 | The same of every assertion, audience and instant: a signature passes with one content only |
| `Authorization.IssuedPasses` | control_plane/flowpulse_cp/authorization.py:135-209 | What is issued is what would be reissued, and it passes exactly inside its window |
| `Authorization.FreshResolvesIff` | control_plane/flowpulse_cp/authorization.py:135-283 | A fresh assertion resolves for its own case and command at exactly the instants of its validity window |
| `Authorization.VerifiedIsIssued` | control_plane/flowpulse_cp/authorization.py:200-209 | A presented assertion that verifies is one that was issued, for an intent with that case, command, subject and roles |
| `Authorization.Conservation` | control_plane/flowpulse_cp/authorization.py:417-562 | Over every interleaving of mint and verify requests: at most one assertion per intent, at most one grant per assertion, every grant backed by an intent for exactly its case and command, and grants <= assertions <= intents |
| `Authorization.DeniedConsumesNothing` | control_plane/flowpulse_cp/authorization.py:417-489 | A step that grants nothing consumes nothing; one that grants consumes exactly its own assertion |
| `Authorization.SecondConsumeDenied` | control_plane/flowpulse_cp/authorization.py:417-434 | Of two requests that passed the check with one assertion, the second to insert is turned down |
| `Authorization.HandedOutOnce` | control_plane/flowpulse_cp/postgres.py:2564-2592 | From the first transaction that takes an intent on, every later one is refused, and the endpoint signs for the kind its transaction checked |
| `Authorization.LateSigningBurns` | control_plane/flowpulse_cp/authorization.py:156-198 | An intent is burned at signing if and only if it is a workspace intent that has expired since its transaction |
| `Authorization.BurnedForever` | control_plane/flowpulse_cp/postgres.py:2564-2592 | A burned intent never yields an assertion |
| `Authorization.MintedRow` | control_plane/flowpulse_cp/postgres.py:2564-2592 | Consuming a pending intent marks it minted once and keeps one request or assertion per intent |
| `Lineage.LineageAcyclic` | control_plane/flowpulse_cp/postgres.py:2647-2690 | Over every interleaving of admissions no evidence is its own ancestor, and every ancestor shares tenant, case and revision |
| `Lineage.ClaimsResolve` | control_plane/flowpulse_cp/postgres.py:2700-2720 | Every citation of every stored claim resolves to stored evidence of its scope and has a link row; a claim that needs it cites a trusted current observation |
| `Lineage.LinksExactIff` | control_plane/flowpulse_cp/postgres.py:2705-2719 | An accepted claim leaves the links of its id exact if and only if it cites nothing the stored claim does not |
| `Lineage.SupportedLater` | control_plane/flowpulse_cp/policy.py:59-83 | What supports a claim for its subject supports it among all evidence, now and later |
| `Verification.EvidenceGateway.Admit` | control_plane/flowpulse_cp/integrity.py:51-72 | The admission loop accepts exactly sound evidence with a locator and a schema binding whose every parent is stored in its own scope, and stores it once |
| `Verification.EvidenceGateway.AdmitClaim` | control_plane/flowpulse_cp/integrity.py:74-80 | A claim enters exactly when its case revision is current and its citations support it for the subject |
| `Verification.CaseRepository.PutEvidence` | control_plane/flowpulse_cp/repository.py:111-120 | Evidence is immutable and belongs to its case's tenant and revision |
| `Verification.CaseRepository.PutClaim` | control_plane/flowpulse_cp/repository.py:122-129 | Claims are immutable and their ids stay distinct |
| `Verification.CaseRepository.PutVerification` | control_plane/flowpulse_cp/repository.py:182-189 | Reports are immutable |
| `Verification.SelectSplits` | control_plane/flowpulse_cp/integrity.py:126-197 | Each list is exactly the subsequence of claim ids with its verdict, the two have one entry per claim, and with distinct ids no id is in both |
| `Verification.DecisionIff` | control_plane/flowpulse_cp/integrity.py:171-179 | PASS exactly when there is a claim and every claim verifies; AMBIGUOUS exactly when there is none |
| `Verification.IndependentEvidenceVerifier.VerifyClaim` | control_plane/flowpulse_cp/integrity.py:139-170 | A claim verifies exactly when its author is independent, its citations support it and every readback comparison holds; the readings are those before the first failure |
| `Verification.IndependentEvidenceVerifier.VerifyAll` | control_plane/flowpulse_cp/integrity.py:137-170 | The claim loop keeps both lists and the readings in claim order |
| `Verification.IndependentEvidenceVerifier.Verify` | control_plane/flowpulse_cp/integrity.py:126-197 | The report splits the case's claims in order and without overlap, decides PASS exactly when there is a claim and all verify, and is stored immutably |
| `Verification.ReadingsOfClaim` | control_plane/flowpulse_cp/integrity.py:145-170 | A failed claim still contributes the readings before its first mismatch; a claim contributes one per citation exactly when it verifies |
| `BindingLocks.IdentityBijection` | control_plane/flowpulse_cp/postgres.py:252-292 | Under any interleaving and any hash of lock names, run, case and Temporal execution stay one-to-one per tenant |
| `BindingLocks.SharedAxisSharedLock` | control_plane/flowpulse_cp/postgres.py:166-182 | Two writers share an identity axis if and only if they share a lock name |
| `BindingLocks.HoldersDisjoint` | control_plane/flowpulse_cp/postgres.py:166-182 | Two writers that hold all their locks share no axis |
| `BindingLocks.BindingStore.PutWorkspaceBinding` | control_plane/flowpulse_cp/postgres.py:252-292 | The same binding is returned, one that shares an axis is refused by the first axis it shares, a new one is written and the relation stays one-to-one |
| `BindingWaits.NoWaitCycle` | control_plane/flowpulse_cp/postgres.py:175-182 | Sorted acquisition admits no wait cycle when, among the names of the writers begun, names of different kinds have different keys |
| `BindingWaits.DeadlockIff` | control_plane/flowpulse_cp/postgres.py:166-182 | For any hash and any two or more bindings: some run stops their writers in a ring of waits if and only if their key sequences can be cut so that the keys before the cuts are pairwise disjoint and each key at a cut lies before the cut of the next |
| `BindingWaits.TwoDeadlockIff` | control_plane/flowpulse_cp/postgres.py:166-182 | Two writers can deadlock if and only if one takes p on its way to q, the other q on its way to p, and the keys each holds by then are disjoint |
| `BindingWaits.CollisionsDeadlock` | control_plane/flowpulse_cp/postgres.py:175-182 | Two writers that share no axis can deadlock when a case name and a run name collide crosswise |
| `BoundedMerge.KeepFirst` | public/app.js:616-617 | The filter keeps exactly one copy of each event |
| `BoundedMerge.Merge` | public/app.js:615-619 | One delivery yields the 160 newest of the window and the delivery, in order |
| `BoundedMerge.NewestStep` | public/app.js:615-619 | Cutting before an insertion changes nothing of the window after it |
| `BoundedMerge.MergeAll` | public/app.js:599-626 | Folding the handler over any order and repetition of deliveries yields the 160 highest-sequence distinct events seen, strictly increasing |

## Left out

- TraceConnector.OtelTraceConnector.Poll: asks that the offset of a matching cursor be a record start; `SpoolExactlyOnce.ExactlyOnce` proves it of every cursor a run saves.
- SpoolExactlyOnce.ExactlyOnce: covers the span from the first saved cursor on (facts before the entry point of a first start or a rotation are skipped by design, as `SpoolProgress.EntryPoll` states) and one reader of a stream at a time.
- TraceReader.TraceRunExact: needs unique span ids and pairs within the lookback, which `ListStableIff` shows to be the exact condition for local pairs.
- Authorization.Conservation: signatures are symbolic and nobody else can make one; hashes and HMAC are not modelled.
- SpoolMetrics.RunConserves: asks that each record hold one histogram and that later records be read later; `MetricDecoder.OneIntervalPerRecord` and `SpoolIntervals.BalancedIff` say exactly what happens otherwise. It starts from a saved cursor, and the cap of 256 rows is not part of it: in time order the rows as new as the prior source are those of two records.
- SpoolProgress.CrashLosesAck: of a metric record it asks the decoder's order, which `MetricDecoder.DecodedEarliestFirst` proves of sorted lists.
- SpoolConnector.OtelSpoolConnector.Poll: one binding is resolved; that several match is left out.
- BoundedMerge.MergeAll: starts from an empty window and takes one id per sequence as given.
- Decoding of JSON and OTLP values, normalizer field checks, artifact storage, health records and telemetry; a fact carries the outcome of the time-independent checks.
- A Collector spool is append-only; truncation or rewriting in place is not modelled, and `stat` with the read that follows is one step.
- SpoolIntervals.BalancedIff: the source seeks the prior among the 256 newest rows; read `sources` as the rows read, which `CapHarmless` and `CapForgets` compare with all rows.
- SpoolIntervals.LateScrapeIff: the same cap; it changes nothing while at most 256 rows are as new as the prior source or newer (`CapHarmless`).
- MetricDecoder.OneIntervalPerRecord: the same cap; `events` are the rows read.
- SpoolProgress.RetryAcceptedIff: the subjects are a function of the poll's clock, so two polls at one instant pass the same ones.
- The dispatch outbox and its receipts.
- Times and counters are integers and exact reals; identifiers are integers in the order of the source's strings.
- Row-level security settings, JSON columns, attempt and stage-run audit rows, and the tenant dimension of the outbox (one tenant at a time).
- Lock-name hashing of the workflow tables: within one tenant a collision only makes writers wait longer, but across tenants two writers can deadlock when the case key of each equals the live key of the other.
- Temporal execution generations and their rollover, which are a compare-and-swap on one row.
- Cancellation and replay of Temporal histories; an activity answers, is refused or raises.
- `KnowledgePlane` bootstrap is a series of promotions; case folding and substring search are one predicate of a query; construction of evidence envelopes for candidates.
- Owner-gate validation in `policy.py`, the critic, contradictions, coverage, proposals and approvals of the evidence repository.
- Authority checks before a workspace assertion is verified (binding, projection revision, subject) are part of the case and command a request is verified for.
- V1 and V2 streams, the per-case V3 stream and heartbeats, which repeat the live stream's loop.
- Everything drawn on the page.
