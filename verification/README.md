# SparkScope core: a verified model

SparkScope watches a fleet of machines: it polls them, stores their telemetry, raises alerts, sends notifications, keeps
browsers up to date and runs commands on the machines. This project models the stateful engines behind that and proves
what they are there for.

- **Telemetry** (`Aggregates`, `Telemetry`, `TelemetryEngine`, `TelemetryLaws`, `CrossResolution`, `History`). Samples are
  rolled up into minute and quarter-hour rows behind two cursors, deleted once both have consumed them, and queried through
  a mix of rollups and raw rows. The rollups are a cache: every reachable row is the exact aggregate of all that was ever
  ingested in its bucket, both resolutions tell the same story, and a query shows every retained reading once, and every
  expired one that the rollups it is served from still hold.
- **Alerts** (`Debounce`, `Alerts`, `AlertRules`, `AlertEngine`). Counters in memory and alerts in the database, over many
  devices, rules and restarts, refine a statement about the history of each (device, metric) pair under the configured
  rules.
- **Notifications** (`Notifications`, `NotificationRuns`, `NotificationLaws`, `Notifier`, `NotifierLaws`). A durable queue
  that commits an attempt before it sends, with a crash possible between any two transactions; who is told of what, and
  when, is stated on channels, windows, devices and alerts.
- **Live feed** (`Live`). Snapshots and patches on one side, the client's reducer on the other, across reconnects.
- **Commands** (`Commands`, `CommandLaws`, `CommandService`). Single-use confirmations and at-most-once remote commands,
  with every hand-over between transactions a step of its own and restarts at any point; every command that reaches a
  device was cleared for it, at its turn, on what the tables then held.
- **Rate limiter** (`RateLimit`), **GPU identities and rules** (`MetricKeys`, `Hardware`), **section splitting**
  (`Sections`).

`Options`, `Cells` and `Text` hold an option type, floor arithmetic and the string operations of the parsers.

How the model is built. A session block of the source is one atomic step on a value that holds the tables. Code that
updates state step by step is a class or a method with loops, and its contract ties the new state to a function on that
value; what the source promises is proved about these functions, over every run. What a decision depends on, which rows
retention keeps, which resolution serves a query, when a reading is bad, who hears of an event, whom a command may reach,
is stated a second time on the tables and inputs alone, and proved equivalent. Histories (everything ever ingested, sent
or accepted) are kept beside the tables so that the promises can be stated. Numbers are exact; what depends on the clock,
the network or the database's choice of order is a parameter or an arbitrary choice that every result allows for.

What the environment owes. A sample must be committed before a pass closes its bucket: `poll_system` takes the timestamp
before it commits (sparkscope/collector.py:140), so a commit that is late enough breaks exactness. Runs of the telemetry
store assume on-time samples. The limiter's clock does not run backwards, and its limit is fixed for each key, as at its
three callers. A test delivery, an event, a window, a job and a confirmation each get an id never used before.

Where the code does less than one might expect. Three properties do not always hold; for each there is a run that breaks
it and the exact condition under which it holds.

- The limiter keeps every half-open window within its limit, but a closed window only as long as no purge finds the key's
  last hit exactly one window old: the guard `v[-1] > now - seconds` (sparkscope/security.py:71) then drops a hit that the
  loop above it would have kept. `RateLimit.ClosedWindowIff` states this as an equivalence, `RateLimit.SlidingWindow` lifts
  it to runs, and `RateLimit.PurgeOpensClosedWindow` gives a run that overflows, whatever limits the callers pass.
- A live message that the client cannot parse is dropped, and within the message stream nothing but another change of the
  same record, or the snapshot of a new connection, repairs what it carried; the comment at frontend/src/api.ts:86 counts
  on that snapshot, but a parse failure does not close the connection. Such a message is possible: sparkscope/ssh.py:264-270
  accepts a NaN in an NVMe health report, and what Python's JSON writer makes of it is not JSON to the browser.
  `Live.AgreesIff` says exactly when a replica agrees, whichever messages were dropped, and `Live.LostPatchStays` gives a
  run that stays wrong.
- A sample committed after a pass has closed its bucket is missed. `TelemetryLaws.IngestExactIff` says exactly when an
  ingest leaves every row exact, `TelemetryLaws.IngestKeepsInvIff` when it also leaves nothing behind a cursor unfolded,
  and `TelemetryLaws.LateCommitBreaksRow` gives a run in which a late commit breaks a row.

## Model

| member | source | states |
|---|---|---|
| `Aggregates.Accumulate` | sparkscope/history.py:21-40 | Folding a row into a target merges, metric by metric, each value that passes the validity filter; values the filter drops change nothing, and the order of the metrics does not matter |
| `Aggregates.FilterAdmits` | sparkscope/history.py:23-35 | The filter admits, raw, exactly the finite numbers, and summarized exactly the dictionaries with a numeric sum, a positive whole count and a numeric minimum not above the maximum; what it admits is read off unchanged |
| `Aggregates.DescribesMerge` | sparkscope/history.py:36-40 | Merging the aggregates of two disjoint sets of readings gives the sum, count, minimum and maximum of their union |
| `Aggregates.SummarizesUnique` | sparkscope/history.py:21-40 | A set of readings has exactly one aggregate, so no fold order can give another |
| `Aggregates.MeanWithinRange` | sparkscope/history.py:181-193 | The aggregate of real readings has a positive count, and its mean lies between its minimum and maximum |
| `Aggregates.StoredAggregateReadsBack` | sparkscope/history.py:23-31 | Every aggregate of real readings, once stored, passes the summarized-mode filter and reads back unchanged |
| `Telemetry.AlignedSplits` | sparkscope/history.py:44-55 | A sample and its bucket always lie on the same side of an aligned cursor |
| `Telemetry.FirstPassStart` | sparkscope/history.py:47-51 | Without a cursor a pass begins at the start of the bucket of the earliest stored sample |
| `Telemetry.GroupedMeaning` | sparkscope/history.py:57-60 | Each group of a pass is the exact aggregate of the pass's readings in its bucket |
| `Telemetry.PassSeesWholeBuckets` | sparkscope/history.py:51-56 | A pass sees every sample ever ingested in each bucket it closes |
| `Telemetry.NewRowsExact` | sparkscope/history.py:57-62 | Each row a pass writes is for one whole bucket between the old and the new cursor and is the exact aggregate of everything ever ingested there |
| `Telemetry.NeverConflicts` | sparkscope/history.py:61-62 | The unique constraint on rollup rows never fires, so no pass is ever rolled back |
| `Telemetry.RetentionFollowsPolicy` | sparkscope/history.py:72-89 | On tables and policy: retention keeps a sample exactly if it is no older than the raw hours or one of the two cursors has not passed it; a 60 s row exactly as long as the minute days, a 900 s row exactly as long as the quarter days; nothing that stays changes |
| `Telemetry.IngestKeepsInv` | sparkscope/collector.py:138-164 | An on-time sample leaves every stored row exact |
| `Telemetry.SummarizeKeepsInv` | sparkscope/history.py:43-66 | A pass keeps cursors aligned, rows below their cursor and exact, and has folded all it passes over |
| `Telemetry.OnlyConsumedExpire` | sparkscope/history.py:74-83 | Retention removes a raw sample only if both cursors exist and both have passed it |
| `Telemetry.RetainKeepsInv` | sparkscope/history.py:72-89 | Retention keeps the invariant, also while one cursor does not exist yet |
| `Telemetry.RunKeepsInv` | sparkscope/history.py:43-89 | Over every run of ingest, summarize and retention: aligned cursors, rows below their cursor and exact, everything behind a cursor folded, nothing unconsumed deleted |
| `TelemetryEngine.InsertRows` | sparkscope/history.py:61-62 | Inserting stores all rows, or nothing exactly when some key is already there |
| `TelemetryEngine.Database.Ingest` | sparkscope/collector.py:164 | Appends one sample with the next id and changes nothing else |
| `TelemetryEngine.Database.GroupRows` | sparkscope/history.py:56-60 | The accumulation loop computes the groups of the pass |
| `TelemetryEngine.Database.Summarize` | sparkscope/history.py:43-66 | The transaction takes the tables to the summarized tables, or leaves them alone when there is nothing to do or an insert conflicts |
| `TelemetryEngine.Database.Retain` | sparkscope/history.py:72-89 | The retention transaction takes the tables to the retained ones: on policy and cursors, exactly which samples and which rows of each resolution stay |
| `TelemetryEngine.Database.Maintain` | sparkscope/history.py:69-89 | Maintenance is a minute pass, a quarter-hour pass and retention, in that order |
| `TelemetryLaws.ReachableRollupsExact` | sparkscope/history.py:43-66 | In every reachable store each rollup row is the exact sum, count, minimum and maximum of all samples ever ingested in its bucket and lies below its aligned cursor |
| `TelemetryLaws.RetentionNeverOutrunsConsumption` | sparkscope/history.py:81-83 | Every raw sample ever deleted had been folded, exactly, into its 60 s and its 900 s bucket |
| `TelemetryLaws.RollupsHappen` | sparkscope/history.py:43-66 | Some run stores a rollup row, so the laws about rows are not empty |
| `TelemetryLaws.IngestExactIff` | sparkscope/collector.py:138-164 | An ingest leaves every row exact if and only if the sample carries no usable value for a bucket that already has its row |
| `TelemetryLaws.IngestKeepsInvIff` | sparkscope/collector.py:138-164 | It also leaves nothing behind a cursor unfolded if and only if no cursor has passed the sample, or its bucket is folded and it has no usable value |
| `TelemetryLaws.LateCommitBreaksRow` | sparkscope/collector.py:140-164 | A run in which a sample committed after its minute was rolled up leaves the minute's row short of one reading |
| `TelemetryLaws.LateReadingMissed` | sparkscope/collector.py:140-164 | A usable value that arrives behind its folded row leaves that row short of one reading |
| `TelemetryLaws.PassMovesCursor` | sparkscope/history.py:51-66 | While a sample is stored, a pass moves the cursor by the whole lag or one hour, whichever is less, and never past the last complete bucket |
| `TelemetryLaws.CatchUp` | sparkscope/history.py:51-66 | After n passes at one instant the cursor has moved n hours or reached the last complete bucket |
| `TelemetryLaws.CaughtUpIff` | sparkscope/history.py:51-66 | The lag is gone after n passes exactly when n hours cover it |
| `CrossResolution.MergedMeaning` | sparkscope/history.py:21-40 | Minute rows merged in any order give the exact aggregate of their readings together |
| `CrossResolution.MinutesCoverQuarter` | sparkscope/history.py:43-66 | Once the minute cursor has passed a quarter hour, its minute rows hold exactly the quarter hour's readings |
| `CrossResolution.ResolutionsAgree` | sparkscope/history.py:21-66 | Once both cursors have passed a quarter hour, merging its minute rows in any order gives exactly its quarter-hour row, metric by metric, and nothing when there is no such row |
| `History.RetainedReadingShownOnce` | sparkscope/history.py:170-180 | A retained valid reading in the range belongs to exactly one cell, the one its rollup or its own time falls in |
| `History.ExtraReadingExpiredOrStraddling` | sparkscope/history.py:136-180 | Any other reading shown has lost its raw row, or lies past the end in the last rollup bucket, which straddles the end |
| `History.CacheIsTransparent` | sparkscope/history.py:117-180 | A reading whose raw row is still there and that does not lie past the end is shown exactly if it is a valid reading of the range, whatever has been rolled up |
| `History.ChosenServes` | sparkscope/history.py:118-167 | The resolution used is the one the span and the stored rows call for: 900 s rows over more than a week; 60 s rows, or 900 s rows where there are none, over more than an hour; the same over an hour or less once no raw row is left; none otherwise |
| `History.ShownIff` | sparkscope/history.py:168-180 | A reading is shown through a rollup exactly if the row of its bucket serves the query, and directly exactly if its raw row is in the range and no rollup shows it |
| `History.ValidRaw` | sparkscope/history.py:124-135 | Selects exactly the raw rows of the range with a usable value, in order |
| `History.ValidRollups` | sparkscope/history.py:146-163 | Selects exactly the rollup rows of one resolution in the range with a usable entry, each once |
| `History.ChooseRollups` | sparkscope/history.py:137-167 | Uses 60 s rows exactly if there are usable ones, the span is at most a week, and it is over an hour or has no raw rows; uses 900 s rows exactly if there are usable ones and the span is over a week, or 60 s rows would have been used but there are none |
| `History.Put` | sparkscope/history.py:172 | Adds one item to one bucket and leaves the other buckets alone |
| `History.PlaceRollups` | sparkscope/history.py:168-174 | The loop over rollup rows leaves every bucket exact and records which buckets are covered |
| `History.PlaceRaw` | sparkscope/history.py:175-181 | The loop over raw rows adds exactly the readings no rollup row of the answer covers, and the latest time of each bucket |
| `History.CellNumbers` | sparkscope/history.py:122-180 | Points are numbered from 0 to max_points |
| `History.Answer` | sparkscope/history.py:117-193 | At most max_points + 1 points with strictly increasing times; one for each non-empty cell; each has a positive count, minimum <= value <= maximum and is the exact aggregate of its cell. Every reading ever ingested whose bucket has a row at the resolution that serves the query, starting in the range, is in exactly one of them, expired or not; so is every reading whose raw row is in the range. bucket_seconds is the least whole width that cuts the span into at most max_points and is no finer than the rollups used; a point spans the bucket start, or the time, of each of its readings; its last sample time is withheld exactly if a rollup contributed |
| `Debounce.CountersMeanStreaks` | sparkscope/alerts.py:36-51 | Each counter reaches three exactly when the last three observations are all bad, all good or all critical; it is absent exactly after a break |
| `Debounce.ShouldStep` | sparkscope/alerts.py:36-106 | One more observation changes what should be open, or critical, exactly as the last three observations say |
| `Debounce.MachineMeetsSpec` | sparkscope/alerts.py:18-106 | A pair is open exactly when some three bads in a row are not followed by three goods in a row, and critical exactly when that is so of three criticals |
| `Alerts.ObservedCorrect` | sparkscope/alerts.py:32-106 | One rule's turn moves its pair's machine one step and leaves every other pair as it was |
| `Alerts.OpeningWrites` | sparkscope/alerts.py:73-91 | Without an open alert, the third bad in a row stores one with this time as first and last, one occurrence, its component and one open event; any other observation writes no row and no event |
| `Alerts.OpenAlertWrites` | sparkscope/alerts.py:52-106 | With an open alert, each further bad in a row moves its last time and counts one occurrence, with an escalate event exactly if the severity rose; the third good in a row stamps it resolved with one resolve event; any other observation writes nothing |
| `Alerts.ExecCorrect` | sparkscope/alerts.py:15-106 | Every transaction (evaluate, reset, restart, retention) keeps the invariant and moves every pair by exactly what it hears |
| `Alerts.AlertsRefineDebounce` | sparkscope/alerts.py:15-106 | In every run over many devices and metrics an unresolved alert exists, and is critical, exactly as the history of its pair demands, and there is at most one per pair |
| `Alerts.EventLogShape` | sparkscope/alerts.py:52-106 | The events of every alert there ever was are open, then at most one escalate and none if it opened critical, then at most one resolve, which comes last and exactly when the row says resolved; once retention has deleted the row, the log is one that ends with its resolution |
| `Alerts.RowsEvolve` | sparkscope/alerts.py:52-106 | Over the rest of any run a stored row evolves: its severity never drops and nothing changes after resolution; an alert whose row is deleted never comes back and gets no further event |
| `Alerts.EvaluationConfined` | sparkscope/alerts.py:18-106 | Evaluating one device leaves the counters, alerts and events of all others unchanged; no severity drops, and a resolved alert never changes |
| `Alerts.PurgeCorrect` | sparkscope/history.py:103 | Deleting long-resolved alerts changes no pair's state |
| `Alerts.PurgeDeletes` | sparkscope/history.py:103 | Retention deletes exactly the alerts resolved before the cutoff |
| `AlertRules.RuleList` | sparkscope/alerts.py:29 | Lists each entry of the dictionary of effective rules once, in some order |
| `AlertRules.EffectiveSeen` | sparkscope/alerts.py:19-36 | What a poll tells a metric is how the most specific rule sees its reading, and a break if no rule applies or it is a null |
| `AlertRules.ReadingDecides` | sparkscope/alerts.py:30-51 | On reading and limits: bad exactly if a rule with limits applies and the reading is a number at or above the warning level; critical exactly if there is a critical level too and it is at or above it; good exactly if it is below the warning level; a break otherwise |
| `AlertRules.AlertsFollowRules` | sparkscope/alerts.py:15-106 | In every run of polls, each with the thresholds and overrides stored at that time, an unresolved alert exists, and is critical, exactly as the readings demand under the most specific rules |
| `AlertRules.ThreeReadingsDecide` | sparkscope/alerts.py:32-106 | In every run, three readings of a pair in a row at or above their warning levels leave an unresolved alert, a critical one if all three are at or above their critical levels; three in a row below leave none |
| `AlertEngine.AlertEngine.Reset` | sparkscope/alerts.py:15-16 | Drops the device's counters and nothing else |
| `AlertEngine.AlertEngine.ActiveAlerts` | sparkscope/alerts.py:20-25 | The dictionary holds exactly the unresolved alert of each metric of the device |
| `AlertEngine.AlertEngine.Evaluate` | sparkscope/alerts.py:18-106 | Resolves the effective rules and takes the engine to the state evaluated under exactly these rules |
| `AlertEngine.AlertEngine.EvaluateRules` | sparkscope/alerts.py:20-106 | Given the rules: stale counters dropped, then one observation per rule |
| `AlertEngine.AlertEngine.Apply` | sparkscope/alerts.py:29-106 | One turn of the loop over rules is one observation of its pair, on counters, alert row and events |
| `Notifications.BackoffDoubles` | sparkscope/notifications.py:173 | The wait before the next attempt starts at 30 s and doubles with each attempt up to 900 s |
| `NotificationRuns.DecideCreates` | sparkscope/notifications.py:65-132 | Deciding creates exactly the slots called for, none of which ever existed, and leaves stored rows alone |
| `NotificationRuns.DecideKeepsInv` | sparkscope/notifications.py:75-132 | Deciding keeps the counting and decision laws |
| `NotificationRuns.ClaimKeepsInv` | sparkscope/notifications.py:142-163 | Claiming keeps the counting laws: the attempt is committed before anything is sent |
| `NotificationRuns.RecordKeepsInv` | sparkscope/notifications.py:169-173 | Recording the outcome keeps them |
| `NotificationRuns.MaintainKeepsInv` | sparkscope/history.py:90-102 | Retention keeps them, deleting no unprocessed event and nothing the notifier is working on |
| `NotificationRuns.RunKeepsInv` | sparkscope/notifications.py:75-175 | Every run keeps the invariant, with a crash allowed between any two transactions |
| `NotificationRuns.DeliveryBounded` | sparkscope/notifications.py:142-173 | No delivery, whether for an event or an ended window, is created twice for a channel; it is sent at most five times and at most once per committed attempt; attempts never exceed five; a row marked sent was sent |
| `NotificationRuns.RowsProgress` | sparkscope/notifications.py:142-173 | No step, retention included, deletes a pending delivery, raises a row's measure or changes a settled row, and each handling lowers the measure |
| `NotificationLaws.EventDecidedOnce` | sparkscope/notifications.py:77-106 | An event stays unprocessed until one tick decides it, and that tick creates a delivery for exactly the channels that are stored and enabled and were enabled by the time of the event, if its kind is one of the three alarm kinds and its stored device is under no window that was open then; nothing is created for it later |
| `NotificationLaws.EveryEventAccountedFor` | sparkscope/notifications.py:77-106 | In every run an event is stored and unprocessed with no delivery, or some tick of the run decided it and it has had one delivery for exactly the channels that heard of it at that tick |
| `NotificationLaws.OldestDecidedFirst` | sparkscope/notifications.py:80-87 | The next tick decides an unprocessed event exactly if fewer than 200 unprocessed ones are older, or as old with a smaller id |
| `NotificationLaws.SummaryDecidedOnce` | sparkscope/notifications.py:107-132 | A summary is created once, in the tick that reports the window, for exactly the enabled channels, if some unresolved alert is on a stored device in the window's scope that no open window covers |
| `NotificationLaws.TickAdds` | sparkscope/notifications.py:16-132 | The first transaction of a tick leaves the rows there were and adds a pending row for exactly the slots called for, read off channels, windows, devices and alerts |
| `NotificationLaws.TickMarks` | sparkscope/notifications.py:88-132 | It marks exactly its batch as processed and exactly the ended windows as reported |
| `NotificationLaws.EarliestDueFirst` | sparkscope/notifications.py:133-141 | A due delivery with fewer than ten pending ones at or before its time is worked on in this tick |
| `NotificationLaws.ClaimDecides` | sparkscope/notifications.py:142-163 | Claiming cancels if the channel is gone or off, else fails after five attempts, else suppresses while the stored device is under an open window, else commits one more attempt and holds the row back for 60 s |
| `NotificationLaws.SendsIff` | sparkscope/notifications.py:142-163 | In a run a claim leads to sending exactly if the channel is on, fewer than five attempts were made and no open window covers the device |
| `NotificationLaws.RecordDecides` | sparkscope/notifications.py:169-173 | Recording marks the row sent without an error, failed with one after five attempts and pending otherwise, and waits between 30 s and 900 s |
| `NotificationLaws.RetentionDeletes` | sparkscope/history.py:90-102 | Retention deletes exactly the processed events, the settled deliveries and the reported windows from before the cutoff |
| `NotificationLaws.EndedCovers` | sparkscope/extensions.py:392-403 | Ending a window by hand deletes it if it never began, and otherwise leaves it covering exactly the earlier times it covered |
| `Notifier.OldestUnprocessed` | sparkscope/notifications.py:80-87 | Selects the first 200 unprocessed events by time and id |
| `Notifier.DueRows` | sparkscope/notifications.py:133-141 | Selects at most ten due rows, earliest first, leaving out a due row only when there are ten |
| `Notifier.DecideEvent` | sparkscope/notifications.py:88-106 | Deciding one more event marks it processed and enqueues it for its audience |
| `Notifier.DecideWindow` | sparkscope/notifications.py:107-132 | Deciding one more window marks it summarized and enqueues its summary |
| `Notifier.Notifier.Enqueue` | sparkscope/notifications.py:65-73 | Adds a pending row for each channel that has none and leaves the others alone |
| `Notifier.Notifier.Decide` | sparkscope/notifications.py:77-132 | The first transaction of a tick decides the oldest 200 events and every ended window; the rows it adds are exactly those that channels, windows, devices and alerts call for |
| `Notifier.Notifier.Claim` | sparkscope/notifications.py:142-163 | Cancels, gives up, suppresses or commits an attempt, in that order of precedence, and says to send exactly if the channel is on, attempts are left and no open window covers the device |
| `Notifier.Notifier.Record` | sparkscope/notifications.py:169-173 | Marks the row sent, failed after five attempts or pending again, and sets the backoff |
| `Notifier.Notifier.Handle` | sparkscope/notifications.py:142-173 | One turn of the loop over due rows claims the row and, only if that commits an attempt, records the outcome |
| `Notifier.Notifier.Tick` | sparkscope/notifications.py:75-175 | A whole tick without a crash decides, then works through the due list row by row |
| `NotifierLaws.TickIsRun` | sparkscope/notifications.py:75-175 | A tick that nothing interrupts is a run of the queue: the single steps lead from any idle state to exactly the tables the tick computes |
| `Live.Changed` | sparkscope/api.py:968 | A patch lists exactly the devices that differ from what was sent |
| `Live.Connection.Next` | sparkscope/api.py:943-978 | Each turn sends a snapshot first and patches after, and remembers what it sent |
| `Live.PatchMembers` | frontend/src/App.tsx:115-127 | After a patch the replica holds a device as before if its record did not change, and as the server has it otherwise |
| `Live.PatchKeepsAgreement` | frontend/src/App.tsx:115-133 | A patch takes a replica that agrees with one fleet to one that agrees with the next |
| `Live.AlertsFollow` | frontend/src/App.tsx:129-132 | After a message the unresolved alerts are exactly the message's, and resolved ones known before are kept |
| `Live.ConnectionAgrees` | sparkscope/api.py:943-978 | After the k-th message of a connection the replica's device map equals the server's k-th state, its unresolved alerts equal that message's, and no device id is doubled |
| `Live.ReplicaAgreesAcrossReconnects` | frontend/src/App.tsx:115-133 | The same after any number of reconnects and whatever the replica held before; no resolved alert is lost |
| `Live.ReplicaRecords` | frontend/src/App.tsx:115-132 | Whatever messages of a connection are dropped, the replica's record of a device is that of the last processed turn that said anything of it, and its unresolved alerts are those of the last processed turn |
| `Live.AgreesIff` | frontend/src/api.ts:82-88 | For any pattern of dropped and processed messages, snapshots included, the replica agrees with the server if and only if for every device the record at the last processed turn that said anything of it is the current one, and likewise the alerts |
| `Live.LostPatchHealsIff` | frontend/src/api.ts:82-88 | For one block of lost messages after agreement, and however many processed patches since, the replica's devices are the server's again exactly if every record the lost messages changed has been changed again |
| `Live.LostPatchStays` | frontend/src/api.ts:82-88 | A lost message after which no number of turns, lost or processed, brings the replica back as long as one record stays as it is |
| `Live.PatchedReplicaSorted` | frontend/src/App.tsx:120-127 | A patched list is in order of name |
| `RateLimit.RateLimit.Allow` | sparkscope/security.py:62-72 | Accepts exactly when fewer than the limit of hits remain in the window, and leaves the table trimmed, extended and purged |
| `RateLimit.RateLimit.PopLeft` | sparkscope/security.py:65-66 | The loop drops the expired hits at the head and no others |
| `RateLimit.TrimMeaning` | sparkscope/security.py:65-66 | What is left is the end of the queue from its first hit that is not expired; everything before it is expired |
| `RateLimit.CallStores` | sparkscope/security.py:62-72 | What a call leaves under any key: the trimmed queue, with the call appended if it was accepted; only an accepted call that finds more than 10000 keys purges, and a purge drops exactly the keys whose last hit has left the half-open window |
| `RateLimit.RunKeepsKey` | sparkscope/security.py:62-72 | In every run a key's queue is the end of its accepted calls, and what it no longer holds has left the window |
| `RateLimit.SlidingWindow` | sparkscope/security.py:62-72 | Every half-open window holds at most the limit of accepted calls per key, purges included, and every closed one unless a purge has found the key's last hit exactly one window old |
| `RateLimit.RefusalJustified` | sparkscope/security.py:65-68 | A refused call finds the full limit of accepted calls in the closed window before it |
| `RateLimit.ClosedQueueIff` | sparkscope/security.py:70-71 | One call keeps what the queue no longer holds older than the closed window exactly if it runs no purge that finds the key's last hit exactly one window old |
| `RateLimit.BoundaryDropBreaks` | sparkscope/security.py:70-71 | After such a purge, the key's limit of further calls at the same instant overflows the closed window |
| `RateLimit.ClosedWindowIff` | sparkscope/security.py:62-72 | A call keeps every closed window of a key within its limit, whatever the key itself calls at that instant, if and only if it runs no such purge |
| `RateLimit.PurgeOpensClosedWindow` | sparkscope/security.py:70-71 | For any limits of at least one, a run in which a purge drops a hit exactly one window old and a closed window then holds more than the limit |
| `Commands.CommitKeepsProofs` | sparkscope/api.py:813-826 | Committing a destructive request uses up its confirmation and keeps the map from jobs to confirmations injective |
| `Commands.TransmitKeepsWork` | sparkscope/api.py:735-775 | Handing a command to the transport never repeats a (job, device) pair |
| `Commands.RestartKeepsInv` | sparkscope/collector.py:44-50 | A restart keeps every law of jobs, tasks and confirmations |
| `Commands.RunKeepsInv` | sparkscope/api.py:713-837 | Every run of requests, jobs and restarts keeps them |
| `Commands.AtMostOnce` | sparkscope/api.py:727-801 | In every run a command reaches a device at most once per job and only a device the job names; a finished job has a result for exactly its targets |
| `Commands.RestartSettles` | sparkscope/collector.py:44-50 | A restart settles every job; what was queued or running is interrupted, everything else stays as it was |
| `Commands.SettledForever` | sparkscope/collector.py:44-50 | A settled job never changes and never sends again |
| `Commands.SettledNeverSends` | sparkscope/collector.py:44-50 | In every run, from the moment a job has settled nothing more is sent for it, whatever follows |
| `Commands.DestructiveJobsConfirmed` | sparkscope/api.py:713-837 | Destructive jobs map injectively to confirmations issued for the same user, command and target list, each used up |
| `Commands.ConfirmationSpentOnce` | sparkscope/api.py:823-826 | Of two requests that both passed the check on one confirmation, only one can commit |
| `CommandLaws.CheckAdmits` | sparkscope/api.py:698-824 | A request passes its checks exactly if the command is known, the account is active and of a sufficient role, every row it read is current, not archived, not paused and verified, and a destructive command comes with an unexpired confirmation for this user, command and target list |
| `CommandLaws.ConfirmationsIssued` | sparkscope/api.py:713-725 | A confirmation is issued exactly for a destructive command, to an active admin, for targets that could be sent to; expiry removes exactly the expired ones |
| `CommandLaws.RecheckDecides` | sparkscope/api.py:733-747 | In a run a re-check commits to sending exactly if the device is stored, not archived, not paused and at the revision the request read, and the owner is stored, active, no viewer, and an admin if the command is destructive |
| `CommandLaws.SentWasCleared` | sparkscope/api.py:698-801 | In every run with restarts, for every command that reached a device there is an earlier re-check at which the device and the owner passed all of this, and before it a request of the same owner, command and rows that had passed its own checks |
| `CommandService.CommandService.Operate` | sparkscope/api.py:804-837 | Accepts a destructive command exactly when an unexpired confirmation for the same user, command and targets is stored, then consumes it and adds the job; changes nothing otherwise |
| `CommandService.CommandService.Start` | sparkscope/collector.py:44-50 | Interrupts every queued or running job and leaves every other job as it was |
| `CommandService.CommandService.RunOn` | sparkscope/api.py:733-796 | One turn re-reads device and owner and sends exactly if the device is stored, not archived, not paused and at the revision read before, and the owner is stored, active and of a sufficient role; a result is stored either way |
| `CommandService.CommandService.ExecuteJob` | sparkscope/api.py:727-801 | Run to its end without a restart, a job sends to the devices that pass the re-check when their turn comes, in order, whatever the user and device tables hold then; every device gets a result; complete exactly if all were sent to and succeeded |
| `CommandService.AllowedOnce` | sparkscope/api.py:733-747 | Such a job sends once to each device that at its turn is stored, not archived, not paused and at the revision the request read, while the owner is stored, active, no viewer, and an admin if the command is destructive; and to no other |
| `CommandService.CompleteIff` | sparkscope/api.py:727-801 | It ends complete exactly if every device was sent to and answered with success |
| `MetricKeys.KeyInverts` | sparkscope/hardware.py:10-12 | The key of an identity and field is taken apart into exactly that identity and field |
| `MetricKeys.OnlyKeysHaveComponents` | sparkscope/hardware.py:7-12 | Only such keys have a component |
| `MetricKeys.IdentityIff` | sparkscope/hardware.py:7 | An identity is the prefix GPU- followed by at least one letter, digit or dash, and nothing else |
| `MetricKeys.KeysInjective` | sparkscope/parsers.py:297 | Different identities or fields have different keys |
| `MetricKeys.GpuRows` | sparkscope/parsers.py:280-300 | From the printed text, the loop over rows and fields builds the metric map of the lines that are not blank, split at commas and stripped |
| `MetricKeys.ListingReadsBack` | sparkscope/parsers.py:282-285 | Splitting lines and commas and stripping recovers the rows of any listing of clean cells |
| `MetricKeys.ListingOrderIrrelevant` | sparkscope/parsers.py:281-300 | Two listings that print the same identified rows in any order give the same metrics |
| `MetricKeys.RowHit` | sparkscope/parsers.py:280-300 | Under the key of a row's field is what that row reports |
| `MetricKeys.RowMiss` | sparkscope/parsers.py:280-300 | Nothing is held under other keys |
| `MetricKeys.OrderIrrelevant` | sparkscope/parsers.py:281-300 | Two listings of the same identified rows in any order parse to the same metrics |
| `MetricKeys.PlainRow` | sparkscope/parsers.py:293-299 | A row without an identity is reported under its place in the listing, and a lone one under the alias too |
| `MetricKeys.MalformedIgnored` | sparkscope/parsers.py:285-292 | A row of another length, or with a malformed identity, adds nothing |
| `Hardware.Select` | sparkscope/hardware.py:33-46 | The most specific of gpu, device, profile and global rules that names the canonical metric decides, even with a null |
| `Hardware.SourceDecides` | sparkscope/hardware.py:15-49 | Read off the stored overrides: the component's own rules decide, then the device's, then its profile's, then the global ones or the defaults, each only if it names the canonical metric; temperature and power of a single GPU stay unconfigured under the defaults |
| `Hardware.ConsideredIff` | sparkscope/hardware.py:22-32 | A rule is looked up for every polled metric and every metric with a global rule; once a polled metric is keyed by a GPU identity, for GPU metrics only if polled and keyed by one |
| `Hardware.EffectiveRules` | sparkscope/hardware.py:15-49 | Every considered metric gets its most specific rule, and no other metric gets one |
| `Hardware.AliasesIgnored` | sparkscope/hardware.py:22-32 | On a device with GPU identities, aliases get no rule and components do |
| `Hardware.MergeInventory` | sparkscope/hardware.py:52-68 | A failed discovery keeps the known inventory; a successful one lists its GPUs and the missing known ones marked absent |
| `Hardware.MergeMeans` | sparkscope/hardware.py:52-68 | Unavailable, or unsupported and not verified, keeps the known list and the preserved entries; anything else lists its own rows first and then exactly the known identities it did not list, as they were but absent |
| `Hardware.Restore` | sparkscope/hardware.py:57-59 | The loop puts back exactly the named entries that were held before |
| `Hardware.IdentitiesSurvive` | sparkscope/hardware.py:52-68 | Over any run of discoveries each identity ever listed by a successful one has exactly one row, present exactly when the latest successful one listed it |
| `Hardware.MergeIdempotent` | sparkscope/hardware.py:52-68 | Merging a discovery twice is merging it once; a failed one leaves known GPUs and every preserved entry held before as they were |
| `Sections.SplitSections` | sparkscope/parsers.py:32-45 | The loop over lines computes the section map |
| `Text.SplitJoin` | sparkscope/parsers.py:36-45 | Splitting joined parts at their mark gives the parts back |
| `Sections.HeaderNames` | sparkscope/parsers.py:37-40 | A printed header is recognised and gives back its name |
| `Sections.HeaderIff` | sparkscope/parsers.py:37 | A header is exactly a line that begins and ends with three dashes |
| `Sections.ReadPrinted` | sparkscope/parsers.py:32-45 | Reading the lines of printed sections records exactly their bodies and discards the preamble |
| `Sections.SplittingUndoesPrinting` | sparkscope/parsers.py:31-45 | Splitting the printed text of any preamble and sections recovers the bodies by name |
| `Sections.BodiesByName` | sparkscope/parsers.py:31-45 | With distinct names every section comes back under its name and nothing else does |
| `Sections.LastSectionWins` | sparkscope/parsers.py:31-45 | For any text: under a name is what stands between its last header and the next header, or the end |
| `Sections.NoHeaderNoSection` | sparkscope/parsers.py:31-45 | For any text: a name without a header has no section, and neither has the empty name |

## Left out

- SQL, SSH, HTTP, SMTP, WebSocket transport and encryption: an atomic store, and success or failure that may go either way.
- Floating-point rounding, overflow and `round`: numbers are exact reals, and NaN, infinities, booleans, null and text are one value that the filters reject.
- Booleans as alert readings pass the alert filter as in the source, as the numbers 0 and 1, and are not distinguished from them.
- Alert messages, delivery payloads other than the device id, and audit rows: text that no decision depends on.
- The interleaving of polls of one device: a lock in the source makes each poll one step. A failed commit in `poll_system` leaves counters moved without alert rows until the poll loop resets them, so together they act as a reset.
- The collector switched off, its supervision and its poll intervals: they decide when steps happen, not what they do.
- History queries with fewer than one point: the API admits 10 to 600 (sparkscope/api.py:661), and the model asks for at least one.
- `covered` in `history` compares bucket numbers; the model compares bucket starts, which are the numbers times the resolution.
- Order of `order_by` ties, of sets and of dictionaries: any order is allowed and the results hold for each.
- Lists of `sorted(set(ids))` and of removed device ids are modelled as sets.
- The live feed's `ts`, its session checks and its limit of 1000 alerts: the server state is what it read for the message. `localeCompare` is any relation.
- The periodic `/devices` refresh in frontend/src/App.tsx:105-114 replaces the replica outside the message order, so agreement is about the message stream.
- The cap of ten running jobs, the target address substituted into a command and its refusal when it is invalid, and discovery jobs: they only remove sends. Count and insert are not serialised in the source, so no bound on running jobs is claimed.
- Number conversion of GPU fields: any function from field and text to a number or nothing.
- Profiles that hold their rules under `metrics` or directly are both modelled as their rules.
- `save_device` overwrites a device's stored info (sparkscope/api.py:557): identities survive the discovery loop, not that edit.
- Section names with a line break, or with a dash at either end, cannot be printed and read back; the round trip is about all other names.
- The 120 seconds that a confirmation lives: confirmations with any expiry time are covered.
- Sessions, users, CSRF, CRUD endpoints, saved views, diagnostics, imports by the command-line tool, runtime adapters and the parsers of single `/proc` fields: easy or I/O-bound.
