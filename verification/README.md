# Verified model of the peer monitor

A Dafny model of the stateful core of a peer-to-peer monitoring daemon, with proofs about whole runs of it.
`dafny verify dfyconfig.toml` checks everything. Each module follows one component of the program; where the
program updates objects in place the model has a class whose methods are proved against a specification
function, and the theorems are about runs of that specification.

| part | files | source |
|---|---|---|
| snapshot ring, roll-ups and delta pull | `Aggregate`, `SnapshotStore`, `Rollup`, `DeltaPull`, `SyncMerge` | `src/logstore.py`, `src/alpn/status.py` |
| liveness, paging and webhooks | `Liveness`, `Engine`, `Paging`, `Alerts`, `Rate` | `src/engine.py`, `src/alpn/heartbeat.py`, `src/alpn/push.py`, `src/history.py` |
| node rebuild under a cooldown | `Rebuild`, `Rate` | `src/engine.py`, `src/alpn/status.py` |
| remote shell | `Framing`, `ShellInput`, `ShellOutput`, `ShellSessions` | `src/alpn/framing.py`, `src/alpn/shell.py` |
| trust log and authorization | `LogText`, `TrustLog`, `TrustManager` | `src/log.py`, `src/trust.py` |
| outage incidents | `Incidents` | `src/history.py` |

`Common` holds shared vocabulary.

How the model is cut: asyncio code is split into steps at its awaits; SQL tables are maps keyed by their SQL
keys; percentages are integers in hundredths of a percent and times are integer seconds; what the operating
system, the network, the clock and the cryptographic library answer is a parameter of the step that asks.
`ever`, `issued`, `received`, `trace` and `log` are ghost records of everything recorded, issued, delivered,
observed and rebuilt, so that statements can speak about the past.

## Where the code falls short of its purpose

Six promises hold only under a condition. The code is modelled as it is. For each one there is a lemma with a failing
input and a lemma with the exact condition, in both directions and for all inputs.

* **A reload or restart can page twice.** Probes are stamped when they begin and pushes when they arrive, so a push can
  overtake a slow probe. History is read back ordered by timestamp, so a load may take the older success for the
  newest observation and set a peer that was just paged to ALIVE. `Paging.OvertakenProbePagesTwice` is such a run.
  `Paging.DoublePageIff`: after a page with no success since, a load opens the way to a second one if and only if the
  newest row of the last day is a success; `Paging.LoadOpensDoublePageIff` says the same over whole runs.
  The failing run has `down_after` = 1. `Paging.NoDoublePageDespiteOvertaking`: with `down_after` of at least 2, two
  pages always have a success between them, however pushes overtake the probes, because a peer is probed by one probe
  at a time (src/engine.py:351). `Paging.NoDoublePageAcrossRestarts` covers every `down_after` when observations are
  processed in order. Both leave out a probe in flight during a load (see "Left out").
* **A load can change a peer's status.** `Liveness.ShortTailLosesStatus` and `Liveness.ShortRecoveryLosesStatus` are two
  short histories; `Liveness.StatusRestoredIff` gives the exact histories for which the loaded status is the live one,
  read off the rows, for every `up_after` and `down_after`.
* **An emptied ring restarts numbering.** When a prune deletes every snapshot, `_next_seq` starts at 1 again and a client
  with a cursor misses rows: `DeltaPull.EmptiedRingLosesRow`. `DeltaPull.RowDeliveredIff` says of every later row whether
  the next pull delivers it.
* **A prune may outrun the roll-up.** Deleting a snapshot that no roll-up has covered makes its bucket wrong or missing:
  `Rollup.LatePruneLosesSnapshot`; exactly then, over whole runs: `Rollup.RunExactIff`. `Rollup.ScheduledEqualsFull`
  gives a schedule on which it cannot happen.
* **A stale append breaks a shared log file.** `append` continues the chain from memory; if another process extended the
  file meanwhile, no process can load it again: `TrustLog.StaleAppendCannotLoad`; exactly then:
  `TrustLog.SharedFileStaysGoodIff`.
* **An alias can make the log unreadable.** `append` ends an entry with a newline (src/log.py:273), but the load cuts the
  text with `splitlines` (src/log.py:156), which also cuts at U+0085, U+2028 and U+2029. JSON writes these three as they
  are, and nothing checks an alias for them. `TrustManager.AliasBreaksLog`: adding a peer with such an alias succeeds,
  and from then on no load accepts the file, whatever is appended later. `TrustLog.LoadsAgainIff`: after any run of
  appends the file can be loaded again if and only if no written text holds one of the three characters.

The code and its comments disagree in three places; the model follows the code. The docstring of `incidents`
(src/history.py:315) speaks of an ALIVE-to-DEAD edge, but a window that starts with a DEAD row opens an incident at
that row. The message after a failed rebuild (src/engine.py:299-303) says that `_iroh` remains None, but a build that
fails on its identity check leaves the new node in place. The comment at src/engine.py:1010-1013 promises no double
page after a restart, which holds under the condition above.

## Model

| member | source | states |
|---|---|---|
| Aggregate.RoundDivWithin | src/logstore.py:1022-1023 | rounding an average to the stored precision never leaves an interval that holds all samples |
| Aggregate.RoundDivNearest | src/logstore.py:1022-1023 | the stored average is the mean rounded to the nearest hundredth, ties to even |
| Aggregate.NearestMeanUnique | src/logstore.py:1022-1023 | a total and a count have only one such average |
| Aggregate.TwoLevelBounds | src/logstore.py:559-579 | an average of averages lies between the least and greatest raw sample and is at most the stored maximum, which is the maximum of all raw samples |
| Aggregate.DeltasWithinGrowth | src/logstore.py:564-565 | for a counter that never decreases, the sum of the 5-minute deltas lies between 0 and the growth of the counter over all samples |
| Aggregate.FiveMinuteBounds | src/logstore.py:1009-1040 | a 5-minute bucket keeps all of these promises about the snapshots of its window, counts them, and is exact: each average is the nearest hundredth to the mean of that key's readings, each maximum the greatest, each delta the last reading minus the first, and a column without readings is empty |
| Aggregate.HourlyBounds | src/logstore.py:555-582 | an hourly bucket keeps the bounds about every raw snapshot behind it, and is exact over its 5-minute rows: the mean of the averages, the greatest maximum, the sums of deltas and samples |
| SnapshotStore.LimitNeverTruncates | src/logstore.py:430-436 | distinct seqs above the clamped cursor are at most 360, so the LIMIT of the delta query never drops a row |
| SnapshotStore.SelectedIsBySeq | src/logstore.py:432-437 | the rows selected and ordered by SQL are all rows above the cursor, once each, in seq order |
| SnapshotStore.BySeqSound | src/logstore.py:432-437 | the simple form of the reply holds only stored rows above the cursor, strictly by seq |
| SnapshotStore.BySeqComplete | src/logstore.py:432-437 | no row between cursor and latest seq is missing from the simple form of the reply |
| SnapshotStore.DeltaIs | src/logstore.py:424-449 | the reply in terms of the table: entries strictly by seq, each with seq, timestamp, cpu, mem and disk of a stored row, showing exactly the rows above the cursor among the last 360 seqs |
| SnapshotStore.LogStore.RecordSnapshot | src/logstore.py:380-395 | replaces the row of the current second only, under a seq greater than every stored one |
| SnapshotStore.LogStore.GetDeltaSinceSeq | src/logstore.py:415-449 | the reply with clamp and LIMIT equals the form without LIMIT; entry by entry it carries the seq and the four readings of a stored row, and it shows exactly the rows above the cursor among the last 360 seqs, in seq order |
| SnapshotStore.LogStore.RollUp5Min | src/logstore.py:455-521 | the table after grouping and INSERT OR IGNORE is the old one plus one bucket per window with rows since the high-water mark; each new bucket holds the means, maxima and growths of all rows of its window in the table; returns how many are new |
| SnapshotStore.LogStore.GroupByWindow | src/logstore.py:483-486 | one pass over the rows builds, for each window, its snapshots in time order |
| SnapshotStore.LogStore.RollUpHourly | src/logstore.py:523-590 | the same for hours over the 5-minute rows older than a day: each new row holds the means, maxima and sums of its 5-minute rows; existing hours and hours without samples are left alone |
| SnapshotStore.HourlyCovers | src/logstore.py:532-582 | after an hourly roll-up every hour with a sampled 5-minute row older than a day has its row, and rows that existed are unchanged |
| SnapshotStore.LogStore.GroupByHour | src/logstore.py:542-547 | one pass over the 5-minute rows builds, for each hour, its rows in order |
| SnapshotStore.LogStore.PruneTables | src/logstore.py:665-689 | deletes exactly the raw rows older than 2 hours and the 5-minute rows older than 30 days, and counts them |
| Rollup.SelectedSinceCutoff | src/logstore.py:463-478 | in every reachable state the rows the high-water mark selects are exactly those recorded since the last cutoff, also when prune deleted the newest buckets |
| Rollup.NeverTwice | src/logstore.py:500-516 | no window is rolled up that was ever bucketed before, so OR IGNORE never ignores |
| Rollup.NewFiveIsFull | src/logstore.py:483-499 | each new bucket aggregates every snapshot ever recorded in its window, last write per second |
| Rollup.StepKeeps | src/logstore.py:380-689 | every record, roll-up, hourly roll-up and safe prune keeps the invariant behind the theorem below |
| Rollup.IncrementalEqualsFull | src/logstore.py:455-590 | over any run with safe prunes, the 5-minute table is the full aggregation of everything ever recorded, each bucket with the means, maxima and growths of what was recorded in its window; nothing is bucketed twice, and each hourly row stays within the raw samples of its hour |
| Rollup.HourlyJobExact | src/logstore.py:523-590 | after any run, an hourly job keeps existing rows, covers every hour with a sampled 5-minute row older than a day, and each new row is exact over its 5-minute rows |
| Rollup.ScheduledEqualsFull | src/logstore.py:455-689 | when every prune comes at most 6900 s after a roll-up and the clock does not go back, the table is always the full aggregation |
| Rollup.RunExactIff | src/logstore.py:455-689 | for every run that ends with a roll-up and whose clock does not go back: each window that ended by the cutoff was bucketed over all snapshots ever recorded in it if and only if every prune of the run spared the snapshots at or after the last cutoff; what one unsafe prune loses is lost for good |
| Rollup.PruneExactIff | src/logstore.py:671-679 | after a run whose prunes were safe, the roll-up after one more prune stays exact if and only if that prune deletes no snapshot at or after the last cutoff |
| Rollup.LatePruneLosesSnapshot | src/logstore.py:665-689 | a snapshot that waits two hours for a roll-up is pruned first and its window never bucketed |
| DeltaPull.PullClient.ApplyReply | src/alpn/status.py:240-259 | the deque becomes the last 360 of old contents plus reply, the cursor moves only to a valid latest_seq, own stats replace the last ones if sent, failure counter and gap flag are cleared |
| DeltaPull.StepKeeps | src/logstore.py:380-449 | records, prunes, served, delivered and lost pulls and client resets keep the link invariant |
| DeltaPull.StillInDeque | src/schema.py:100 | an entry less than 360 behind the cursor cannot have been pushed out of the bounded deque |
| DeltaPull.DequeHoldsWindow | src/alpn/status.py:192-257 | in any interleaving the client receives strictly increasing seqs, each entry with the readings of the row the server issued under that seq, and its deque shows every surviving row less than 360 behind its cursor |
| DeltaPull.PullCatchesUp | src/alpn/status.py:192-257 | after an undisturbed pull the cursor is the server's latest seq and the deque holds every surviving row in the last 360 seqs |
| DeltaPull.InReplyIff | src/logstore.py:430-437 | the reply shows a stored row, reading by reading, if and only if its seq is above the cursor and among the last 360 |
| DeltaPull.RecordAllSeqs | src/logstore.py:321-326 | rows are numbered on from the highest stored seq, also when they replace each other |
| DeltaPull.RowDeliveredIff | src/logstore.py:321-326 | after any run and prune, the j-th row recorded before the next pull and still stored is delivered by it if and only if it is among the 360 newest seqs and, in case the ring was emptied, its number is above the cursor |
| DeltaPull.EmptiedRingLosesRow | src/logstore.py:321-326 | a run of one record and one pull after which the ring ages out and the next row is not delivered |
| SyncMerge.InsertAllAt | src/logstore.py:908-911 | what INSERT OR IGNORE leaves under a key: the old row, else the first new one |
| SyncMerge.ReplaceAllAt | src/logstore.py:983-995 | what INSERT OR REPLACE leaves under a key: the last new row, else the old one |
| SyncMerge.MergeIdempotent | src/logstore.py:884-1003 | merging a payload twice leaves the tables that merging it once leaves |
| SyncMerge.MergesCommute | src/logstore.py:884-1003 | merges for different peers may be applied in either order |
| SyncMerge.MergePreserves | src/logstore.py:884-1003 | no raw, event or bucket row is changed or lost, and other peers' rows are untouched in all four tables |
| SyncMerge.DuplicatesResolved | src/logstore.py:896-995 | every usable item arrives; of duplicate keys in one payload the first snapshot, event and window and the last daily summary win |
| SyncMerge.SnapshotArrives | src/logstore.py:896-913 | the first snapshot item of a time is stored under that time with its text, unless there was a row |
| SyncMerge.EventArrives | src/logstore.py:915-941 | an event is stored under its time in milliseconds, a time below 100 000 000 000 being in seconds, its name and its detail |
| SyncMerge.BucketArrives | src/logstore.py:944-980 | the first bucket of a window and size is stored under it with its end and columns, unless there was a row |
| SyncMerge.DayArrives | src/logstore.py:981-997 | the last summary of a date is stored under it, whatever was there before |
| SyncMerge.OnlyItemsArrive | src/logstore.py:896-997 | every row that is new stands for an item of the payload with that key |
| SyncMerge.PeerTables.MergeSyncPayload | src/logstore.py:884-1003 | the three loops, with their skips for missing or unreadable times, leave the merged tables and count the rows that are new |
| SyncMerge.PeerTables.MergeSnapshots | src/logstore.py:896-913 | the snapshot loop: rows with a usable time are inserted or ignored, and the new ones counted |
| SyncMerge.PeerTables.MergeEvents | src/logstore.py:915-941 | the event loop: times in seconds become milliseconds, rows are inserted or ignored, and the new ones counted |
| SyncMerge.PeerTables.MergeBuckets | src/logstore.py:943-997 | the bucket loop: windows are inserted or ignored, days replaced, other items skipped, and a day counts every time |
| Liveness.HydratedCounters | src/engine.py:1023-1048 | for all thresholds and histories, a load restores the failure and success counters, the last-seen time and the 100-record deque of the live machine |
| Liveness.LiveRuns | src/alpn/heartbeat.py:166-178 | the live counters are the length of the run of equal outcomes at the end |
| Liveness.LastAliveIs | src/engine.py:1030-1033 | the restored last-seen time is that of the newest success |
| Liveness.LiveStatusFailing | src/engine.py:564-575 | a peer is UNKNOWN exactly until its first success, and DEAD after `down_after` failures in a row |
| Liveness.LiveStatusAlive | src/engine.py:564-570 | after k successes in a row a peer is DEAD only if it was before them and k is below `up_after` |
| Liveness.LiveDeadIff | src/engine.py:564-575 | the live machine says DEAD exactly when the rows hold `down_after` failures in a row after a success, and no `up_after` successes in a row since |
| Liveness.LiveStatusIs | src/engine.py:564-580 | the live status as a function of the rows alone: UNKNOWN, DEAD or ALIVE, for all thresholds |
| Liveness.StatusRestoredIff | src/engine.py:1035-1054 | a load restores the live status if and only if, after a failing tail, the tail reached `down_after` exactly when there is a success, and after a succeeding tail the rows do not say down |
| Liveness.ShortTailLosesStatus | src/engine.py:1049-1054 | a history of two rows: ALIVE live, UNKNOWN after a load with the default thresholds |
| Liveness.ShortRecoveryLosesStatus | src/engine.py:1042-1045 | a history of three rows: DEAD live, ALIVE after a load with `up_after` = 2 |
| Liveness.OnlyShortFailingTailsDiffer | src/engine.py:1049-1054 | with `up_after` = 1 and a success on record, the one difference is a failing tail shorter than `down_after`: UNKNOWN instead of ALIVE |
| Liveness.PeerState.Record | src/alpn/heartbeat.py:166-188 | the bookkeeping of one observation, probe or push |
| Liveness.PeerState.Transition | src/engine.py:561-580 | the threshold decision changes the status and nothing else |
| Liveness.PeerState.Hydrate | src/engine.py:1009-1054 | the loaded state is the one the theorems speak about |
| Liveness.ScanLastAlive | src/engine.py:1030-1033 | the backward scan finds the newest success |
| Liveness.ScanTailRun | src/engine.py:1036-1041 | the backward scan counts the rows at the end that share the last row's status |
| Engine.SortOrders | src/history.py:187-197 | history rows come back ordered by time, none lost and none added |
| Engine.SortKeepsOrdered | src/history.py:187-197 | rows written in order of time come back as written |
| Engine.RecentIs | src/history.py:176-197 | a load reads exactly the rows of its own node that are not older than 24 hours, each as often as it was written, oldest first |
| Engine.PruneKeepsRecent | src/history.py:134-146 | a collection deletes exactly the rows older than the cutoff |
| Engine.StartIsRestart | src/engine.py:981-1007 | a first start is a restart over an empty history |
| Engine.MonitorEngine.MaybeTransition | src/engine.py:557-655 | what a transition logs and sends: nothing from UNKNOWN or in maintenance, an entry otherwise, a webhook unless the dwell runs, and the alert time moves with the webhook |
| Engine.MonitorEngine.ProbePeer | src/alpn/heartbeat.py:87-191 | a probe outcome updates its own peer, its history row and the trace; in a maintenance window nothing happens |
| Engine.MonitorEngine.RecordPushFrom | src/alpn/push.py:93-137 | a push counts as a success; of a peer that is not loaded only the history row remains |
| Engine.MonitorEngine.LoadDevices | src/engine.py:981-1007 | one fresh state per monitored peer, each hydrated from its own rows of the last day |
| Engine.MonitorEngine.ApplyDevicesReload | src/engine.py:977-979 | a reload replaces all peer states and nothing else |
| Engine.MonitorEngine.RunHistoryGc | src/engine.py:661-677 | old rows go, and alert times of peers that are not loaded |
| Paging.NeverAliveNeverPaged | src/engine.py:571-575 | in every run, whatever the clock does, a peer never observed alive gets no monitor_down |
| Paging.SaneRunsPageOnce | src/engine.py:1009-1054 | if no load takes a peer for alive without a success since its last page, two pages always have a success between them |
| Paging.OrderedLoadIsSane | src/engine.py:1030-1045 | with observations in order, a load takes a peer for alive only if it was seen alive since its last page |
| Paging.NoDoublePageAcrossRestarts | src/engine.py:1009-1054 | in every run of probes, pushes, reloads, restarts and prunes with observations in order, two pages of a peer have a success between them |
| Paging.NoDoublePageDespiteOvertaking | src/engine.py:347-358 | with `down_after` of at least 2 and one probe of the peer at a time, two pages of it have a success between them in every run, even when pushes overtake its probes |
| Paging.FailuresCanPageIff | src/engine.py:1036-1045 | after a reload or restart, failures alone can page a peer if and only if its newest row of the last day is a success, whatever its maintenance window |
| Paging.DoublePageIff | src/engine.py:1009-1054 | a peer was paged once and not seen alive since: a load opens the way to a second page without a success if and only if its newest row of the last day is a success |
| Paging.LoadOpensDoublePageIff | src/engine.py:981-1054 | after any run with sane loads, a load opens the way to a double page if and only if it takes the peer for alive without a success since its last page |
| Paging.OvertakenProbePagesTwice | src/history.py:187-191 | a concrete run of four steps with two pages and no success between them |
| Alerts.ThresholdsExact | src/engine.py:564-617 | in every run ALIVE implies fewer than `down_after` failures and DEAD fewer than `up_after` successes; each entry carries exactly its threshold and follows the observation that crossed it; each webhook follows its own entry |
| Alerts.EntriesAlternate | src/engine.py:577-622 | without loads and maintenance a peer's entries alternate starting with monitor_down, and downs minus ups is 1 exactly while it is DEAD |
| Alerts.EntryIff | src/engine.py:561-622 | in every run, an observation puts an entry on record if and only if the peer is loaded and the observation crosses its threshold outside its maintenance window, both ends included; the entry carries the threshold as its count |
| Alerts.WebhookIff | src/engine.py:624-655 | in every run, an entry is followed by its webhook if and only if there is no dwell, or no webhook of that peer since the engine last forgot about it, or the last one lies at least the dwell before |
| Alerts.FirstEntryAlerts | src/engine.py:627-642 | the first entry ever logged of a peer always sends its webhook |
| Alerts.WebhooksSpaced | src/engine.py:624-640 | a peer's webhooks are at least the dwell apart even if timestamps arrive out of order, as long as the engine keeps its alert time |
| Alerts.WebhookRate | src/engine.py:624-655 | any span of T seconds holds at most T/dwell + 1 webhooks of a peer |
| Rate.AtMost | src/engine.py:624-626 | events at least `gap` apart: a span T holds at most T/gap + 1 of them |
| Rebuild.OneAtATimeAfterCooldown | src/engine.py:253-320 | however coroutines interleave and whatever the clocks read, at most one rebuild is in progress and each begins at least the cooldown after the previous one ended, failed or not |
| Rebuild.GrantedRebuildsIff | src/engine.py:263-273 | a coroutine granted the lock rebuilds if and only if no rebuild ended yet or the cooldown since the last end is over |
| Rebuild.NodeDownIff | src/engine.py:282-307 | the node is down exactly while a rebuild has not created the new one yet, or after one that left none |
| Rebuild.SuccessClearsCounters | src/engine.py:309-316 | a successful rebuild leaves the node up and the lock free, and every peer's pull-failure counter stays at 0 until a pull of that peer fails, whatever else happens |
| Rebuild.RebuildRate | src/engine.py:265-268 | with a clock that does not go back, a span T sees at most T/cooldown + 1 rebuilds begin |
| Rebuild.CounterCounts | src/alpn/status.py:174-257 | in every run a loaded peer's counter is the number of its failed pulls since its last good pull, device reload or successful rebuild |
| Rebuild.PullSpawnsIff | src/alpn/status.py:174-190 | after any run a failed pull spawns a rebuild if and only if the peer is alive, rebuilds are enabled and that number has reached the threshold |
| Rebuild.NodeRebuilder.RecordPullFailure | src/alpn/status.py:166-190 | counts one failure of a loaded peer and starts a rebuild coroutine exactly when the threshold is enabled and reached by a peer that is alive |
| Rebuild.NodeRebuilder.RecordOrphanFailure | src/alpn/status.py:192-236 | on a state that a reload replaced during the fetch, no loaded counter moves, but the rebuild may start |
| Rebuild.NodeRebuilder.PreCheck | src/engine.py:253-261 | the coroutine goes on to queue for the lock if and only if no rebuild ended yet or the cooldown is over |
| Rebuild.NodeRebuilder.NodeCreated | src/engine.py:214-233 | the new node is in service from its creation on, before its identity is checked |
| Rebuild.NodeRebuilder.Granted | src/engine.py:263-284 | the second test under the lock, and the old node taken out of service |
| Rebuild.NodeRebuilder.Finish | src/engine.py:296-320 | both outcomes stamp the end and free the lock; only success clears counters, and it reports how many were not 0 |
| Rebuild.NodeRebuilder.ResetCounters | src/engine.py:311-315 | the loop zeroes every counter and counts those that were positive |
| Framing.Be32RoundTrip | src/alpn/framing.py:110-116 | the big-endian length prefix reads back |
| Framing.FrameOnWire | src/alpn/framing.py:109-111 | on the wire a frame is its length in four bytes, most significant first, and then the payload |
| Framing.ReadBack | src/alpn/framing.py:109-121 | a written frame within the limit is read back whole and the stream continues behind it |
| Framing.DecodeEncode | src/alpn/framing.py:109-121 | frames written one after another come back as written, whatever follows on the stream |
| Framing.WriteFramed | src/alpn/framing.py:109-111 | appends exactly one frame to the stream |
| Framing.ReadFramed | src/alpn/framing.py:114-121 | consumes exactly one frame, or fails on a short stream or an oversized length |
| ShellInput.PtyWriteAll | src/alpn/shell.py:55-78 | under any short writes and finitely many EAGAINs in a row the loop ends and the pty got all bytes in order, or a prefix if it failed for good |
| ShellInput.HandleFrame | src/alpn/shell.py:448-467 | DATA bodies are typed, well-formed RESIZE frames resize, CLOSE ends the pump, anything else is ignored |
| ShellInput.FramesMean | src/alpn/shell.py:451-463 | the first 16-bit word of a RESIZE frame is the rows and the second the columns, high byte first; a DATA body is typed as it is |
| ShellInput.ShellStreamToPty | src/alpn/shell.py:441-471 | the pty gets exactly the DATA bodies of the frames before the first CLOSE, the end of the stream or a bad frame |
| ShellInput.InputIsLossless | src/alpn/shell.py:441-471 | frames within 1 MiB, written and then closed, mean to the pump what they meant to the client |
| ShellInput.TypeThrough | src/alpn/shell.py:441-471 | client, stream and host together: the pty receives the concatenated DATA bodies and the window sizes in order |
| ShellOutput.Backpressure | src/alpn/shell.py:386-423 | in every interleaving of callback and drainer the queue stays within 64, a disarmed reader before EOF has more than 16 items waiting or a chunk in flight, and an idle drainer has an armed reader |
| ShellOutput.CleanFinish | src/alpn/shell.py:411-431 | a clean finish sent exactly the pty output as DATA bodies in order and then one EXIT frame, although the reader may be re-armed after EOF |
| ShellOutput.SentIsPrefix | src/alpn/shell.py:411-439 | at every moment and however the pump ends, what was sent is a prefix of what was read |
| ShellOutput.ClientSeesFrames | src/alpn/shell.py:169-176 | every frame fits the client's limit and is read back as sent |
| ShellOutput.FinishGetsNearer | src/alpn/shell.py:411-424 | after EOF every drainer step brings the finish nearer and no callback puts it off |
| ShellOutput.ExitCodeRoundTrip | src/alpn/shell.py:424-428 | the signed exit code survives the EXIT frame |
| ShellOutput.ExitFrameOnWire | src/alpn/shell.py:424-428 | on the wire the code is in two's complement, most significant byte first |
| ShellOutput.OutputPump.OnReadable | src/alpn/shell.py:390-409 | the reader callback: bytes, would-block or end, and disarming at the high-water mark |
| ShellOutput.OutputPump.Resume | src/alpn/shell.py:413-418 | taking the oldest item from the queue |
| ShellOutput.OutputPump.AfterSend | src/alpn/shell.py:418-423 | after a sent chunk the reader is armed again at or below the low-water mark; a failed send ends the pump |
| ShellOutput.OutputPump.AfterExit | src/alpn/shell.py:424-439 | the EXIT frame carries the child's return code, and the reader is removed |
| ShellSessions.HostConservation | src/alpn/shell.py:238-258 | in every interleaving of starts and ends at most 4 sessions live, each per-peer count is how many that peer has, between 1 and 2, the counts add up, and the clamp at 0 never bites |
| ShellSessions.PermitConservation | src/alpn/shell.py:513-545 | free permits, opens in flight and unreleased sessions always add up to 4, however often a close is requested |
| ShellSessions.ShellHost.BeginSession | src/alpn/shell.py:238-258 | accepts exactly when fewer than 4 sessions live and the peer has fewer than 2 |
| ShellSessions.ShellHost.EndSession | src/alpn/shell.py:351-356 | forgets the session and takes it off its peer's count, removing a count of 0 |
| ShellSessions.ShellClient.BeginOpen | src/alpn/shell.py:513-513 | takes one permit |
| ShellSessions.ShellClient.AbandonOpen | src/alpn/shell.py:532-539 | a failed open gives its permit back |
| ShellSessions.ShellClient.FinishOpen | src/alpn/shell.py:541-545 | a successful open registers the session |
| ShellSessions.ShellClient.BeginClose | src/alpn/shell.py:203-206 | only the first close of a session goes on |
| ShellSessions.ShellClient.FinishClose | src/alpn/shell.py:219-223 | the close that went on unregisters the session and releases one permit |
| LogText.ReadAppend | src/log.py:153-164 | what a load makes of a file that ends with a whole line and of text appended to it is decided separately: the entries of both, or unreadable if either is |
| LogText.ReadWritten | src/log.py:153-164 | one written entry reads back if and only if its text holds no line break, and is unreadable otherwise |
| LogText.TextReadsBackIff | src/log.py:153-164 | a file of appended entries reads back as exactly those entries if and only if each text is one line, and is unreadable otherwise |
| LogText.UnreadableForGood | src/log.py:153-164 | no later append repairs a file that cannot be read |
| LogText.BreaksLeft | src/log.py:156-157 | as JSON escapes control characters, only U+0085, U+2028 and U+2029 can break an entry |
| LogText.CutAt | src/log.py:156-156 | each of the ten line breaks that splitlines knows here ends a line |
| LogText.StripIs | src/log.py:157-159 | padding is taken off both ends of a line and nothing else; a blank line is left empty |
| TrustLog.VerifyChain | src/log.py:196-224 | no error exactly when every entry is numbered by its place, linked to the one before, of a known type and signed |
| TrustLog.AppendKeepsChain | src/log.py:247-267 | an appended entry continues a good chain |
| TrustLog.SameHeadSameLog | src/log.py:226-231 | with a collision-free hash, two good logs with the same head are the same log |
| TrustLog.ExtendsOwnChainOnly | src/log.py:196-224 | an entry appended to a good chain keeps it good if and only if it was built on that very chain |
| TrustLog.SharedFileStaysGoodIff | src/log.py:247-274 | when the file is shared, an append leaves it loadable if and only if memory held what the file held and the written text is one line |
| TrustLog.StaleAppendCannotLoad | src/log.py:247-274 | two processes that start from the same log and append one entry each leave a file that cannot be loaded, whatever is appended later |
| TrustLog.OpsSince | src/log.py:237-239 | returns exactly the suffix after index `since` |
| TrustLog.TailAppend | src/log.py:268-269 | the incremental tail stays the last 256 monitor entries |
| TrustLog.MonitorTailFrom | src/log.py:168-174 | the tail built on load is the last 256 monitor entries |
| TrustLog.TrustLog.SignedEntry | src/log.py:248-266 | numbers, links and signs the next entry |
| TrustLog.TrustLog.Append | src/log.py:241-276 | adds one entry to memory and its text and a newline to the file, or refuses without a key or for an unknown type and changes neither; a file that read back as the memory still does exactly when the text is one line, and cannot be read otherwise |
| TrustLog.TrustLog.ReadVerifiedEntries | src/log.py:153-166 | cuts the text into lines, skips blank ones, refuses a file with a line that is no entry, and otherwise returns its entries exactly when their chain is good |
| TrustLog.TrustLog.Load | src/log.py:176-187 | replaces the log exactly when there is a file, every line parses and the chain is good; otherwise nothing changes |
| TrustLog.TrustLog.ReloadIfChanged | src/log.py:357-370 | reloads exactly a newer file that parses and has a good chain, and all or nothing |
| TrustLog.TrustLog.MaterializePeers | src/log.py:285-338 | the loop computes the replay of the whole log, which has exactly the peers ever added, each with the row the log gives it |
| TrustLog.MaterializeReads | src/log.py:285-338 | every row read off the log: added at the last add, revoked at the first revocation since, and permissions, alias, tags and maintenance window (start, end) as the last entry that puts something there leaves them |
| TrustLog.RowUnique | src/log.py:285-338 | the log determines the whole row |
| TrustLog.TrustLog.RecentMonitorEvents | src/log.py:345-355 | the last 256 monitor_down and monitor_up entries of the log, or those of them that name one peer |
| TrustLog.AppendAllKeeps | src/log.py:241-276 | over any run of appends the chain stays good and the incremental tail equals the one computed from scratch |
| TrustLog.LoadsAgainIff | src/log.py:153-166 | after any run of appends the file can be loaded if and only if no written text holds U+0085, U+2028 or U+2029; then it gives back the written entries, else it cannot be loaded whatever is appended later |
| TrustLog.FreshLoadAgrees | src/log.py:153-187 | a fresh process refuses the file after a run of appends exactly when a written text is not one line; otherwise it holds the writer's entries, peer view and monitor tail |
| TrustManager.AuthorizationEqualsLog | src/log.py:285-338 | looking a peer up in the replayed view answers the declarative question: added, not revoked since the last add, and the permissions set last contain p or the wildcard |
| TrustManager.MaintenanceEqualsLog | src/trust.py:40-46 | a peer of the view is in maintenance if and only if, of the entries that set or clear its window, the last after any add set one that holds the time |
| TrustManager.EventKeepsView | src/log.py:29-36 | monitor and shell entries leave the replayed view alone |
| TrustManager.AuthorizedInEveryRun | src/trust.py:89-158 | in every state reachable by calls and by reloads of files that others wrote, the cached view gives the answer of the whole log |
| TrustManager.ViewInEveryRun | src/trust.py:89-140 | in every such state the cached view has exactly the peers ever added, each with the row the log gives it |
| TrustManager.ChainInEveryRun | src/log.py:196-276 | in every such state the log would pass the chain verification of a load |
| TrustManager.OnlyNamedPeerAffected | src/log.py:293-337 | an entry changes the authorization of no peer but the one it adds, revokes or re-permits |
| TrustManager.OnlyKnownProtocols | src/trust.py:217-221 | in every run, a protocol that does not exist is granted only by the wildcard, as long as reloaded files list none |
| TrustManager.AliasBreaksLog | src/trust.py:210-246 | adding a peer with the alias "a", U+2028, "b" succeeds and authorizes it, but no load ever accepts the file again |
| TrustManager.PeerTrustManager.AppendAndRebuild | src/trust.py:89-123 | a mutation appends one entry, and the view is the replay again: the old one with that entry applied |
| TrustManager.PeerTrustManager.VerifyAndAuthorize | src/trust.py:146-158 | says yes exactly for the node itself and for peers the log authorizes |
| TrustManager.PeerTrustManager.PeersWithPermission | src/trust.py:172-179 | returns exactly the peers the log authorizes |
| TrustManager.PeerTrustManager.AddPeer | src/trust.py:210-246 | refuses exactly an unknown permission or a trusted peer; afterwards the row has the alias, permissions (monitor by default), tags and time given, and no window; the log authorizes the peer for exactly those permissions; nobody else's row or authorization changes |
| TrustManager.PeerTrustManager.RevokePeer | src/trust.py:248-261 | refuses exactly an unknown or revoked peer; afterwards the row has the revocation time and the log authorizes the peer for nothing; nobody else's row or authorization changes |
| TrustManager.PeerTrustManager.UpdatePermissions | src/trust.py:263-285 | refuses exactly an unknown permission and an unknown or revoked peer; afterwards the row has the new permissions and the log authorizes the peer for exactly them; nobody else's row or authorization changes |
| TrustManager.PeerTrustManager.SetMaintenance | src/trust.py:349-373 | refuses exactly an empty window or an unknown peer; afterwards the row has this start and this end and is otherwise unchanged, and so is everybody else's; nobody's authorization changes |
| TrustManager.PeerTrustManager.ClearMaintenance | src/trust.py:375-386 | refuses exactly an unknown peer; afterwards the row has no window, and without one nothing was appended |
| TrustManager.PeerTrustManager.SetAlias | src/trust.py:287-295 | refuses exactly an unknown peer; afterwards the row has the alias and is otherwise unchanged, and so is everybody else's |
| TrustManager.PeerTrustManager.InMaintenance | src/trust.py:40-46 | inside exactly when the log says so |
| TrustManager.PeerTrustManager.EngineAppends | src/engine.py:619-622 | an event appended behind the manager's back needs no rebuild: the cached view is still the replay |
| TrustManager.PeerTrustManager.ReloadIfChanged | src/trust.py:134-140 | after a reload log and view are those of the file, else both are unchanged |
| Incidents.DownRunsSound | src/history.py:332-364 | the listed runs are maximal runs of rows that are not ALIVE, in order and disjoint |
| Incidents.DownRunsComplete | src/history.py:332-364 | every maximal run is listed |
| Incidents.DetectEdges | src/history.py:332-350 | the one-pass detector closes exactly the finished runs and remembers where an unfinished one began |
| Incidents.IncidentsOf | src/history.py:310-364 | the answer is the maximal runs newest first, cut to the limit; each incident started at the first row of its run, ended at the first ALIVE row behind it and lasted from one to the other, or is ongoing, without an end, and lasts up to the last row |
| Incidents.IncidentsAreMaximalRuns | src/history.py:310-364 | incidents are exactly the maximal runs, and only the newest is ongoing, exactly when the last row is down |
| Incidents.DurationsBounded | src/history.py:345-358 | the durations add up to at most the time the rows span |

## Left out

- Rollup.IncrementalEqualsFull: assumes that a prune deletes no snapshot the roll-up has not covered and that the clock does not go back; `Rollup.PruneExactIff` and `Rollup.RunExactIff` show the first is needed.
- DeltaPull.DequeHoldsWindow: assumes that a prune does not empty a ring that has rows; `DeltaPull.RowDeliveredIff` says what happens otherwise.
- Paging.NoDoublePageAcrossRestarts: a probe that is in flight during a reload ends on the state the reload replaced, which is not modelled; it can page on the old state, and failures can page again on the new one when the load took the peer for alive.
- Paging.NoDoublePageDespiteOvertaking: leaves out the same probe.
- SnapshotStore.LogStore.PruneTables: deletes and counts the own node's rows only; the source does the same to the rows of every peer.
- Engine.MonitorEngine.MaybeTransition: leaves out the failure text of an entry, failures of the log append or of the notifier (both are caught and logged), and the reconnect sync it may schedule.
- Engine.MonitorEngine.ProbePeer: probe and history row are one step, so the batch write at the end of a heartbeat cycle and a reload in the middle of one are not modelled.
- Engine.MonitorEngine.LoadDevices: a malformed node id is taken to be filtered out of the monitored set, and an unreadable history is not modelled.
- Alerts.WebhooksSpaced: not across a restart or a garbage collection while the peer is not loaded, because both drop the alert time.
- ShellInput.PtyWriteAll: the finitely many EAGAINs in a row are an assumption about the kernel, given as a measure.
- Rebuild.NodeRebuilder.Granted: the shutdown of the old node and the 0.5 s sleep are steps without effect; task cancellation is not modelled.
- ShellOutput.CleanFinish: sending a frame succeeds or fails as a whole; cancellation of the pump and the fixed 2 s wait at teardown are not modelled.
- TrustLog.TrustLog.Append: writing the file does not fail; after a failed write the source's memory is ahead of its file.
- LogText.TextReadsBackIff: JSON is two functions with stated properties (an entry reads back, its text is an object with control characters escaped, an object cut short is no JSON, other characters are kept); the file is a text, so its encoding is not modelled.
- Sub-second parts of times: all times are integer seconds, as the SQL tables store them.
- Floating point: averages are rounded to integers in hundredths of a percent, ties to even.
- SHA-256 and Ed25519 are functions with the stated hypotheses (collision-free, signatures verify).
- `roll_daily` and the conservation of samples by `roll_hourly`: their cutoffs are not aligned to days and hours, so a partial hour or day can be frozen.
- The sync cursor and reconnect gap-fill: they mix times of different units or read a time just overwritten; no useful property.
- Other peers' rows in the roll-up and delta model: all of its queries filter by the own node, and prune treats each row by itself.
- Races between reading the clock and taking the store lock: record and roll-up are single steps.
- Event ids and row order inside the merged tables, uptime percentages, hourly uptime bars, RTT statistics: each reads one table for the dashboard and feeds nothing that is modelled here.
- Tags appear as log entries and a command without methods; their normalisation and the tag queries are left out.
- Connection paths, HTTP pages, the command line, container and system collection, installation, and the QUIC, PTY and process calls themselves.
