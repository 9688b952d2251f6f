# kfleet: verified models of the hub and agent control plane

kfleet runs one hub and one agent per Kubernetes cluster. These Dafny modules model the parts of it
whose behaviour spans many steps or many functions, and prove what those parts are meant to guarantee.
`dafny verify dfyconfig.toml` checks everything.

Conventions: time is an integer number of nanoseconds; a database table is a map of rows and one store
call is one atomic step, because the store uses a single connection; the body of a critical section is
one atomic step; a Go channel is a bounded sequence with a closed flag; hashes are injective and
generated ids and tokens are fresh. Where the source updates objects in place the model has a class
whose methods are proved equal to a step function, and the theorems are about runs of those steps.

## The modules

- `Text`, `Lists`, `Sets`, `Fleet`, `Pruning`: string helpers, list and set laws, shared vocabulary, the batched DELETE.
- `Runs`: what holds after a run because something happened in it and nothing undid it since.
- `Streamer`: how the agent cuts a pod's log into lines and what it reports at the end.
- `Sse`: the hub's server-sent events printer and the client's parser (sections 9.2.5 and 9.2.6 of the
  WHATWG HTML Standard describe the format).
- `LogRelay`: the hub's registry of agent connections and their stream queues, with register and
  unregister split where they release their lock.
- `RelayStreams`: what opens and what ends a stream of the relay, and what its consumer receives.
- `LogChannel`: the whole log path as one state machine of twenty-three actions: agent workers, outbound
  queue, writer, wire, breakage, hub reader, bounded stream queues, SSE handlers, reconnects.
- `LogChannelSafety`: every step keeps the invariant of `LogChannel`.
- `LogDelivery`: what follows for a client that parses the hub's response.
- `LogArrival`: from every reachable state any log can still arrive.
- `LogFailure`: why a client is told that a stream failed.
- `LogWorkers`: what cancels a worker, and the single steps of workers, handlers and links.
- `LogFalseEnd`: a run in which a shortened log reaches the client as a complete one.
- `Alerts`, `AlertManager`: alert rows, cooldown, lifecycle and the delivery scheduler; the store
  statements and the manager's loops.
- `AlertColumns`, `AlertEvaluation`: what the alert table holds after a run and after one evaluation, column
  by column.
- `AlertCompletion`: every alert is delivered or dead-lettered within the attempts it has.
- `AlertProgress`: how a delivery backlog drains while other store calls come in between its sends.
- `Timeline`: the event table with dedupe, cursor pagination and pruning.
- `TimelineColumns`: what pages and walks list, and what the table holds, column by column.
- `HealthHistory`, `HealthServer`: cluster health and the transition history the handlers record.
- `HealthColumns`: the health and the heartbeat of a cluster after a run, and what each step records.
- `HistoryDuplicates`: exactly when dedupe breaks that history, whatever the clock does.
- `HistoryGaps`: what pruning leaves of that history, and exactly when a half-done prune leaves a gap.
- `Policy`, `PolicyEngine`: what one policy evaluation reports; the engine's loops.
- `PolicyVerdicts`, `PolicyBaselines`: the verdicts of all seven policies, read off the final report.
- `Identity`: users, sessions, the last-admin guard and expiry.
- `Access`: which tokens answer and which password and role a user has after a run.
- `Registration`, `RegistrationPeers`: registration, token rotation and approval.
- `Approval`: who is registered and approved after a run, what agents know of it and when they ask again.
- `Broadcast`, `BroadcastLoop`: the WebSocket broadcast loop.
- `Audience`: which clients are live and which updates are accepted after a run; the loop's progress.

## Findings

Each of these is a lemma; the code is modelled as it is.

- A reader that fails with a context error although nobody cancelled it makes a shortened log look
  complete to the client (`LogFalseEnd.ContextErrorLooksComplete`); `LogDelivery.EndToEnd` shows that
  this is the only way, and that other streams' readers do not matter.
- A carriage return at the end of a log line, or in front of a CRLF, is lost on the way to the client
  (`Sse.BareCrIsLost`, `Sse.ReceivedExactly`).
- A timeline page whose cursor row is gone looks like the last page. After a completed prune that is
  right (`Timeline.CompletedPruneLosesNothing`); between two batches of one, the walk can miss a row
  (`Timeline.HalfDonePruneLosesRow`); `Timeline.LostCursor` says exactly when it does.
- Health changes or outages that repeat within one clock reading are taken for duplicates and break
  the recorded histories (`HistoryDuplicates.StalledClockRun`, `HistoryDuplicates.StalledOutageRun`);
  `HistoryDuplicates.RunExactly` gives the exact condition for whole runs.
- A half-done prune can leave a history with a gap, because a batch may take newer expired events
  before older ones (`HistoryGaps.HalfDonePruneLeavesGap`); `HistoryGaps.HalfDonePruneExactly` gives
  the exact condition. A batch that takes the oldest events first never does
  (`HistoryGaps.OldestFirstLeavesNoGap`), and neither does a completed prune
  (`HistoryGaps.PrunedRunHistories`).
- An evaluation that another one of the same cluster overlaps can leave an alert firing with a health
  the cluster no longer has (`Alerts.OverlapBreaksLifecycle`). `Alerts.CurrentExactlyFromStart` gives
  the exact condition for whole runs: every stored alert carries the health that the last evaluation
  of its cluster to resolve before it saw. Overlap alone does no harm when the evaluations agree.
- An agent whose registration answer is lost, or which restarts while registered, is refused until its
  cluster is deleted (`Registration.WhatStrands`, `Registration.StrandedUntilDeleted`).
- The registrar's comment says that HTTP 202 means pending; the hub answers 201
  (internal/server/handlers_agents.go:220-223). The model follows the code: only 200 means approved.

## Model

| member | source | states |
|---|---|---|
| Streamer.ReadLine | internal/agent/logs/streamer.go:132-150 | whatever chunks the buffered reader returns, one call yields the next line of the text, without its terminator and cut to 16 KiB, and leaves exactly what follows it |
| Streamer.Stream | internal/agent/logs/streamer.go:96-127 | a clean end or a failed read is reported only after every line and with no look finding the context cancelled, a cancellation at the first look that does, a failed emit at the first line not accepted; what was emitted is a prefix of the log's lines |
| Streamer.LinesFit | internal/agent/logs/streamer.go:20-22 | no emitted line is longer than the limit or contains a newline |
| Streamer.LinesRoundTrip | internal/agent/logs/streamer.go:132-150 | lines written with newlines come back as the same lines |
| Streamer.LinesExactly | internal/agent/logs/streamer.go:132-150 | any log, whatever the lengths of its lines and whether they end in a newline, a CRLF or not at all, is read as its lines without terminators, each cut to its first 16 KiB |
| Sse.WriteData | internal/server/handlers_logs.go:297-306 | the loop over the parts of a line prints exactly the fields of one data event |
| Sse.ReadLogEvents | internal/mcp/hubclient/client.go:182-230 | the scanner loop computes the recursive parser used by the theorems |
| Sse.ParseChunks | internal/mcp/hubclient/client.go:182-230 | printed chunks that fit the scanner are read back line by line whatever follows; one that does not fit is an error |
| Sse.RoundTrip | internal/server/handlers_logs.go:187-191 | any lines with any interleaved keep-alives, closed by the end event, parse to those lines; over-long parts are the only obstacle |
| Sse.PrefixSafety | internal/mcp/hubclient/client.go:182-230 | every strict prefix of a finished stream parses to an error, never to a shorter success |
| Sse.TerminatedPrefix | internal/mcp/hubclient/client.go:182-230 | the same for streams closed by either terminal event |
| Sse.FailureNeverCompletes | internal/server/handlers_logs.go:308-316 | a stream closed by an error event never parses as complete, whole or cut |
| Sse.OpenStreamNeverCompletes | internal/mcp/hubclient/client.go:224-230 | without a terminal event nothing parses as complete |
| Sse.FailureArrives | internal/server/handlers_logs.go:308-316 | a stream closed by an error event tells the client that event's message, unless a part is too long for the scanner |
| Sse.NamedEvents | internal/mcp/hubclient/client.go:191-222 | an event of another name is skipped with its data, one named message counts as a line |
| Sse.OtherFields | internal/mcp/hubclient/client.go:191-222 | comments and other fields change nothing |
| Sse.ReceivedExactly | internal/server/handlers_logs.go:297-306 | a client gets the line with CRLF turned into LF if and only if the line neither ends in a carriage return nor has one in front of a CRLF |
| Sse.CleanLineReceived | internal/server/handlers_logs.go:297-306 | a line without bare carriage return arrives with CRLF turned into LF |
| Sse.NoBareCr | internal/server/handlers_logs.go:297-306 | normalizing such a line leaves no carriage return at all |
| Sse.BareCrIsLost | internal/mcp/hubclient/client.go:191-203 | a concrete line that loses its carriage return |
| LogRelay.RelaySafety | internal/server/logrelay.go:52-115 | in every interleaving a queue is open exactly while it is in its connection's map, closed connections hold no streams, no closed channel is closed again or sent to, and registered connections are live |
| LogRelay.RegisteredIsOpen | internal/server/logrelay.go:184-203 | the connection in the agents map is never closed and belongs to that cluster |
| LogRelay.ClosedQueueStaysClosed | internal/server/logrelay.go:52-115 | a closed queue stays closed and is never sent to afterwards: it only loses frames at its front |
| LogRelay.ReplacementIsNeverEvicted | internal/server/logrelay.go:196-203 | late unregisters of an old connection never evict its replacement |
| LogRelay.ClosedConnStaysEmpty | internal/server/logrelay.go:76-104 | a closed connection never holds a stream again |
| RelayStreams.StreamingExactly | internal/server/logrelay.go:52-115 | over every interleaving a stream is in its connection's map iff it was opened there and since then no end frame came, no frame found 512 waiting, and neither closeAll nor removeStream ran |
| RelayStreams.ConnectedExactly | internal/server/logrelay.go:178-203 | over every interleaving a cluster is served by the last connection registered for it, unless that one unregistered |
| RelayStreams.QueueExactly | internal/server/logrelay.go:52-72 | while a stream is in the map, what waited and what arrived is what its consumer received and what still waits, in order |
| LogRelay.AgentLogConn.Deliver | internal/server/logrelay.go:52-72 | the method over real channels equals the step: unknown streams ignored, a full queue or an end frame closes the stream |
| LogRelay.AgentLogConn.CloseAll | internal/server/logrelay.go:76-87 | every queue in the map is closed once and the map emptied; a second call does nothing |
| LogRelay.AgentLogConn.AddStream | internal/server/logrelay.go:95-104 | a fresh open queue is added unless the connection is closed |
| LogRelay.AgentLogConn.RemoveStream | internal/server/logrelay.go:106-115 | the stream's queue is closed if it is still in the map, otherwise nothing happens |
| LogRelay.Registry.Swap | internal/server/logrelay.go:184-189 | the part of register under the lock is the RegisterSwap step of the state machine, and the connection it replaced is handed back as owed a closeAll |
| LogRelay.Registry.Drop | internal/server/logrelay.go:196-201 | the part of unregister under the lock is the UnregisterDetach step: only a connection that is still registered leaves the map |
| LogRelay.Registry.Connection | internal/server/logrelay.go:233-238 | the registered connection of the cluster, or none |
| LogChannelSafety.RunKeeps | internal/agent/logs/client.go:201-249 | in every run the frames a handler took and still has queued are a prefix of what the hub received for the stream, which with the wire and the outbound queue is what the worker sent |
| LogDelivery.CompleteMeansAll | internal/server/handlers_logs.go:183-214 | in every state with the invariant a successful parse is every line the stream's reader produced, in order, and the reader returned no error that is reported |
| LogDelivery.EndToEnd | internal/server/handlers_logs.go:183-214 | over every interleaving of any number of streams, overflow, stops, reconnects and read errors: a client that parses any part of the response successfully has every line of the stream's reader in order, and the reader had reached the end of the log iff it never reported a context error that nobody caused |
| LogDelivery.RunMisreports | internal/agent/logs/client.go:201-230 | over every run the worker's record of a false context error is there iff one of its reader's reports was one |
| LogDelivery.EndedStreamParses | internal/server/handlers_logs.go:183-214 | conversely, whenever the end event was printed the whole response parses to all lines, unless a part exceeds the scanner's limit |
| LogDelivery.WholeLogArrives | internal/agent/logs/streamer.go:96-150 | when the lines come from the streamer reading a pod's text, a whole ended stream without a false report parses to all lines of that text; the 16 KiB cut keeps every part within the scanner's limit |
| LogDelivery.CleanLinesArrive | internal/mcp/hubclient/client.go:182-230 | for lines without bare carriage return the received lines are the emitted ones with CRLF turned into LF |
| LogArrival.AnyLogCanArrive | internal/server/handlers_logs.go:183-214 | from every reachable state, over any open and unbroken connection and whatever else is under way, a run exists in which a new stream brings any given lines and their end to the client |
| LogFailure.FailsOnlyFor | internal/server/handlers_logs.go:183-214 | over every interleaving a client is told that a stream failed only if its reader failed, with that error, or if its connection was closed or a frame of it found 512 waiting |
| LogWorkers.CancelledExactly | internal/agent/logs/client.go:151-199 | over every interleaving a worker is cancelled iff its context ended or the agent read a request to stop it, and it gives up only then |
| LogWorkers.WorkerSteps | internal/agent/logs/client.go:201-239 | what each step of a worker does to it and to the outbound queue, which takes 256 frames |
| LogWorkers.LinkWorkers | internal/agent/logs/client.go:151-199 | requests start workers that do not exist and cancel those that do, and nothing else on the link concerns a worker |
| LogWorkers.BreakSteps | internal/agent/logs/client.go:241-254 | a failed connection writes no more, and a beginning of what was on its way may still be read |
| LogWorkers.StartIsChecked | internal/server/logrelay.go:119-125 | open goes on unless the connection is closed |
| LogWorkers.StartIsSent | internal/server/logrelay.go:126-131 | the start request is queued, and the stream goes on, iff fewer than 64 requests wait |
| LogWorkers.StopIsChecked | internal/server/logrelay.go:161-166 | Close asks for the stop unless the connection is closed |
| LogWorkers.StopIsSent | internal/server/logrelay.go:161-166 | the stop request is queued iff fewer than 64 requests wait, and the stream is dropped either way |
| LogWorkers.KeepAliveIsPrinted | internal/server/handlers_logs.go:187-191 | a keep-alive is printed at once and changes nothing else |
| LogWorkers.AbandonEnds | internal/server/handlers_logs.go:185-186 | a browser that leaves ends its stream without a terminal event |
| LogFalseEnd.ContextErrorLooksComplete | internal/agent/logs/client.go:201-230 | a run of fifteen steps from the initial state in which a log of two lines parses successfully as one |
| Alerts.RetryDelay | internal/alerts/manager.go:289-301 | the doubling loop over 64-bit integers computes the delay without leaving the type |
| Alerts.DelayClosedForm | internal/alerts/manager.go:289-301 | the delay after k attempts is min(base * 2^(k-1), one hour) |
| Alerts.CooldownSeparation | internal/store/alerts.go:152-201 | over every run, even with the clock going backwards and cooldowns edited, each stored alert was triggered at least its cooldown after every earlier one of its tenant and key |
| Alerts.Lifecycle | internal/alerts/manager.go:88-141 | over every run in which no evaluation of a cluster starts between another one's resolve and its creations, firing and acknowledged alerts carry the cluster's last evaluated health |
| Alerts.StatusLifecycle | internal/store/alerts.go:203-222 | over every run, overlapping or not, resolved_at is set iff resolved and no status goes back |
| Alerts.CurrentExactly | internal/alerts/manager.go:88-125 | over every run of store calls from any current state, overlapping or not: after every call the open alerts carry the cluster's last evaluated health iff every stored creation carries the health the last resolve of its cluster before it saw |
| Alerts.CurrentExactlyFromStart | internal/alerts/manager.go:88-125 | from the empty table the same, where each stored creation has such a resolve before it and its health |
| Alerts.OverlapBreaksLifecycle | internal/alerts/manager.go:88-125 | two overlapping evaluations after which an alert fires with a health the cluster no longer has |
| Alerts.NoOverlapAppend | internal/alerts/manager.go:88-141 | runs without overlap may follow one another |
| Alerts.DeliveryInvariant | internal/store/alerts.go:421-476 | over every run the delivery columns agree with each other and with the sends made, and consecutive sends are spaced by the retry delay |
| Alerts.DeliveryOutcome | internal/alerts/manager.go:177-214 | in every reachable table: next delivery set iff pending or retrying, attempts equal sends and never exceed the maximum, the maximum means delivered or dead-lettered, dead-lettered means the maximum, and a send was accepted iff it is the last one of a delivered alert |
| Alerts.TerminalIsFinal | internal/store/alerts.go:385-400 | a delivered or dead-lettered alert keeps its delivery columns and is never sent again |
| Alerts.LifecycleLeavesDelivery | internal/store/alerts.go:203-222 | resolving and acknowledging touch no delivery column |
| Alerts.RoundProgress | internal/alerts/manager.go:160-175 | one round removes exactly min(25, n) of the n due alerts and makes none due, whatever the webhook answers |
| Alerts.BacklogDrains | internal/alerts/manager.go:160-175 | after r rounds n - min(n, 25r) alerts of a backlog are left |
| AlertColumns.DueExactly | internal/store/alerts.go:385-419 | in every reachable table an alert is due iff its next delivery is set and not after now |
| AlertColumns.DueListExactly | internal/store/alerts.go:385-419 | a due list holds pending and retrying alerts only, in order of next delivery and trigger time, and leaves out only for lack of room what goes after all of it |
| AlertColumns.CreateColumns | internal/store/alerts.go:152-201 | a creation is stored iff its id is new and every alert of its tenant and key was triggered its cooldown before; the new row's columns |
| AlertColumns.StoredExactly | internal/store/alerts.go:152-201 | over every run an alert is in the table iff some such call created it, and it keeps what that call said |
| AlertColumns.StatusExactly | internal/store/alerts.go:203-369 | over every run an alert carries a time of resolution iff its cluster was evaluated with another health then while it was open, a time of acknowledgement iff somebody with access acknowledged it then while firing, and its status says which |
| AlertColumns.AcknowledgeAnswers | internal/store/alerts.go:328-369 | the three answers and the one row that changes |
| AlertColumns.DeliveryStamps | internal/store/alerts.go:421-476 | in every reachable table the delivery times are those of the last send, and a pending alert is due from its creation |
| AlertEvaluation.EvaluationExactly | internal/alerts/manager.go:88-125 | for every table and all rules: open alerts of the cluster with another health are resolved, no other row changes, and a rule has a new alert iff it is enabled, for this health and cooled down, with these columns |
| AlertCompletion.EveryAlertCompletes | internal/alerts/manager.go:160-214 | from every reachable state an alert that keeps being served by completed rounds at or after its next delivery is delivered or dead-lettered after as many servings as attempts are left, and is sent at most as often as the hub attempts |
| AlertCompletion.RoundsExist | internal/alerts/manager.go:160-175 | an idle worker can complete a round at any time, whatever the webhook answers |
| AlertProgress.TrafficRun | internal/store/alerts.go:385-476 | over every run of sends and other store calls the due alerts that are not on the worker's list stay the same |
| AlertProgress.RoundOverRun | internal/alerts/manager.go:160-175 | a round whose query and sends interleave with other store calls removes exactly min(25, n) of the n due alerts |
| AlertProgress.BacklogDrainsOverRun | internal/alerts/manager.go:160-175 | after r such rounds over one running system n - min(n, 25r) alerts of a backlog are left |
| AlertManager.Manager.LastTriggered | internal/store/alerts.go:152-175 | the latest trigger time of the tenant and key, or none |
| AlertManager.Manager.CreateAlertIfDue | internal/store/alerts.go:152-201 | an alert is stored iff the cooldown does not suppress it |
| AlertManager.Manager.ListDueAlertDeliveries | internal/store/alerts.go:385-419 | the earliest due rows in order, at most the limit |
| AlertManager.Manager.Deliver | internal/alerts/manager.go:177-214 | one send: the row becomes delivered, retrying with the next time, or dead-lettered |
| AlertManager.Manager.ProcessDue | internal/alerts/manager.go:160-175 | the listed rows are sent in order until the context is cancelled; a call that is not cancelled is one round over the due list for every clock and every webhook |
| AlertManager.Manager.ResolveClusterAlerts | internal/store/alerts.go:203-222 | the row-by-row update is the resolve step: exactly the open alerts of the cluster with another health are resolved |
| AlertManager.Manager.Evaluate | internal/alerts/manager.go:88-141 | the loop over the rules is the run of store calls that the theorems are about |
| AlertManager.EvaluationHasNoOverlap | internal/alerts/manager.go:88-141 | the store calls of one Evaluate are an evaluation that nothing overlaps |
| AlertManager.Manager.AcknowledgeAlert | internal/store/alerts.go:328-369 | only firing alerts of the tenant change; the error cases leave the table alone |
| Timeline.DedupeInvariant | internal/store/sqlite.go:1003-1031 | in every reachable table a dedupe key occurs once per cluster and kind |
| Timeline.RowsAreImmutable | internal/store/sqlite.go:1003-1031 | ids are never reused and rows never change |
| Timeline.WalkDescends | internal/store/sqlite.go:1033-1107 | following the cursor over a changing table with any limits yields strictly descending ids, so none twice |
| Timeline.WalkComplete | internal/store/sqlite.go:1033-1107 | a finished walk has returned every matching event that was there throughout |
| Timeline.FixedTableWalk | internal/store/sqlite.go:1033-1107 | on a fixed table a walk has at most n + 1 pages and returns the whole filtered table |
| Timeline.DescendingIsUnique | internal/store/sqlite.go:1033-1107 | order and contents determine the list, so that result is the sorted table |
| Timeline.StoreWalkComplete | internal/store/sqlite.go:1033-1107 | between pages the store may append and prune as it likes, whole prunes at a time: a finished walk has every matching event that was there throughout, with no assumption on the cursors after the first page |
| Timeline.FollowDescends | internal/store/sqlite.go:1033-1107 | over every run of the store, lost cursors and single batches included, the walk descends strictly |
| Timeline.CompletedPruneLosesNothing | internal/store/sqlite.go:1070-1084 | when a completed prune removed the cursor row nothing is left below it, so the empty page is right |
| Timeline.LostCursor | internal/store/sqlite.go:1070-1084 | over every run of the store, single batches included, a finished walk is complete iff its last cursor row was found or nothing that was there throughout lies below it |
| Timeline.HalfDonePruneLosesRow | internal/store/sqlite.go:1114-1136 | a reachable walk that misses a row because a batch took the cursor row and left an older one |
| TimelineColumns.PageExactly | internal/store/sqlite.go:1033-1107 | a page holds events whose tenant, cluster and time the filter wants, newest first, as many as fit; it leaves out older ones only, for lack of room, which the cursor tells; a lost or foreign cursor gets the empty page |
| TimelineColumns.WalkColumns | internal/store/sqlite.go:1033-1107 | whatever the store does between the pages, a walk lists wanted events only, each older than the one before |
| TimelineColumns.FinishedWalkExactly | internal/store/sqlite.go:1033-1107 | with appends and completed prunes between its pages a finished walk lists, of the events there throughout, exactly the wanted ones |
| TimelineColumns.StoredExactly | internal/store/sqlite.go:1003-1031 | over every run a row is in the table iff its event was appended when none of its cluster and kind had its key, and no prune took it since |
| TimelineColumns.BatchColumns | internal/store/sqlite.go:1114-1136 | a batch deletes expired rows only, at most 500, and all of them if fewer |
| Timeline.EventStore.AppendEvent | internal/store/sqlite.go:1003-1031 | an event is inserted iff no row has its cluster, kind and key |
| Timeline.EventStore.ListTimelineEvents | internal/store/sqlite.go:1033-1107 | one page: the newest matching rows below the cursor, and a cursor iff more remain |
| Timeline.EventStore.PruneEventsBefore | internal/store/sqlite.go:1114-1136 | whatever other requests append between the batches, the call is a run of appends and legal batches, the count is the number removed, also on failure, and success leaves no expired row |
| Timeline.PruneLeavesUnexpired | internal/store/sqlite.go:1114-1136 | after such a call exactly the unexpired of the rows present at its start are there; undisturbed, it equals one unbounded delete |
| Pruning.Prune | internal/store/sqlite.go:1114-1136 | for any table and any choice of rows per batch the loop ends with exactly the unexpired rows |
| Pruning.InterleavedPrune | internal/store/sqlite.go:1109-1136 | with any statements of other requests between the batches: once a batch comes back short no expired row is left, and of the rows nobody else touched exactly the unexpired ones are there |
| HealthHistory.TransitionHistory | internal/server/events.go:47-66 | over every run at increasing times the recorded transitions of a cluster lead from unknown to its current health without a gap |
| HealthHistory.OutageHistory | internal/server/events.go:47-86 | its disconnects and reconnects alternate, starting with a disconnect; the last is a disconnect iff it is unreachable now |
| HealthColumns.HealthExactly | internal/server/handlers_agents.go:416-449 | over every run a cluster has the health that the last report, deregistration, timeout or creation says |
| HealthColumns.HeartbeatExactly | internal/server/handlers_agents.go:41-78 | over every run its last heartbeat is the time of its agent's last call |
| HealthColumns.StepWrites | internal/server/events.go:47-86 | every step appends exactly these events, in order, and only a prune takes any away |
| HistoryGaps.PrunedRunHistories | internal/store/sqlite.go:1114-1136 | over every run at increasing times with completed prunes in between, what is left of both histories is gapless and ends at the current health |
| HistoryGaps.GapsExactly | internal/server/events.go:47-86 | deleting any events of an unbroken history leaves it gapless iff each block of deleted events that an older event survives leads back to where it starts |
| HistoryGaps.HalfDonePruneExactly | internal/store/sqlite.go:1109-1136 | the same for any rows deleted from the table after any run at increasing times |
| HistoryGaps.OldestFirstLeavesNoGap | internal/store/sqlite.go:1117-1123 | deleting the oldest events of a cluster's history leaves no gap |
| HistoryGaps.CancellingEventsLeaveNoGap | internal/store/sqlite.go:1117-1123 | that is not necessary: two events in the middle whose changes cancel may be deleted as well |
| HistoryGaps.HalfDonePruneLeavesGap | internal/store/sqlite.go:1117-1123 | a run of 501 heartbeats after which one legal batch leaves a history of changes with a gap |
| HistoryDuplicates.ReportedExactly | internal/server/events.go:47-66 | without clock assumptions a report continues the history of changes, and that of outages, iff its event is not taken for a duplicate |
| HistoryDuplicates.LostExactly | internal/server/events.go:68-86 | a deregistration or timeout continues the history of changes iff its transition is no duplicate, and that of outages iff its disconnect is none |
| HistoryDuplicates.StepExactly | internal/server/events.go:47-86 | every step, sweeps over many clusters included, continues a history iff it drops no event of it |
| HistoryDuplicates.RunExactly | internal/server/events.go:47-86 | over every run at any times, a history is unbroken after every step iff no step met its own event in the table already |
| HistoryDuplicates.SerialDropsNothing | internal/server/events.go:58-65 | at strictly increasing times no event is dropped |
| HistoryDuplicates.StalledClock | internal/server/events.go:58-65 | from any state before this reading in which the cluster is healthy, three changes within one clock reading break the history of changes |
| HistoryDuplicates.StalledOutage | internal/server/events.go:77-85 | from any such state, lost, back and lost again within one clock reading breaks the history of outages |
| HistoryDuplicates.StalledClockRun | internal/server/events.go:58-65 | a run of five handlers from the empty hub whose last transition is dropped |
| HistoryDuplicates.StalledOutageRun | internal/server/events.go:77-85 | a run of five handlers from the empty hub whose last disconnect is dropped |
| HealthHistory.MarkStaleExactly | internal/server/server.go:261-283 | a sweep makes exactly the stale clusters unreachable and keeps their heartbeat |
| HealthHistory.SweepSettles | internal/server/server.go:261-283 | after a sweep no reachable cluster is stale and sweeping again changes nothing |
| HealthServer.SnapshotHealth | internal/server/handlers_clusters.go:424-434 | healthy iff there are nodes and all are ready |
| HealthServer.Server.RecordHeartbeatTransition | internal/server/events.go:47-66 | a transition is recorded iff the health changed, as a reconnect iff it leaves unreachable |
| HealthServer.Server.HandleAgentLiveness | internal/server/handlers_agents.go:41-56 | refreshes the heartbeat and keeps the health |
| HealthServer.Server.HandleAgentDeregister | internal/server/handlers_agents.go:58-78 | the deregister step: unreachable, with events only if it was reachable |
| HealthServer.Server.HandleHeartbeat | internal/server/handlers_agents.go:416-449 | the heartbeat step |
| HealthServer.Server.HandleClusterSnapshot | internal/server/handlers_clusters.go:219-242 | the snapshot step |
| HealthServer.Server.MarkStaleClusters | internal/server/server.go:261-283 | the loop over the listed clusters is the sweep step |
| Policy.ModeIsUnique | internal/policy/engine.go:520-533 | the most frequent value with least-value tie-breaking is unique |
| Policy.ModeIgnoresOrder | internal/policy/engine.go:520-533 | the mode is the same for every permutation |
| Policy.SortKeyIsUnique | internal/policy/engine.go:122-138 | with unique cluster names and resource keys the final sort key tells all results apart |
| Policy.OrderIndependence | internal/policy/engine.go:94-140 | permuting clusters, deployments, pods, namespaces and namespace names read gives the identical result list, or the same failure |
| Policy.StaleNonInterference | internal/policy/engine.go:164-473 | without its stale clusters a fleet gets the same list minus the stale results, and fails iff it failed before |
| Policy.Coverage | internal/policy/engine.go:164-469 | under each of the seven policies a stale cluster has exactly one result, stale; a fresh one has exactly one per cluster or one per resource, none stale |
| Policy.NamespaceBaseline | internal/policy/engine.go:232-276 | when no name contains NUL, the namespace baseline is some fresh cluster's list and passing means having the same set |
| Policy.VersionVerdict | internal/policy/engine.go:164-200 | a fresh cluster's version is unknown iff it has no major and minor part, passes iff that part is the most frequent one with ties going to the least, and fails otherwise |
| Policy.SomeClusterPasses | internal/policy/engine.go:164-200 | when any fresh cluster reports a version, some fresh cluster passes |
| Policy.LabelVerdict | internal/policy/engine.go:202-230 | exactly the absent and blank required labels are named missing; passing means there are none |
| Policy.DriftVerdict | internal/policy/engine.go:324-349 | a deployment fails iff it has a hash, at least one peer, and another hash leads; it is unknown iff it has no hash or no peer |
| Policy.PodVerdict | internal/policy/engine.go:413-437 | a pod with a known context passes iff it breaks no rule, fails iff it breaks one, and the evidence names exactly the broken rules |
| PolicyVerdicts.FailsExactly | internal/policy/engine.go:94-121 | an evaluation fails iff something of a fresh cluster cannot be read |
| PolicyVerdicts.ReportIsSorted | internal/policy/engine.go:122-138 | the report is in the order of policy id, cluster name, namespace, kind and name |
| PolicyVerdicts.PolicyOrder | internal/policy/engine.go:122-138 | the order in which the ids put the seven policies |
| PolicyVerdicts.StringLessIs | internal/policy/engine.go:122-138 | the comparison of texts: a proper beginning, or smaller where they first differ |
| PolicyVerdicts.StaleVerdict | internal/policy/engine.go:471-503 | the report says of every cluster without a heartbeat within the threshold that it is stale, under every policy |
| PolicyVerdicts.AvailabilityVerdict | internal/policy/engine.go:353-372 | the report has one availability result for every deployment of a fresh cluster: pass iff desired, updated and available replicas are equal, with these numbers as evidence |
| PolicyVerdicts.NoDeploymentsVerdict | internal/policy/engine.go:318-328 | a fresh cluster without deployments is unknown under both workload policies |
| PolicyVerdicts.NamespaceSecurityVerdict | internal/policy/engine.go:440-468 | one result for every application namespace of a fresh cluster: pass iff it enforces baseline or restricted, with the label as evidence |
| PolicyVerdicts.PodSecurityVerdict | internal/policy/engine.go:391-437 | one result for every pod of an application namespace: unknown iff its context is not known, pass iff it keeps to the profile, with the names of the failed checks as evidence |
| PolicyVerdicts.NoApplicationsVerdict | internal/policy/engine.go:401-456 | without application pods or namespaces a fresh cluster is unknown |
| PolicyBaselines.VersionReported | internal/policy/engine.go:164-200 | one version result for every fresh cluster: unknown iff its version has no major and minor part, pass iff that part has most votes among the fresh clusters, with ties to the lesser text |
| PolicyBaselines.VersionLineIs | internal/policy/engine.go:511-518 | the major and minor part of any version with or without a leading v, white space around it and further parts |
| PolicyBaselines.LabelsReported | internal/policy/engine.go:202-230 | one label result for every fresh cluster: pass iff environment, owner and region are present and not blank, with the missing ones as evidence |
| PolicyBaselines.NamespacesReported | internal/policy/engine.go:232-276 | one namespace result for every fresh cluster that lists namespaces: pass iff they are those that most fresh clusters have |
| PolicyBaselines.NoNamespacesReported | internal/policy/engine.go:257-259 | a fresh cluster that lists no namespaces is unknown |
| PolicyBaselines.DriftReported | internal/policy/engine.go:324-349 | one drift result for every deployment of a fresh cluster: unknown without a hash or a peer, pass iff its hash has most votes among the fresh deployments of its namespace and name |
| PolicyEngine.Mode | internal/policy/engine.go:520-533 | the counting loop finds the mode |
| PolicyEngine.Difference | internal/policy/engine.go:542-554 | the values of the left list that are not in the right one, in order |
| PolicyEngine.PodViolations | internal/policy/engine.go:556-583 | the eight checks list the broken rules in order |
| PolicyEngine.EvaluateVersions | internal/policy/engine.go:164-200 | the two loops produce the version results against the mode of the fresh versions |
| PolicyEngine.EvaluateLabels | internal/policy/engine.go:202-230 | the label results |
| PolicyEngine.EvaluateNamespaces | internal/policy/engine.go:232-276 | the namespace results, or failure iff a fresh cluster cannot be read |
| PolicyEngine.GroupHashes | internal/policy/engine.go:284-306 | the map of hashes holds, under every key, the hashes of the fresh clusters' deployments in order |
| PolicyEngine.EvaluateWorkloads | internal/policy/engine.go:284-376 | the drift and availability results, or failure iff a fresh cluster cannot be read |
| PolicyEngine.EvaluateSecurity | internal/policy/engine.go:378-469 | the pod and namespace security results, or failure iff a fresh cluster cannot be read |
| PolicyEngine.Evaluate | internal/policy/engine.go:94-140 | the sorted results of all five evaluators, or failure |
| Identity.UpdateGuardIsExact | internal/store/sqlite.go:1258-1295 | an update is refused for the last admin iff it would leave no enabled admin |
| Identity.DeleteGuardIsExact | internal/store/sqlite.go:1258-1295 | a deletion is refused for the last admin iff it would leave no enabled admin |
| Identity.RunKeeps | internal/store/sqlite.go:1197-1305 | every sequence of operations keeps an enabled admin, unique names and addresses, and sessions of existing users only |
| Identity.RevokedStaysRevoked | internal/store/sqlite.go:1297-1329 | a token without a session has none until one is created for it |
| Identity.ResetRevokes | internal/store/sqlite.go:1225-1256 | after a reset no earlier session of that user answers at any time in any continuation; other users' sessions answer as before |
| Identity.PruningIsInvisible | internal/store/sqlite.go:1307-1351 | pruning, whole or one batch with other requests around it, changes an answer iff it deletes a session that was alive at the time asked, so never one for a later time |
| Access.UserCalls | internal/store/sqlite.go:1138-1295 | when each call on users succeeds, which error it gives otherwise, and the one row it changes |
| Access.AlwaysAnAdmin | internal/store/sqlite.go:1258-1295 | over every run there is a user with the admin role whose account is not disabled, once there was one |
| Access.AnswersExactly | internal/store/sqlite.go:1297-1351 | over every run a token answers with a user at a time iff a session of that user expiring later was created for it and has not been logged out, pruned after its expiry, or ended by deleting its user or resetting the password since |
| Access.PasswordExactly | internal/store/sqlite.go:1225-1256 | a user's password is that of the creation or of the last reset since |
| Access.RoleExactly | internal/store/sqlite.go:1197-1218 | a user's role and disabled flag are those of the creation or of the last accepted update since |
| Identity.UserStore.InsertUser | internal/store/sqlite.go:1138-1158 | conflicts and refused roles leave the table alone |
| Identity.UserStore.CountEnabledAdmins | internal/store/sqlite.go:1277-1283 | the number of enabled admins |
| Identity.UserStore.WithLastAdminGuard | internal/store/sqlite.go:1258-1295 | the guard's decision for update and delete |
| Identity.UserStore.ChangeUser | internal/store/sqlite.go:1197-1207 | the guarded update and its error cases |
| Identity.UserStore.RemoveUser | internal/store/sqlite.go:1209-1218 | the guarded delete with its cascade |
| Identity.UserStore.ResetPassword | internal/store/sqlite.go:1225-1256 | the new hash and the deleted sessions together, or nothing |
| Identity.UserStore.DeleteExpiredSessions | internal/store/sqlite.go:1331-1351 | the batches leave exactly the live sessions |
| Registration.AcceptedExactly | internal/server/handlers_agents.go:157-194 | in every reachable state a registration is accepted iff the name is free or the agent holds its current token; a refusal changes nothing |
| Registration.RegistrationAgrees | internal/agent/registrar/registrar.go:80-132 | while nothing is lost no registration is refused, and afterwards the agent holds the one token the hub validates, with the hub's approval |
| Registration.SupersededStaysDead | internal/store/sqlite.go:518-543 | a token a name no longer carries never validates again |
| Registration.RotationSupersedes | internal/server/handlers_agents.go:196-206 | an accepted registration supersedes the token it was proved with, for ever |
| Registration.ApprovalSurvives | internal/store/sqlite.go:518-551 | approval survives every rotation until the cluster is deleted |
| Registration.OneSignalPerRegistration | internal/agent/registrar/registrar.go:134-151 | between two registrations at most one heartbeat asks for a new one |
| Registration.OneSignalPerCluster | internal/agent/registrar/registrar.go:134-151 | over a whole run there is at most one such request per creation of the cluster |
| Registration.StrandedUntilDeleted | internal/server/handlers_agents.go:176-194 | an agent without the current token is refused in every continuation until the cluster is deleted |
| Registration.WhatStrands | internal/agent/registrar/registrar.go:65-132 | a lost answer always strands the agent, a restart iff it is registered |
| Approval.RegisteredExactly | internal/server/handlers_agents.go:157-194 | over every run a name is registered iff somebody asked for it since it was last deleted |
| Approval.ApprovedExactly | internal/store/sqlite.go:518-551 | over every run a name's token validates as approved iff the operator approved the name while it was registered and it was not deleted since |
| Approval.ApprovalAnswers | internal/store/sqlite.go:545-551 | after an approval the name's current token validates as approved and every other answer is as before |
| Approval.KnowsExactly | internal/agent/registrar/registrar.go:80-151 | over every run an agent takes itself for approved iff the hub told it so since it last had to forget it |
| Approval.SignalsExactly | internal/agent/registrar/registrar.go:134-151 | in every reachable state a heartbeat asks for a new registration iff the agent holds the current token, the name is approved and the agent has not been told |
| RegistrationPeers.HubServer.IssueAgentToken | internal/store/sqlite.go:518-530 | a new row is unapproved, an existing one keeps its approval |
| RegistrationPeers.HubServer.ApproveAgent | internal/store/sqlite.go:545-551 | the approval step; not found iff the name has no agent row |
| RegistrationPeers.HubServer.DeleteCluster | internal/store/sqlite.go:487-493 | the deletion step with its cascade to the agent row; not found iff the name is free |
| RegistrationPeers.HubServer.ValidExistingAgentToken | internal/server/handlers_agents.go:308-318 | valid iff a token was presented and it is the current one |
| RegistrationPeers.HubServer.HandleAgentRegister | internal/server/handlers_agents.go:157-228 | the handler is the hub's half of the registration step |
| RegistrationPeers.Registrar.Register | internal/agent/registrar/registrar.go:80-132 | hub and agent together take the registration step, heard or unheard |
| RegistrationPeers.Registrar.Heartbeat | internal/agent/registrar/registrar.go:138-151 | the agent takes the heartbeat step and reports exactly the modelled request |
| Broadcast.RunKeeps | internal/server/hub.go:58-146 | over every run in which clients register once: the count mirrors the set, channels are closed exactly once and never sent to afterwards, live clients got all they are owed |
| Broadcast.LiveClientsMissNothing | internal/server/hub.go:75-84 | what was placed for a live client is its tenant's updates since registration, in order and without gaps |
| Broadcast.DrainedClientHasAll | internal/server/hub.go:75-103 | a live client that has read everything has read every accepted update of its tenant since registration |
| Broadcast.TenantIsolation | internal/server/hub.go:76-78 | no client is given another tenant's update |
| Audience.LiveClientsGetTheirShare | internal/server/hub.go:75-95 | between two updates a live client has been given exactly those of its tenant since its registration, where an empty tenant is the default one |
| Audience.LiveExactly | internal/server/hub.go:58-95 | over every run a client is live iff it registered and since then neither asked to leave, nor was the loop ended, nor did an update of its tenant find 16 others unread |
| Audience.AcceptedExactly | internal/server/hub.go:97-103 | over every run the accepted updates are those published while fewer than 64 waited, and the loop takes them up in order |
| Audience.RequestsExactly | internal/server/hub.go:120-125 | a request to leave waits iff the loop runs and fewer than 64 wait, and is taken in its turn |
| Audience.ConnectsExactly | internal/server/hub.go:60-71 | clients connect once with nothing buffered, and the loop ends only when told to between updates |
| Audience.ReadExactly | internal/server/hub.go:79-80 | a receive takes the oldest unread update, and nothing else does |
| Audience.LoopDrains | internal/server/hub.go:58-84 | from every reachable state of the running loop its own steps lead to one in which all accepted updates have been taken up and visited |
| BroadcastLoop.BroadcastHub.AddClient | internal/server/hub.go:68-71 | the registration step |
| BroadcastLoop.ReachableIsSound | internal/server/hub.go:58-146 | every reachable state satisfies the invariant that the class's methods require and keep |
| BroadcastLoop.BroadcastHub.HandleUnregister | internal/server/hub.go:72-73 | the unregistration step |
| BroadcastLoop.BroadcastHub.RemoveClient | internal/server/hub.go:133-146 | the removal step, a no-op for clients that are not in the map |
| BroadcastLoop.BroadcastHub.Publish | internal/server/hub.go:97-103 | an update is queued iff the queue has room |
| BroadcastLoop.BroadcastHub.HandleUpdate | internal/server/hub.go:74-84 | the iteration visits every live client exactly once, in any order, whatever the clients read meanwhile |
| BroadcastLoop.BroadcastHub.ReadClient | internal/server/hub.go:79-80 | a client's receive takes the oldest buffered update |
| BroadcastLoop.BroadcastHub.HandleCancel | internal/server/hub.go:63-67 | every client is removed and the loop is over |

## Left out

- LogDelivery.WholeLogArrives: frames travel in order and unchanged, and the streamer's promise about the lines it emits is taken from its own module.
- Alerts.DeliveryOutcome: store calls succeed.
- Alerts.DeliveryInvariant: one delivery worker and a fixed maximum of attempts.
- AlertCompletion.EveryAlertCompletes: while an alert is served, other calls create no alert with a trigger time at or before its next delivery.
- PolicyBaselines.NamespacesReported: namespace names are not empty and hold no NUL, which Kubernetes guarantees.
- PolicyBaselines.DriftReported: names of deployments and their namespaces hold no NUL.
- PolicyVerdicts.AvailabilityVerdict: like the other verdicts on the report, for fleets whose clusters have distinct names and whose resources have distinct keys, as the tables guarantee.
- HealthHistory.TransitionHistory: handlers run one after the other, and their store writes succeed.
- Registration.RegistrationAgrees: one agent per cluster name, one tenant, no failed writes; clusters that an operator registers by hand are not part of this model.
- Broadcast.RunKeeps: only the loop's own sends; the initial snapshot that the WebSocket handler pushes itself is not modelled.
- BroadcastLoop.BroadcastHub.AddClient: requires that the client was not registered before, as every caller of the loop ensures.
- Identity.UserStore.DeleteExpiredSessions: no other request runs between its batches; `Pruning.InterleavedPrune` and the single-batch steps of `Identity.RunKeeps` and `Identity.PruningIsInvisible` cover that.
- Timeline.WalkComplete: assumes that each cursor row is still there when it is used; `Timeline.StoreWalkComplete` does without that over the store's own runs.
- LogDelivery.EndedStreamParses: leaves over-long parts open; `LogDelivery.WholeLogArrives` shows that the streamer's lines have none.
- HistoryGaps.PrunedRunHistories: prunes run as a whole between handlers; `HistoryGaps.HalfDonePruneExactly` covers the half-done ones.
- Policy.OrderIndependence: which read error is reported does depend on the order; the model only says that there is one.
- TrimSpace handles the ASCII white space characters; JSON, SQL, HTTP, timestamps as text and hashing are not modelled, and characters stand for bytes.
- The duration arithmetic of staleness checks is unbounded; Go saturates it after 292 years.
- The exact payload text of an SSE error event is modelled by a simple escaping function.
- ActiveStreams, ConnectedAgents, CountDeadLetteredAlerts, Summarize and policy severities: counters and constants that would only add easy members.
- Kubernetes collection, the agent's jittered backoff, the webhook's receiver and signature, metrics, configuration, the MCP tools, the CLI and the browser clients.
- The audit log and the settings table.
