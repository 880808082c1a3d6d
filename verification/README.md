# Timers, subscriptions, event streams, frames and replies, verified

This project models the parts of a Go transport and broker toolkit that carry logic of
their own, and proves what they promise over every input, every interleaving and every
run. `dafny verify dfyconfig.toml` checks all of it.

| file | models |
|---|---|
| `TimerTask.dfy`, `TimerHeap.dfy`, `TimerEngine.dfy` | the high precision timer: tasks and their contexts, the binary heap, and the critical sections of the engine |
| `TimerRuns.dfy`, `TimerGuarantees.dfy`, `TimerReach.dfy`, `TimerStops.dfy` | whole runs of the engine: the step system and its invariants, what holds over every run, which runs it can take, and what stopping it is worth |
| `Lifecycle.dfy`, `LifecycleRuns.dfy` | starting, stopping and registering subscribers on a message queue server |
| `SseWire.dfy`, `SseExact.dfy`, `SseClient.dfy` | server-sent events: the text on the wire, which events it can carry, and the client's read loop (sections 9.2.4 to 9.2.6 of the WHATWG HTML Living Standard) |
| `SseLog.dfy`, `SseHub.dfy`, `SseResume.dfy` | the bounded log, the hub of a stream, and the protocol by which a client resumes |
| `SseCuts.dfy`, `SseSession.dfy` | streams that break off inside an event, and whole sessions over the wire in which connections break anywhere |
| `KcpFrames.dfy` | length-prefixed frames and the packet inside a frame |
| `RequestReply.dfy` | request and reply over publish/subscribe |
| `KafkaConsumer.dfy`, `KafkaHeaders.dfy` | the batching consumer loop, its backoff, and the header list |

## How the model is built

Code that changes state is modelled in two layers. A class with the source's fields has a
method for each operation, with the source's branches and loops, and each method is proved
equal to a function on the abstract state. The hard properties are proved about those
functions. For the timer the two layers are the class `HighPrecisionTimer`, which works on
a heap and an index, and the state `Core`, whose queue is only a map of pending tasks; the
step system in `TimerRuns.dfy` is built from the same functions, so the run properties
speak of what the methods do.

Code that runs concurrently is modelled as a step system in which each critical section,
each atomic access and each blocking operation is a step, and any enabled step may come
next. Invariants are small named predicates; one lemma per predicate shows that every step
keeps it, and an induction over the run follows. The predicates named `Reachable` quantify over every
initial state and every finite run.

The clock, cron expressions, random jitter, identifiers, what a broker or a connection
answers and how the scheduler interleaves are all inputs chosen freely. The clock never
goes back, and new identifiers are fresh (increasing for events).

## What the proofs show about the code

Several promises hold only under a condition, and the project states which.

- **Which tasks `Stop` reaches.** A comment in `NewTimerTask` says that a context replaced
  by an option still gets a cancel function. The guard for this tests `cancel == nil`, which is never
  true, because the default context has set `cancel` already. `NewTaskControlled` shows
  that the task's cancel reaches its context exactly when no option assigned a foreign
  context last, and `StopIsFinalForBuilt` that `Stop` is then final. In general a task that
  is pending after `Stop` is shown in some later run exactly when its context is still
  alive (`StopIsFinalExactly`), and `ForeignTaskPends` gives a run that gets there.
- **Cancelling a task.** A context cancelled after the loop has looked at it and before the
  observer is called does not stop the call; at any other time before the call it does
  (`CancelledExactly`).
- **Payload of repeated tasks.** The copy queued for a repetition has no `Data`
  (`RepeatDropsData`).
- **Firing order.** The loop takes tasks in order, and between two insertions the observer
  sees them in order. A task inserted between a dequeue and its notification starts a new
  stretch.
- **Failed subscriptions.** After a run has settled, the topics on record are exactly those
  registered and not lost, and a topic is lost when its `Subscribe` fails while it is not on
  record, until it is registered again (`NoForgottenRegistration`, `LostForGood`). A failure
  while `Start` replays its table is such a loss (`ForgottenRegistrationExists`).
- **Events that do not survive.** An event with data comes back whole exactly when its id,
  event name and retry time have no line break, its data no carriage return and, if the
  server does not split data at newlines, its data is one line that does not start with a
  colon (`SurvivesExactly`).
- **Events that nobody sent.** The client fills in the last identifier before it asks
  whether an event has content. So a comment, or a blank line left over when the stream
  ends, is handed on as an event with nothing but that identifier. `StreamIsHandedOn` says
  what the handler gets of any stream, and `OnlyDataExactly` when that is exactly the events
  with data.
- **A stream that breaks off.** The reader hands out what is left at the end of the stream
  as a block. The part of an event that arrived is taken for an event; it equals the event
  exactly from a threshold on (`CutExactly`), and the resumed stream delivers exactly what
  was still to come only for the cuts that `HarmlessExactly` names. A cut after the id loses
  the rest of the event for good (`CutLosesTheRest`); a cut inside the id makes the client
  resume from part of it, which can send earlier events again (`CutInIdRepeats`). Over whole
  sessions, what the handler got is a prefix of the history exactly when every connection
  broke at a clean place (`GapFreeExactly`), and `HarmExists` gives a session in which one
  did not.
- **Replies.** A request sent to its own reply topic can be handed back as its own reply
  (`SelfAddressedRequest`), and on a shared reply topic with a driver that drops headers
  any message on the topic can be (`SharedLossyTopicCrosses`); `SelfAnswerExists` and
  `CrossedReplyExists` give runs in which this happens.
- **Failed messages.** A message whose handler failed counts as acknowledged exactly when a
  later message of its partition succeeds (`AcknowledgedExactly`).
- **Backoff.** The comment on the jitter says `[d/2, d)`, but the code can sleep for `d`.
  With large limits the 64-bit shift wraps, and a later attempt may wait less than an
  earlier one (`OverflowShrinksDelay`); `NominalIsIdeal` says exactly when the delay is
  the intended one. Under the default limits, which every subscriber gets, it always is.

## Model

| member | source | states |
|---|---|---|
| `TimerTasks.NewTimerTask` | transport/hptimer/timer_task.go:87-114 | the loop over options and the patches after it build the task that `Configured` describes, using one fresh context identity per derivation |
| `TimerTasks.ConfiguredContext` | transport/hptimer/timer_task.go:76-114 | for every option list, the task has a cancel of its own; it lies in the lineage of the context unless the last context option assigned a foreign one, whose lineage is older than the call |
| `TimerTasks.ConfiguredContextIs` | transport/hptimer/timer_task.go:76-114 | the context is the one derived from the last given parent, or the one last assigned, or one of the task's own; the cancel is that of the last one derived |
| `TimerTasks.ConfiguredSchedule` | transport/hptimer/timer_task.go:41-52 | interval and cron expression are those of the last option that sets them, or none |
| `TimerTasks.ConfiguredPayload` | transport/hptimer/timer_task.go:55-73 | data, callback and priority are those of the last option that sets them, or none, none and low |
| `TimerTasks.DoneExactly` | transport/hptimer/timer_task.go:76-83 | a derived context has ended if and only if it or a context above it was cancelled |
| `TimerTasks.NewTaskControlled` | transport/hptimer/timer_task.go:87-114 | after `AddTask` has filled in a missing context, cancelling the task ends its context if and only if no option assigned a foreign context last |
| `TimerHeaps.SiftUpCorrect` | transport/hptimer/timer_heap.go:6-14 | sifting up restores the order by time and priority, keeps the contents, and puts the smaller of the moved entry and the old root at the root |
| `TimerHeaps.SiftDownKeeps` | transport/hptimer/timer_heap.go:6-14 | sifting down permutes the entries and touches nothing above the start or past the end |
| `TimerHeaps.SiftDownOrders` | transport/hptimer/timer_heap.go:6-14 | sifting down leaves at most the start entry out of order with its parent, and not even that when something moved |
| `TimerHeaps.PushedCorrect` | transport/hptimer/timer_heap.go:16-18 | a push keeps the heap order, adds exactly the new task, and the new task is the root exactly when it precedes the old root |
| `TimerHeaps.RootLastCorrect` | transport/hptimer/timer_heap.go:20-26 | what a pop returns is the old root, and the rest is a heap with the remaining contents |
| `TimerHeaps.EntryLastCorrect` | transport/hptimer/high_precision_timer.go:196-205 | removal at an arbitrary index takes out exactly that entry and leaves a heap of the others |
| `TimerHeaps.RootPrecedesAll` | transport/hptimer/timer_heap.go:7-13 | every entry of a heap has a later time than the root, or the same time and a priority number no smaller |
| `TimerHeaps.TimerHeap.Push` | transport/hptimer/timer_heap.go:16-18 | appends and sifts up in place, giving the heap of `PushedCorrect` |
| `TimerHeaps.TimerHeap.Pop` | transport/hptimer/timer_heap.go:20-26 | swaps, sifts down in place and drops the last entry, as in `RootLastCorrect` |
| `TimerHeaps.TimerHeap.RemoveAt` | transport/hptimer/high_precision_timer.go:196-205 | removal at an index in place, as in `EntryLastCorrect` |
| `TimerEngine.HighPrecisionTimer.AddTask` | transport/hptimer/high_precision_timer.go:123-178 | implements the abstract insertion: which tasks are rejected and with what result, the cron deadline, the fresh context, and a wakeup exactly when the new task precedes everything pending; heap and index keep agreeing |
| `TimerEngine.HighPrecisionTimer.RemoveTask` | transport/hptimer/high_precision_timer.go:181-210 | true exactly for a pending task of a running engine, which is cancelled and taken out of heap and index; otherwise nothing changes |
| `TimerEngine.HighPrecisionTimer.DequeueById` | transport/hptimer/high_precision_timer.go:196-205 | the scan finds the task, and the heap loses exactly what the index loses |
| `TimerEngine.HighPrecisionTimer.Section` | transport/hptimer/high_precision_timer.go:217-271 | one pass of the loop under the lock exits, naps, takes a due task that nothing pending precedes, or arms the timer for the earliest one |
| `TimerEngine.HighPrecisionTimer.Start` | transport/hptimer/high_precision_timer.go:68-88 | starts a stopped engine with a fresh context and leaves a running one alone |
| `TimerEngine.HighPrecisionTimer.StopSection` | transport/hptimer/high_precision_timer.go:91-119 | stops the timer and cancels every pending task that has a cancel; pending tasks stay queued |
| `TimerEngine.RepresentsEach` | transport/hptimer/high_precision_timer.go:158-166 | the heap holds exactly the values of the task index |
| `TimerEngine.EachIdOnce` | transport/hptimer/high_precision_timer.go:158-166 | no identifier is in the heap twice |
| `TimerRuns.InvStep` | transport/hptimer/high_precision_timer.go:68-329 | every step of every party keeps all eleven invariants of the engine |
| `TimerRuns.ReachableInv` | transport/hptimer/high_precision_timer.go:68-329 | the invariants hold in every reachable state |
| `TimerGuarantees.AcceptedExactly` | transport/hptimer/high_precision_timer.go:123-178 | in every reachable state `AddTask` inserts a task if and only if the engine runs, the identifier is non-empty and new, and a time is given or found by cron; it goes in with every field the caller set, and with a context of its own if it had none |
| `TimerGuarantees.WakeupExactly` | transport/hptimer/high_precision_timer.go:170-175 | `AddTask` buffers a wakeup if and only if it inserted a task that goes before everything pending and a timer exists |
| `TimerGuarantees.RemovedExactly` | transport/hptimer/high_precision_timer.go:181-210 | `RemoveTask` takes out and cancels a pending task of a running engine, and changes nothing otherwise |
| `TimerGuarantees.DecidesExactly` | transport/hptimer/high_precision_timer.go:217-271 | what a pass may decide, as an if and only if on the pending tasks' times and priorities and the clock |
| `TimerGuarantees.StopCancelsExactly` | transport/hptimer/high_precision_timer.go:91-119 | `Stop` cancels exactly what the pending tasks' cancel functions cancel, stops the timer and keeps the queue |
| `TimerGuarantees.NoLostWakeup` | transport/hptimer/high_precision_timer.go:164-290 | in every interleaving a parked loop is due no later than every pending task, or a wakeup is buffered |
| `TimerGuarantees.DueTaskIsTaken` | transport/hptimer/high_precision_timer.go:226-290 | once a pending task is due, a parked loop can wake at once and its next section takes a due task |
| `TimerGuarantees.NeverStuck` | transport/hptimer/high_precision_timer.go:181-329 | no caller is refused a step, and the loop has one at every point except its timed waits |
| `TimerReach.PendingCanBeShown` | transport/hptimer/high_precision_timer.go:213-292 | whatever the loop of a running engine is doing, every pending task with a live context can still be shown |
| `TimerReach.StopComesBack` | transport/hptimer/high_precision_timer.go:91-119 | whatever the loop is doing when `Stop` waits for it, the loop can end and `Stop` return, with the queue kept |
| `TimerGuarantees.HistoryGrows` | transport/hptimer/high_precision_timer.go:123-263 | along every run insertions, dequeues and notifications are only added, and an instance only moves from pending or in hand to a final fate |
| `TimerGuarantees.Conservation` | transport/hptimer/high_precision_timer.go:123-263 | an accepted insertion has one fate; it is pending exactly when the queue holds it, triggered exactly when the observer saw it, and the observer sees it at most once |
| `TimerGuarantees.RemovedIsNeverTriggered` | transport/hptimer/high_precision_timer.go:181-263 | after `RemoveTask` returned true, no run shows that insertion to the observer |
| `TimerGuarantees.FiringOrder` | transport/hptimer/high_precision_timer.go:236-258 | what the observer sees was due at the loop's reading and readings never go back; of two tasks shown with no insertion between their dequeues, the first has the earlier time, or the same time and a priority number no larger, and so it has against everything pending until the next insertion |
| `TimerGuarantees.RepeatsExactly` | transport/hptimer/high_precision_timer.go:295-329 | a shown task of a running engine is queued again if and only if its context is alive and it has an interval, or a cron expression with a next time; at the reading plus the interval or at that time, with everything but its data, as a continuation of that dequeue |
| `TimerGuarantees.RepetitionIsSpaced` | transport/hptimer/high_precision_timer.go:295-328 | by induction along the chain of copies, `n` repetitions advance deadline and reading by at least `n` intervals |
| `TimerGuarantees.IntervalSpacing` | transport/hptimer/high_precision_timer.go:236-328 | the same for every chain in every reachable state, whatever the scheduling delays |
| `TimerStops.CancelledIsNeverTriggered` | transport/hptimer/high_precision_timer.go:246-258 | a task whose context is cancelled, not yet shown and not already past the loop's look at its context, stays so in every run |
| `TimerStops.CancelledExactly` | transport/hptimer/high_precision_timer.go:246-258 | a cancelled, unshown task is shown in some run if and only if the loop had already found its context alive |
| `TimerStops.StopIsFinal` | transport/hptimer/high_precision_timer.go:91-119 | a task pending while the engine is stopped, whose cancel reaches its context, is never shown to the observer, restarts included |
| `TimerStops.StopIsFinalExactly` | transport/hptimer/high_precision_timer.go:91-119 | any task pending after `Stop` returned, wherever it stands in the queue, is shown in some later run if and only if its context is alive |
| `TimerReach.TaskComesUp` | transport/hptimer/high_precision_timer.go:236-263 | a due task with a live context can be shown: the loop works off what precedes it, and repetitions of that are not due again |
| `TimerStops.StopIsFinalForBuilt` | transport/hptimer/timer_task.go:87-114 | if every added task came from `NewTimerTask` with no foreign context assigned last, nothing pending in a stopped engine, repetitions included, is ever shown |
| `TimerStops.ForeignTaskPends` | transport/hptimer/timer_task.go:104-111 | a run that leaves a stopped engine with a pending task whose foreign context `Stop` did not end |
| `TimerStops.NoRequeueAfterStop` | transport/hptimer/high_precision_timer.go:132-135 | a task in the loop's hands when `Stop` took the lock (taken, about to be shown, in its callback or about to be repeated) is never queued again by it |
| `Lifecycle.OwnerStep` | transport/kafka/server.go:72-285 | every step moves a live subscription from one owner to one owner |
| `Lifecycle.ReachableInv` | transport/kafka/server.go:72-285 | ownership, lock, flag, remembered topics and table invariants hold in every interleaving |
| `LifecycleRuns.NoLeakedSubscription` | transport/kafka/server.go:119-268 | each live subscription has exactly one owner: the subscriber table, one registration in progress, or the table `Stop` is draining |
| `LifecycleRuns.SettledOwnership` | transport/kafka/server.go:119-268 | with nothing in progress, a stopped server has no live subscription and a started one has none outside its table |
| `LifecycleRuns.NoForgottenRegistration` | transport/kafka/server.go:72-285 | with nothing in progress, the topics on record are exactly those registered and not lost to a failed subscription, each with a registration that was made for it; a started server is subscribed to all of them and to nothing unregistered |
| `LifecycleRuns.EverySubscribeSucceeds` | transport/kafka/server.go:72-285 | in a run in which every subscription succeeds, a settled, started server is subscribed to exactly the topics ever registered |
| `LifecycleRuns.RefusedExactly` | transport/kafka/server.go:72-117 | a start of a server that is not running is refused if and only if the last start failed, in connecting or in its replay, and no stop has come back since |
| `LifecycleRuns.StopAllowsStart` | transport/kafka/server.go:119-156 | in every reachable state in which `Stop` returns, the next start is not refused |
| `LifecycleRuns.StartBringsBack` | transport/kafka/server.go:72-117 | a settled, stopped server whose start is not refused can start and settle again, subscribed to exactly the topics on record |
| `LifecycleRuns.StopBringsDown` | transport/kafka/server.go:119-156 | a settled, started server can stop and settle, keeps its record, and can be started again |
| `LifecycleRuns.LostForGood` | transport/kafka/server.go:97-117 | a topic lost when the server settled is on record in no later state, whatever restarts follow, unless it is registered again |
| `LifecycleRuns.ForgottenRegistrationExists` | transport/kafka/server.go:270-285 | a run that ends settled and started with a registered topic that the server no longer knows |
| `SseWire.Serve` | transport/sse/http.go:96-139 | the loop over events writes the text `Wire` describes and stops at an event whose fields are all empty |
| `SseWire.WriteEvent` | transport/sse/http.go:107-136 | field by field, the text of one event: split data, colon data, and optional fields only when present |
| `SseWire.ProcessEvent` | transport/sse/client.go:295-330 | the loop over lines computes what `Parse` folds, with an error for an empty block |
| `SseWire.BlockEnds` | transport/sse/utils.go:17-44 | among the five separators, the first one after printed lines is the blank line written there, whatever follows |
| `SseWire.FirstSeparatorExactly` | transport/sse/utils.go:17-44 | the boundary found is the first place where any of the five separators stands, with that separator's length |
| `SseWire.NoSpaceAfterColon` | transport/sse/client.go:342-355 | a field value may follow the colon directly, and only one leading space is dropped |
| `SseExact.LinesOnTheWire` | transport/sse/http.go:107-136 | the lines of a printed event, literally and in order: id, one data line for each part, event and retry if any, comment if any |
| `SseExact.StreamEndsExactly` | transport/sse/http.go:96-101 | nothing is written from an event on if and only if all its fields are empty |
| `SseWire.FieldsOfLines` | transport/sse/client.go:302 | the lines found in a block are exactly the lines printed |
| `SseWire.LinesSurvive` | transport/sse/client.go:295-355 | parsing the printed lines gives every field back |
| `SseWire.OneEventSurvives` | transport/sse/http.go:107-136 | a printed event is one block whatever follows it, and that block parses to the event |
| `SseWire.RoundTrip` | transport/sse/client.go:295-355 | for any sequence of printable events, splitting and parsing the whole output gives the same id, data, event and retry in order, and then whatever the rest parses to |
| `SseExact.SurvivesExactly` | transport/sse/http.go:107-136 | in either mode, an event with data and a one-line comment comes back whole if and only if it is printable: no line break in id, event and retry, no carriage return in the data and, without splitting, data of one line that does not start with a colon |
| `SseWire.BoundaryIsStable` | transport/sse/utils.go:17-31 | more input never moves or resizes a block boundary that is already there, for any mix of line breaks |
| `SseWire.CutFirstBlock` | transport/sse/event.go:93-105 | cutting a block off what has arrived cuts the same block off the whole stream |
| `SseWire.EventStreamReader.ReadEvent` | transport/sse/event.go:93-126 | however the stream is chunked, each read returns the next block of the whole stream, and reports the end exactly when nothing is left |
| `SseClient.Client.ReadLoop` | transport/sse/client.go:197-231 | for any chunking, the loop hands on and stores as last id what `Looped` computes from the blocks |
| `SseClient.StreamIsHandedOn` | transport/sse/client.go:197-231 | for any mix of events with data, comments and events with neither, what the handler gets and the last id are those of a fold over the events: ids filled in, an id-only event for a comment or a leftover blank line once an id is known, pairs of blank lines swallowed |
| `SseClient.OnlyDataExactly` | transport/sse/client.go:218-229 | the handler gets exactly the events with data if and only if no comment came while an id was known and no odd number of blank events ended the stream then |
| `SseClient.OneTooMany` | transport/sse/client.go:218-229 | after an event with an id, a comment, or a retry time alone at the end of the stream, reaches the handler as one more event with that id and nothing else |
| `SseCuts.CutStream` | transport/sse/event.go:93-105 | a stream cut inside an event delivers the complete events and one block more; cut between events, exactly those |
| `SseCuts.CutExactly` | transport/sse/client.go:295-330 | in either mode, an event cut off after `k` characters parses to the whole event if and only if `k` reaches the end of its last line before the comment, or of the name of a last data line that carries nothing |
| `SseCuts.CutId` | transport/sse/client.go:295-330 | the id of a cut event is the part of it that was sent |
| `SseCuts.DataCut` | transport/sse/client.go:302-309 | a prefix of the data lines adds all the data from the threshold on and strictly less before it |
| `SseCuts.TruncatedDataIsAccepted` | transport/sse/event.go:101-103 | in either mode, any non-empty beginning of the data can arrive as a complete event under the same id |
| `SseCuts.ResumesWith` | transport/sse/client.go:218-224 | after a cut the client resumes with the part of the event's id that arrived, or with the id before if none did |
| `SseCuts.HarmlessExactly` | transport/sse/client.go:197-231 | what is handed on and then replayed is exactly what was still to come if and only if all arrived up to the threshold and the log reaches back to the event after it, or nothing arrived, or no more than the id label at a client without an id, and the log reaches back to the event itself |
| `SseCuts.CutLosesTheRest` | transport/sse/event_log.go:34-40 | after a cut behind the id, replay starts after that event, or with the oldest one logged if that is later |
| `SseCuts.CutInIdRepeats` | transport/sse/event_log.go:34-40 | after a cut inside the id, replay sends exactly what was still to come if and only if the event is the oldest one logged, or is logged and the one before does not lie above the part that arrived; otherwise it starts earlier, or at the start of the log |
| `SseLog.EventLog.Add` | transport/sse/event_log.go:16-28 | stamps the event and appends it, keeping the newest 1024; events without content are ignored |
| `SseLog.EventLog.Replay` | transport/sse/event_log.go:34-40 | sends exactly the logged events whose id is above the subscriber's, in order |
| `SseLog.ReplayStretch` | transport/sse/event_log.go:34-40 | with increasing ids, a replay is the part of the log after the last id |
| `SseLog.BeforeExactly` | transport/sse/event_log.go:34-40 | identifiers are ordered by the first character that differs, a proper beginning first |
| `SseLog.ReplayClosesGap` | transport/sse/event_log.go:14-40 | replay gives everything after the last id if and only if at most 1024 events came after it |
| `SseHub.Stream.GetSubIndex` | transport/sse/stream.go:104-111 | the first position of the subscriber, or -1 when it is not registered |
| `SseHub.Stream.OnRegister` | transport/sse/stream.go:65-69 | appends the subscriber and, with replay on, sends it the replayed events |
| `SseHub.Stream.OnDeregister` | transport/sse/stream.go:71-79 | removes, closes and uncounts a registered subscriber, and ignores one that is not |
| `SseHub.Stream.RemoveSubscriber` | transport/sse/stream.go:147-155 | closes the connection, signals `removed`, and takes out that position only |
| `SseHub.Stream.OnEvent` | transport/sse/stream.go:81-87 | logs the event when replay is on and sends it to every subscriber in order |
| `SseHub.Stream.OnQuit` | transport/sse/stream.go:89-91 | closes every connection and empties the subscriber list |
| `SseHub.SentToAllIsSafe` | transport/sse/stream.go:81-87 | a fan-out to distinct open connections raises no fault and adds the event once to each of them and to no other |
| `SseHub.ClosedAllIsSafe` | transport/sse/stream.go:157-167 | closing distinct open connections closes each once and touches no other |
| `SseHub.InvStep` | transport/sse/stream.go:61-167 | every step of the hub keeps the channel invariant |
| `SseHub.ChannelSafety` | transport/sse/stream.go:61-167 | in every run no connection is closed twice or sent to after closing, the `removed` send never blocks, and until quit the count is registered plus joining subscribers |
| `SseHub.DispatchReachesAll` | transport/sse/stream.go:81-87 | in every run an event reaches each registered subscriber exactly once and nobody else |
| `SseHub.AddedIsOpen` | transport/sse/stream.go:113-145 | a new subscriber has an open, empty connection, the identifier it came with, and a `removed` channel exactly on streams made on demand |
| `SseHub.RegisterReplays` | transport/sse/stream.go:65-69 | in every run a registering subscriber goes last and, with replay on, is sent exactly the logged events above its identifier; nobody else is sent anything |
| `SseHub.LogIsLast` | transport/sse/stream.go:81-84 | with replay on, the log is the last 1024 events with content dispatched in the run, stamped |
| `SseHub.RegisterCatchesUp` | transport/sse/stream.go:65-69 | with identifiers increasing, a registering subscriber is sent exactly what was logged after its last event if and only if that is at most 1024 events |
| `SseHub.QuitClosesAll` | transport/sse/stream.go:157-167 | quitting closes every registered connection, tells those that wait, once, and leaves the others alone |
| `SseHub.DeregisterCloses` | transport/sse/stream.go:71-79 | deregistering closes that connection, tells whoever waits, once, touches no other, and doing it again changes nothing |
| `SseResume.RegisterCatchesUp` | transport/sse/stream.go:65-69 | registration puts the client back on the whole history if and only if it missed at most 1024 events |
| `SseResume.ReachableInv` | transport/sse/stream.go:61-95 | the hub and client invariants hold over every run of publications, registrations, sends, deliveries and disconnects |
| `SseResume.ResumeIsGapFree` | transport/sse/client.go:197-231 | over any number of disconnects, what the client processed is a prefix of the history with no event twice, if every registration was in time |
| `SseResume.NothingIsLost` | transport/sse/client.go:266-293 | while the client is registered, what it processed and what is on its way make up the whole history |
| `SseResume.TooLateLeavesGap` | transport/sse/event_log.go:14-40 | a registration after more than 1024 missed events does leave a gap |
| `SseSession.InvStep` | transport/sse/client.go:197-231 | every step of a session, breaks at any character included, keeps the protocol's invariants, or leaves a wrong event at its place for good |
| `SseSession.GapFreeExactly` | transport/sse/client.go:197-231 | over any session in which no registration came too late, what the handler got through the printed text and the read loop is a prefix of the published history, as received, if and only if every connection broke at a clean place |
| `SseSession.HarmExists` | transport/sse/event.go:101-103 | a session in which a connection breaks after the id and before the data, in either mode |
| `KcpFrames.Uint32Inverse` | transport/kcp/message.go:14-19 | in either byte order, the 4-byte encoding and its decoding are inverse both ways |
| `KcpFrames.BytesOf` | transport/kcp/message.go:14-19 | little endian writes the lowest byte first, big endian the highest |
| `KcpFrames.ReadFull` | transport/kcp/message.go:64-85 | whatever the chunks, reading `n` bytes takes exactly the next `n`, or fails with the end-of-stream error that fits |
| `KcpFrames.WriteFrame` | transport/kcp/message.go:50-61 | appends one frame, or nothing and an error above 32 MiB |
| `KcpFrames.ReadFrame` | transport/kcp/message.go:64-85 | for any chunking, the result and the bytes left are those of `Decoded` |
| `KcpFrames.DecodedExactly` | transport/kcp/message.go:50-85 | a payload is read with a given remainder if and only if the stream is its frame followed by that remainder, so no input yields a wrong payload |
| `KcpFrames.ReadsInvertWrites` | transport/kcp/message.go:50-85 | each read on concatenated frames returns the next payload and leaves the encoding of the rest |
| `KcpFrames.WriteFrames` | transport/kcp/message.go:50-61 | any number of writes leave exactly the frames of the payloads that fit, behind what was there |
| `KcpFrames.ReadFrames` | transport/kcp/message.go:64-85 | `k` reads return the first `k` payloads and leave exactly the frames of the others |
| `KcpFrames.Exchange` | transport/kcp/message.go:50-85 | writing any payloads and reading the bytes back returns exactly those of at most 32 MiB, in order, so all of them if all fit, and leaves nothing |
| `KcpFrames.TruncationIsSafe` | transport/kcp/message.go:64-85 | a stream of frames cut anywhere yields a front part of the payloads, and all of them only if nothing is missing |
| `KcpFrames.PartialFrameFails` | transport/kcp/message.go:64-85 | a frame cut anywhere is an error: a clean end before or right after the length, an unexpected end elsewhere |
| `KcpFrames.OversizeIsRefused` | transport/kcp/message.go:64-85 | a length above 32 MiB is refused with only the length read, whatever follows |
| `KcpFrames.NetPacket.Unmarshal` | transport/kcp/message.go:35-46 | fails exactly below 4 bytes and then leaves the packet alone; otherwise marshalling the packet gives the buffer back |
| `KcpFrames.PacketSurvives` | transport/kcp/message.go:26-85 | type and payload survive marshal, frame, read and unmarshal, and no other packet has those bytes |
| `RequestReply.ReachableInv` | broker/request_reply.go:38-143 | requests, published messages and reply slots stay consistent in every run of any number of requests |
| `RequestReply.SharedTopicCorrelation` | broker/request_reply.go:69-115 | with headers kept, a returned message belongs to that request even on a shared reply topic, and is a reply unless the request topic is the reply topic |
| `RequestReply.GeneratedTopicCorrelation` | broker/request_reply.go:53-115 | with a generated reply topic, the returned message is a reply to that request even when headers are dropped |
| `RequestReply.ReplyComesBack` | broker/request_reply.go:69-143 | a waiting request that is answered with `ReplyTo` and gets that answer first returns it, with its body |
| `RequestReply.NoEarlyReply` | broker/request_reply.go:69-100 | before the reply subscription exists, nothing published belongs to the request |
| `RequestReply.AskedIsGiven` | broker/request_reply.go:53-102 | what is published as a request has the caller's body, id and other headers, and the reply topic and correlation id of the request |
| `RequestReply.ReturnsExactly` | broker/request_reply.go:69-115 | a request that fails or times out returns nothing, one that returns gives the first accepted message, and later ones are dropped |
| `RequestReply.SelfAddressedRequest` | broker/request_reply.go:69-115 | a request on its own reply topic can be returned as its own reply |
| `RequestReply.SelfAnswerExists` | broker/request_reply.go:69-115 | a run with headers kept in which this happens |
| `RequestReply.SharedLossyTopicCrosses` | broker/request_reply.go:69-86 | with headers dropped, any message on a shared reply topic can be returned |
| `RequestReply.CrossedReplyExists` | broker/request_reply.go:69-86 | a run of two requests in which one returns the reply to the other |
| `KafkaConsumer.BackoffSleep` | broker/kafka/subscriber.go:334-353 | for every attempt and limits in 64-bit arithmetic, the delay lies between the limits after defaulting and the sleep between half the delay and the delay |
| `KafkaConsumer.NominalIsIdeal` | broker/kafka/subscriber.go:334-353 | the delay is the smaller of max and min times two to the attempt if and only if the shift does not overflow, or its wrapped value still reaches max, or the limits coincide |
| `KafkaConsumer.OverflowShrinksDelay` | broker/kafka/subscriber.go:334-353 | limits for which the second retry waits less than the first |
| `KafkaConsumer.DefaultDelays` | broker/kafka/subscriber.go:189-212 | under the default limits and the cap of 6 used by the loop, the delay is always the ideal one |
| `KafkaConsumer.Subscriber.HandleMessage` | broker/kafka/subscriber.go:274-329 | counts the message as handled in every case, and commits it only when it was handled without error under auto-ack |
| `KafkaConsumer.Subscriber.HandleBatchMessage` | broker/kafka/subscriber.go:266-272 | handles the batch in order |
| `KafkaConsumer.Subscriber.ProcessBatchMessage` | broker/kafka/subscriber.go:149-225 | for every script of events, the loop ends in the state `Run` describes |
| `KafkaConsumer.NothingLost` | broker/kafka/subscriber.go:149-225 | after every script, handled followed by buffered is exactly what was fetched, commits are among the handled, and the buffer is shorter than the batch size (or 1) |
| `KafkaConsumer.RunsExactly` | broker/kafka/subscriber.go:149-193 | the loop runs if and only if the script holds no end of context, no close and no fatal fetch error |
| `KafkaConsumer.TickFlushes` | broker/kafka/subscriber.go:174-179 | after a tick of a running loop nothing is buffered and everything fetched has been handled, in order |
| `KafkaConsumer.FetchFlushesExactly` | broker/kafka/subscriber.go:209-224 | a fetch handles everything fetched so far if and only if it brings the buffer to the batch size |
| `KafkaConsumer.OthersHandleNothing` | broker/kafka/subscriber.go:149-225 | no other event handles or commits anything, nor does any event after the loop's end |
| `KafkaConsumer.CommitsAreSuccesses` | broker/kafka/subscriber.go:274-329 | after every script, the commits are exactly the messages handled without error under auto-ack, each once and in order |
| `KafkaConsumer.CommitsCoverOnlyHandled` | broker/kafka/subscriber.go:149-329 | with offsets increasing per partition, everything at or below a committed offset was handled and every buffered message lies above it |
| `KafkaConsumer.AcknowledgedExactly` | broker/kafka/subscriber.go:274-329 | a handled message, failed or not, lies below a commit of its partition if and only if a later one of that partition succeeded |
| `KafkaConsumer.FailureIsAcknowledged` | broker/kafka/subscriber.go:274-329 | a run in which a failed message is acknowledged by the next one |
| `KafkaConsumer.WaitsAreIdeal` | broker/kafka/subscriber.go:160-213 | since the last success, the i-th wait of each kind is the ideal delay of attempt min(i, 6) |
| `KafkaConsumer.NextWait` | broker/kafka/subscriber.go:189-208 | after n failures of its kind since the last success, counted from the script, a failed fetch waits min(500 ms, 50 ms times two to the min(n, 6)) after a timeout and min(5 s, 500 ms times the same) after another error |
| `KafkaConsumer.WaitsGrow` | broker/kafka/subscriber.go:160-213 | waits never shrink until a success, and never exceed their limit |
| `KafkaHeaders.MessageCarrier.Get` | broker/kafka/message.go:18-25 | the value of the first entry with that key, or empty |
| `KafkaHeaders.MessageCarrier.Set` | broker/kafka/message.go:27-38 | the deletion loop with its index adjustment removes every entry with the key, keeps the others in order, and appends the new one |
| `KafkaHeaders.MessageCarrier.Keys` | broker/kafka/message.go:40-46 | the key of each entry in order |
| `KafkaHeaders.HeaderToMap` | broker/kafka/utils.go:9-15 | the map in which the last entry of each key wins |
| `KafkaHeaders.SetIsUpdate` | broker/kafka/message.go:27-38 | for any list, setting a header is a map update |
| `KafkaHeaders.SetKeepsUnique` | broker/kafka/message.go:27-38 | a list without duplicate keys stays one |
| `KafkaHeaders.SetReplaces` | broker/kafka/message.go:27-38 | setting a header takes its old entry out, keeps the others in order and puts the new one last |
| `KafkaHeaders.FirstAndLast` | broker/kafka/utils.go:9-15 | `Get` finds the first entry of a key, the map keeps the last |
| `KafkaHeaders.LookupIsFind` | broker/kafka/message.go:18-25 | without duplicates, first match and last wins agree |
| `KafkaHeaders.CarrierIsMap` | broker/kafka/message.go:18-46 | after any sequence of sets on a duplicate-free list, the list is duplicate-free and both lookups see the original map with the updates applied in order |

## Left out

- The brokers' drivers: a subscription is a fresh live value that `Subscribe` creates, `Unsubscribe` ends, and the broker may end at any time.
- HTTP and RPC server wrappers, asynq, machinery, cron, keepalive, loggers, options, tracing, TLS and ciphers: thin wrappers.
- Lifecycle, request/reply and resume are step systems on values; their fields are not a class, so aliasing of a caller's message or handler is not captured.
- Timer tasks are values: that `AddTask` changes the caller's task object before rejecting it, and that a caller may change a queued task, is not captured. `SetObserver` with nil and errors of callbacks are left out.
- Times and durations of the timer are unbounded integers.
- Overlapping `Start` and `Stop` of one server or timer, and `Stop` called from a timer callback.
- The wire: base64, the age limit on events, the scanner's buffer limit, and byte encodings.
- The hub's model has no channel capacities (they are in the resume model), no wrap-around of the subscriber count, and not the goroutine that waits in `addSubscriber` after quit.
- The resume model has no quit, and breaks connections between events only; sessions break them anywhere, and publish only events that the wire can carry.
- Two callers creating one stream at the same time.
- Write errors of a connection, and packets whose type is no 32-bit number (which Go's types exclude).
- Aliasing of the header list's backing array.
- `Ack` called by a handler itself when auto-ack is off, as the typed wrapper does: `commits` lists the loop's own commits only.
- A negative batch size, where Go's `make` panics, and the loop without batches, which is the batching loop with batch size 1 and no ticker.
