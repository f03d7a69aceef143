# Verified model of the Cowork renderer and service cores

This project models the stateful and numeric cores of the Cowork desktop app and proves what they
promise: the permission controller, the readiness controller, the event stream from the service's
coalescer over the wire to the view, the activity timeline, the dispatch planner, turn finalization,
the mention typeahead, document reranking, the two graph layouts, the stripping of reasoning blocks
and the retry delays.

`dafny verify dfyconfig.toml` checks everything.

## How it is built

Code that waits is modelled step by step. JavaScript runs one stretch of code at a time, so a
controller is a state machine whose events are the atomic stretches between two `await`s, and the
environment (replies, timers, visibility, clicks) picks the next event; an event that cannot happen
leaves the state as it is. Each controller exists twice: as a pure machine (`*Machine.dfy`), whose runs
the theorems are about (`*Properties.dfy`, `*Bookkeeping.dfy`, `EvStreamEndings.dfy`, `Turn*.dfy`), and as a class with
the source's own fields, whose every method is proved to be the machine's step. The classes have a
`Valid()` that every handler requires and keeps; lemmas beside the classes say what it gives a caller at
every moment. The stream is put together in `EndToEnd.dfy`, from the server's raw log to the screen.
In-place loops are methods proved against declarative functions, and the promises are proved of those.
No lemma relies on automatic induction; inductive ones call themselves.

| file | contents |
|---|---|
| `PermissionMachine`, `PermissionProperties`, `PermissionBookkeeping`, `PermissionController` | polling, backoff, pausing and deciding permission requests |
| `ReadinessMachine`, `ReadinessProperties`, `ReadinessBookkeeping`, `ReadinessController` | handshake, health probe, retry and backoff |
| `EvEvents`, `ViewProperties`, `SseFraming` | the event reducer and what its view shows; framing by blank lines (the LF-LF subset of sections 9.2.5 and 9.2.6 of the WHATWG HTML Standard) |
| `EvStreamMachine`, `EvStreamProperties`, `EvStreamEndings`, `EvStreamClient` | the snapshot-then-live client |
| `CoordinatorMachine`, `CoordinatorProperties`, `StreamCoordinator` | the service's token coalescer |
| `ResumeProperties`, `EndToEnd` | a reader that resumes from a snapshot; the whole way from the log to the view |
| `EventMerge`, `ActivityTimeline` | the merged event list and the timeline built from it |
| `ContextPacking`, `DispatchPlanner` | the character budget of a dispatch |
| `TurnMachine`, `TurnProperties`, `TurnLimits`, `TurnScenarios`, `TurnCauses`, `TurnFinalization` | finalizing a turn: stream, watchdog and conversation switch |
| `MentionTypeahead`, `WorkspaceWalk` | mentions and the bounded walk behind them |
| `StableSorting`, `CosineSimilarity`, `Rerank` | scoring and ranking documents |
| `ForceLayout`, `GraphLayouts` | the two force layouts |
| `AssistantOutput`, `ReasoningStream`, `ReasoningBlocks` | stripping reasoning blocks |
| `RetryPolicy` | retry delays |
| `Options`, `Text` | an optional value; strings, white space, trimming |

## Where the code falls short of what is said about it

Each of these is a theorem below, with the exact condition where there is one.

- A click can be swallowed for good: if a late list reply reopens a dialog while a decision is in flight,
  pressing its button spends the dialog without a POST (`ClickIsPostedIff`, `SwallowedClickSticks`,
  `LateReplyReopens`).
- `pause()` need not silence the controller: a list call or a decision in flight wakes it (`PauseIsQuietIff`), and
  `onDecision` can name another request than the one posted (`NamesPostedIff`).
- A stream answer without a body ends silently, although every premature end is said to be surfaced
  (`SilentIffNoBody`).
- Which text is shown after an early terminal depends on chunk boundaries (`TextIgnoresChunksIff`). Between its snapshot and
  its subscription a resuming reader can miss events for good, and text the coalescer holds back at both is shown twice
  (`ResumeConvergesIff`). Anything sent while a terminal waits for its grace delay hides the end from live readers
  (`TerminalReachesReaderIff`), and a token can still leave after the terminal (`TerminalIsLastIff`).
- `retry()` does not guarantee a new handshake while a probe is in flight (`RetryRenewsIff`).
- The comment of `mergeEvEvents` (`app/ui/src/activity-model.ts:202`) says that numbers at or below the
  last one are ignored; the code accepts an older number that is missing. The model follows the code.
- A failed write wedges finalization until the conversation is switched (`LostWriteStopsFinalization`), a switch
  breaks mutual exclusion (`StaleFinishOpensGuard`), and an errored turn can end without a word (`ResolvedIsBlankIff`,
  `SilentTurn`). A conversation opened in time takes the message of another one, when the status request fails and even
  after its record has come back, while the list is loaded (`MessageLandsHomeIff`, `SavedMessageLandsElsewhere`).
- A larger dispatch budget can reject an accepted plan (`MoreBudgetKeepsOkIff`, `MoreBudgetCanReject`).
- Only the first lone closing tag is stripped (`ClosingTagSurvives`), and a closing tag in the attributes of an opening one
  lets streamed reasoning through (`OpeningTagHidesIff`).
- The jitter is documented as 25% either way (`app/llm-svc/src/routing.rs:95`) but is an eighth; the delay can exceed
  the configured maximum; and delays that are too short, or wrap around to zero, panic (`WithinAnEighthIff`,
  `MaximumIsExceededIff`, `PanicsIff`).
- A `ready` of the readiness controller is final only if no timer is left over (`ReadyIsFinalIff`).

## Model

Where a row says that the new state is the machine's, the method's contract equates the abstraction of
all fields after the call with the step of the pure machine on the fields before it. The other handlers
of the classes have contracts of the same form.

| member | source | states |
|---|---|---|
| `PermissionMachine.NoLostWakeUp` | app/ui/src/permission-controller.ts:243-349 | In every reachable state a started, visible, unpaused controller has an interval, a backoff timer, a list call or a decision outstanding; a missing interval means at least 3 consecutive failures; no timer is leaked, the interval ticks only while polling and visible, at most one decision is in flight |
| `PermissionMachine.PollWithinTwoCompletions` | app/ui/src/permission-controller.ts:243-316 | From every such state at most two completions of the host lead to a new poll |
| `PermissionProperties.EveryPostHasCause` | app/ui/src/permission-controller.ts:173-241 | Every decision of every run has a cause: the user pressed that very button in a dialog an earlier reply had opened for that request, or the head of a filtered reply was decided by the mode; only a standard request is ever allowed without a click, with scope once |
| `PermissionProperties.ModalWasOpened` | app/ui/src/permission-controller.ts:201-241 | An open dialog was opened earlier in the run by a reply headed by its request, in a mode that asks |
| `PermissionProperties.ClickIsPostedIff` | app/ui/src/permission-controller.ts:173-175 | A click on either button becomes that very POST if and only if no decision is in flight; otherwise nothing is posted |
| `PermissionProperties.SwallowedClickSticks` | app/ui/src/permission-modal.ts:170-208 | A click made while a decision is in flight is lost for good: while the request stays at the head of the queue its dialog stays open with spent buttons and nothing is ever posted again |
| `PermissionProperties.LateReplyReopens` | app/ui/src/permission-controller.ts:244-285 | A list call in flight at a click reopens a clickable dialog while the decision is in flight |
| `PermissionProperties.ClickWithListInFlightIsReachable` | app/ui/src/permission-controller.ts:289-292 | Such a moment is reachable from a new controller |
| `PermissionProperties.NamesPostedIff` | app/ui/src/permission-controller.ts:185-188 | `onDecision` names the posted request in every continuation if and only if no list call was in flight when it was posted |
| `PermissionProperties.PauseIsQuietIff` | app/ui/src/permission-controller.ts:336-340 | In every reachable state: after `pause()` the host's completions cause neither a poll nor an interval if and only if no decision was in flight, and either no list call was, or the controller is hidden or not started and the filter lets no session through |
| `PermissionControllerModule.PermissionController.Listed` | app/ui/src/permission-controller.ts:246-286 | The new state is the machine's after a successful list call (failures reset, interval restored, filtered head reconciled), and the invariant is kept |
| `PermissionControllerModule.PermissionController.Decided` | app/ui/src/permission-controller.ts:184-198 | The new state is the machine's; the decision is over and a new list call is out |
| `PermissionControllerModule.PermissionController.OnVisibility` | app/ui/src/permission-controller.ts:308-316 | The new state is the machine's; while polling there is an interval if and only if the tab is visible |
| `PermissionControllerModule.PermissionController.Stop` | app/ui/src/permission-controller.ts:329-335 | The new state is the machine's; no dialog and no timer is left, in the controller or in the host |
| `PermissionControllerModule.PermissionController.Resume` | app/ui/src/permission-controller.ts:341-348 | The new state is the machine's; a started, visible controller has its interval back, no backoff timer and no failures |
| `PermissionControllerModule.PermissionController.Click` | app/ui/src/permission-modal.ts:192-208 | The new state is the machine's: the buttons are spent before the decision is attempted; the invariant is kept |
| `PermissionControllerModule.WakeUpIsOwed` | app/ui/src/permission-controller.ts:243-349 | For a controller object at every moment between its handlers: while started, visible and not paused it owes a wake-up; only three failures in a row take its interval; at most one decision is in flight; the host keeps exactly the timers it knows of; an open dialog shows the remembered request |
| `PermissionProperties.ReplyIsActedOn` | app/ui/src/permission-controller.ts:201-286 | In every state of every run, a list reply is acted on: its first request that passes the session filter is denied in read-only mode and, if standard, allowed once in the automatic mode, each time without a dialog; in all other cases its dialog is open and nothing is posted; only a decision in flight keeps the POST back |
| `PermissionProperties.EmptyReplyClosesDialog` | app/ui/src/permission-controller.ts:278-284 | A reply with no request that passes closes the dialog, posts nothing and forgets the request |
| `PermissionBookkeeping.ListCallsAreConserved` | app/ui/src/permission-controller.ts:243-249 | In every run there is one list call for each event that asks for one (a command, a live timer, a return to sight, the end of a decision), no other, and each is in flight until its reply |
| `PermissionBookkeeping.FailuresAreCounted` | app/ui/src/permission-controller.ts:248-260 | The failure count is the number of failed list calls since the last success or resume |
| `PermissionBookkeeping.ThirdFailureBacksOff` | app/ui/src/permission-controller.ts:257-273 | From the third failure in a row on, each one leaves no interval and, while polling, exactly the backoff timer; before the third no timer changes |
| `PermissionBookkeeping.RemembersTheFront` | app/ui/src/permission-controller.ts:201-206 | What is remembered is the request the last reply put in front, and what is announced are those put in front since the list was last empty |
| `PermissionBookkeeping.DecisionIsReported` | app/ui/src/permission-controller.ts:179-198 | A decision that ends well is reported once, as the outcome of the last POST, under the name of the request in front by then, unless none is; a failed one is not; either way the controller is free and asks for the list |
| `PermissionBookkeeping.StopLeavesNothing` | app/ui/src/permission-controller.ts:329-335 | After `stop()` there is no dialog and no timer, and none comes back before a start or a list reply |
| `ReadinessProperties.NeverStalls` | app/ui/src/readiness-controller.ts:117-199 | A started controller has a probe in flight, a timer armed, or has said ready; at most one probe and one timer exist; no delay exceeds the cap |
| `ReadinessProperties.ReadyStaysReachable` | app/ui/src/readiness-controller.ts:127-177 | From every reachable started state at most three completions lead to a fresh ready |
| `ReadinessProperties.EveryReadyIsHonest` | app/ui/src/readiness-controller.ts:170-173 | Every ready ever emitted is the reply of a health probe for that handshake, made while not stopped |
| `ReadinessProperties.ReadyIsFinal` | app/ui/src/readiness-controller.ts:172-176 | If the app starts before it retries, no completion changes anything after ready |
| `ReadinessProperties.ReadyIsFinalIff` | app/ui/src/readiness-controller.ts:170-176 | In every reachable state that ends in ready, no sequence of completions changes anything if and only if no timer is armed |
| `ReadinessProperties.EarlyRetryOutlivesReady` | app/ui/src/readiness-controller.ts:186-193 | A retry before the first start leaves a timer that survives ready and probes again |
| `ReadinessProperties.DelayGrows` | app/ui/src/readiness-controller.ts:117-121 | Delays grow with the number of failures, up to the cap |
| `ReadinessProperties.BackoffNeverShrinks` | app/ui/src/readiness-controller.ts:117-125 | While the service keeps failing, the armed delay never shrinks and never passes the cap |
| `ReadinessProperties.RetryRenewsIff` | app/ui/src/readiness-controller.ts:186-193 | After `retry()` every later ready belongs to a handshake requested since, if and only if no probe was in flight |
| `ReadinessControllerModule.ReadinessController.Health` | app/ui/src/readiness-controller.ts:161-176 | The new state is the machine's; unless stopped, no probe is left, no failure is counted and the last phase is ready |
| `ReadinessControllerModule.ReadinessController.Start` | app/ui/src/readiness-controller.ts:180-185 | The new state is the machine's; the controller is started, and a first start has a probe in flight |
| `ReadinessControllerModule.ReadinessController.Retry` | app/ui/src/readiness-controller.ts:186-193 | The new state is the machine's; unless stopped, a probe is in flight, no failure is counted and no timer armed |
| `ReadinessControllerModule.ReadinessController.Stop` | app/ui/src/readiness-controller.ts:194-198 | The new state is the machine's; no timer is left in the host |
| `ReadinessControllerModule.KeepsTrying` | app/ui/src/readiness-controller.ts:117-199 | For a controller object at every moment between its handlers: once started it is trying, about to try again, or has said ready; one probe and one timer at most; no delay beyond the cap |
| `ReadinessProperties.ArmedDelayIs` | app/ui/src/readiness-controller.ts:117-125 | If the app starts before it retries, an armed timer has exactly the delay for the failures in a row: the base times the factor once for each, sixteen times at most, or the cap if that is less |
| `ReadinessBookkeeping.EveryEventSpeaks` | app/ui/src/readiness-controller.ts:127-173 | In every run each event emits exactly the phase it should, with the number of this attempt or the handshake of its probe, and nothing after a stop; only a probe without a handshake in use asks for one |
| `ReadinessBookkeeping.HandshakeIsKept` | app/ui/src/readiness-controller.ts:131-155 | Once a handshake is in use no other is asked for before the next retry, however often the service fails |
| `EvEvents.ResumeIsExact` | service/src/execution/ev-reducer.ts:227-245 | A view of a log prefix that receives any stretch of the log starting at or before its end becomes the view of the log up to where the stretch ends: nothing is lost and nothing counted twice |
| `EvEvents.FoldCursor` | service/src/execution/ev-reducer.ts:227-235 | The cursor is the highest sequence number applied and never goes back |
| `EvEvents.TerminalSticks` | service/src/execution/ev-reducer.ts:117-133 | After the first terminal, status, terminal and board never change again |
| `EvEvents.NoTerminalNoEnd` | service/src/execution/ev-reducer.ts:134-225 | Only a terminal event ends a run |
| `ViewProperties.LiveViewTells` | service/src/execution/ev-reducer.ts:102-202 | A live view shows exactly what its events said: one entry per step and per tool call, in the order in which they came up and as their last event left them, all files in order, the last plan, error, progress and usage, and the text of all tokens |
| `ViewProperties.OverViewTells` | service/src/execution/ev-reducer.ts:117-221 | Once a run is over its view keeps what it showed, apart from the progress, which goes, and shows the first terminal; only the text may grow, by the tokens that come as long as it is blank |
| `SseFraming.SplitInPieces` | app/ui/src/ev-stream-client.ts:189-192 | Splitting at blank lines in pieces gives exactly the blocks and the residue of splitting the whole text, for every cut |
| `SseFraming.ResidueHasNoBreak` | app/ui/src/ev-stream-client.ts:191-192 | What stays in the buffer holds no complete block |
| `SseFraming.FrameRoundTrip` | service/src/execution/ev-sse.ts:21-88 | An encoded frame decodes to its event; a heartbeat decodes to nothing |
| `SseFraming.FieldsAreDecoded` | service/src/execution/ev-sse.ts:75-88 | A block of any number of lines in any order decodes to what its data lines say together, one per line, with one space dropped behind each colon; without a data line it decodes to nothing |
| `SseFraming.CutKeepsWholeFrames` | service/src/execution/ev-sse.ts:21-28 | Wherever the connection is cut, the blocks received are exactly those of a prefix of the frames |
| `SseFraming.CutDecodesToPrefix` | service/src/execution/ev-sse.ts:21-88 | Every prefix of the encoded stream decodes to a prefix of the events sent, the whole stream to all of them |
| `EvStreamProperties.CoalescingLosesNothing` | app/ui/src/ev-stream-client.ts:148-168 | In every reachable state there is at most one outstanding flush, and without one the app was given the current view |
| `EvStreamProperties.SilentIffNoBody` | app/ui/src/ev-stream-client.ts:170-207 | A settled, uninterrupted attempt leaves the app without a terminal and without an error if and only if the stream endpoint answered without a body |
| `EvStreamProperties.SilenceIsReachable` | app/ui/src/ev-stream-client.ts:175 | That branch is reachable from a new client |
| `EvStreamProperties.StopIsSilent` | app/ui/src/ev-stream-client.ts:206-232 | After `stop()` no error is reported, and whatever is shown is the view at that moment, or a snapshot that arrived since, with events folded in: no disconnect notice |
| `EvStreamProperties.ReadAppliesPrefix` | app/ui/src/ev-stream-client.ts:183-198 | For every chunking within the buffer cap the client has applied a prefix of the events: all of them while reading, at least up to the terminal when finished |
| `EvStreamProperties.ChunkingKeepsOutcome` | app/ui/src/ev-stream-client.ts:183-198 | For every chunking within the cap, terminal, status and board are those of the text in one piece; without a terminal the whole view is |
| `EvStreamProperties.TextIgnoresChunksIff` | app/ui/src/ev-stream-client.ts:193-198 | All chunkings show the same text if and only if the text at the terminal is not blank or no later token carries any |
| `EvStreamProperties.AsksFromSnapshot` | app/ui/src/ev-stream-client.ts:111-133 | In every run, the stream a client waits for or reads was asked for since the cursor of the snapshot it adopted last, and since -1 for an unknown session |
| `EvStreamProperties.ViewIsAlwaysOnLog` | app/ui/src/ev-stream-client.ts:111-216 | Against a server that sends what is newer than the cursor the client itself asks for, an exact stretch of its log, across any number of disconnects, cuts, replays and reconnects, the view is the fold of a prefix of the log, with a disconnect notice at most (with the coalescer in between: `EndToEnd.ViewIsAlwaysOnServersLog`) |
| `EvStreamProperties.CaughtUp` | app/ui/src/ev-stream-client.ts:186-216 | A connection that has received the frames of all that is newer than the cursor it asked for shows the whole log |
| `EvStreamProperties.WireKeepsContract` | service/src/execution/ev-sse.ts:21-28 | Encoded frames of what is newer than a cursor keep the stream's half of that contract, wherever the connection is cut |
| `EvStreamClientModule.EvStreamClient.Chunk` | app/ui/src/ev-stream-client.ts:187-198 | The new state is the machine's after one read (cap, split, decode, apply, stop at a terminal), and the invariant is kept |
| `EvStreamClientModule.EvStreamClient.Flush` | app/ui/src/ev-stream-client.ts:148-155 | The app is given the current view and no flush is outstanding |
| `EvStreamClientModule.EvStreamClient.Eof` | app/ui/src/ev-stream-client.ts:187-203 | The new state is the machine's: the loop is left and the reader is being cancelled; nothing is reported yet |
| `EvStreamClientModule.EvStreamClient.ReaderCancelled` | app/ui/src/ev-stream-client.ts:199-225 | The new state is the machine's: an end without a terminal, or an exception, is reported exactly once, unless `stop()` was called before the reader was released |
| `EvStreamClientModule.NoRenderIsLost` | app/ui/src/ev-stream-client.ts:148-198 | For a client object at every moment between its handlers: at most one flush is outstanding, without one the app has the current view, and while reading the view is the fold of the text received on the snapshot |
| `EvStreamEndings.FailedRequestIsTold` | app/ui/src/ev-stream-client.ts:209-225 | A failed request or a refused snapshot is reported once, and the view stays as it was |
| `EvStreamEndings.EveryPrematureEndIsTold` | app/ui/src/ev-stream-client.ts:163-207 | A connection that breaks is reported once, without a change to the view; a stream that ends before the run is over is reported once, and the view the app gets next carries the notice and is otherwise unchanged |
| `EvStreamEndings.TooMuchTextIsTold` | app/ui/src/ev-stream-client.ts:187-206 | A read that takes the buffer over its cap of 2^20 characters counts as such an end, and what it brought is dropped |
| `EvStreamEndings.ReadIsApplied` | app/ui/src/ev-stream-client.ts:187-206 | Every other read is applied; the one that brings the terminal ends the connection quietly |
| `EvStreamEndings.NothingIsToldAfterStop` | app/ui/src/ev-stream-client.ts:206-232 | After `stop()` no further error is reported, however the connection ends |
| `CoordinatorProperties.CoalescingPreservesMeaning` | service/src/execution/stream-coordinator.ts:70-180 | For every log that ends at its terminal and every timing of window, grace delay and flushes, the events sent fold to the view of the events fed in |
| `CoordinatorProperties.TokensAreHeld` | service/src/execution/stream-coordinator.ts:120-147 | Fewer tokens than a batch are held together, with all their text and the number and time of the last, owed the window timer; nothing is sent |
| `CoordinatorProperties.FullBatchLeaves` | service/src/execution/stream-coordinator.ts:120-139 | The token that completes a batch sends it as one event with all the text and the number and time of the last |
| `CoordinatorProperties.TerminalReachesReaderIff` | service/src/execution/stream-coordinator.ts:95-171 | For every timing of every timer and flush, and events fed in before and after a terminal: exactly one terminal is sent, at most one token after it, and a live reader sees the run end if and only if nothing was sent between the moment the terminal was fed in and the moment it was sent |
| `CoordinatorProperties.GraceEnds` | service/src/execution/stream-coordinator.ts:95-171 | Everything ever sent, in order: what was sent before the grace delay ended, then the terminal; held tokens go ahead of it on a forced flush and behind it when the timer fires |
| `CoordinatorProperties.TerminalIsLastIff` | service/src/execution/stream-coordinator.ts:17-21 | The terminal is the last thing ever sent, as the header promises, if and only if its timer does not fire while a token is held back |
| `CoordinatorMachine.NothingIsStuck` | service/src/execution/stream-coordinator.ts:95-180 | In every run, whatever is pushed: text held back by a live stream is owed the window timer, a terminal held back the grace timer, less than a full batch is buffered, and at most one terminal is ever sent |
| `ResumeProperties.ResumeConvergesIff` | service/src/server/session-stream-route.ts:77-94 | Snapshot and subscription are two requests; what is fed in between is lost unless still held back. A reader converges with the server in every continuation if and only if the run did not end in between, no text held back at the snapshot is still to be sent, and what was sent in between is invisible: nothing newer than the cursor, or nothing that changed text or board with a token still held back |
| `ResumeProperties.NothingLostIff` | service/src/server/session-stream-route.ts:86-94 | Nothing fed in between is lost if and only if everything sent in between is at or below the reader's cursor |
| `ResumeProperties.NothingNewSentConverges` | service/src/server/session-stream-route.ts:77-94 | A live run, no text held back at the snapshot and nothing newer sent before the subscription are enough to converge |
| `ResumeProperties.HeldTextMayLeaveMeanwhile` | service/src/server/session-stream-hub.ts:147-161 | They are not necessary: text held back at the snapshot does no harm if it leaves before the subscription |
| `EndToEnd.EndToEnd` | app/ui/src/ev-stream-client.ts:174-216 | From the raw log through coalescer, the filter by the cursor the client itself asked for, frames with heartbeats and any chunking within the cap to a fresh client: after a harmless gap and a flush the client's view is exactly the fold of the server's log |
| `EndToEnd.ClientShowsResumed` | app/ui/src/ev-stream-client.ts:174-216 | Harmless or not, a client that asks for the stream since the cursor of its snapshot shows exactly the view of the resume analysis, for every framing and chunking |
| `EndToEnd.DeliveredIsOnLog` | service/src/execution/stream-coordinator.ts:108-147 | At every moment of a connection the events sent so far lead from the snapshot to a view the server has been at |
| `EndToEnd.ViewIsAlwaysOnServersLog` | app/ui/src/ev-stream-client.ts:111-216 | Over any number of connections of a server with a coalescer, each with its own snapshot, harmless gap, timing and cut, each answered since the cursor the client asked for, the view is always one the server has been at, with a disconnect notice at most |
| `CoordinatorProperties.DroppingSeenIsHarmless` | service/src/server/session-stream-route.ts:86-88 | Skipping events at or below any cursor that is not beyond the view changes nothing for the reader |
| `StreamCoordinatorModule.StreamCoordinator.Push` | service/src/execution/stream-coordinator.ts:150-171 | The new state is the machine's after one event, and the invariant is kept |
| `StreamCoordinatorModule.StreamCoordinator.Flush` | service/src/execution/stream-coordinator.ts:173-176 | The new state is the machine's; nothing is held back and no timer is armed |
| `StreamCoordinatorModule.StreamCoordinator.GraceFires` | service/src/execution/stream-coordinator.ts:161-166 | The terminal held back is sent, once, and ends the stream |
| `StreamCoordinatorModule.NothingIsStuck` | service/src/execution/stream-coordinator.ts:95-180 | For a coalescer object at every moment: held text is owed a flush, a held terminal the grace timer, a batch is never full, at most one terminal was sent |
| `EventMerge.MergeEvEvents` | app/ui/src/activity-model.ts:203-216 | The result is strictly ascending and holds, for every number, exactly the event already there, else the first delivered |
| `EventMerge.MergeIsUnique` | app/ui/src/activity-model.ts:203-216 | Those two properties determine the merge |
| `EventMerge.MergeInBatches` | app/ui/src/app-shell.ts:1505 | Merging one by one and merging as a batch give the same list |
| `EventMerge.RedeliveryIsHarmless` | app/ui/src/activity-model.ts:203-216 | Delivering again what the list has changes nothing |
| `EventMerge.NewestGoesLast` | app/ui/src/app-shell.ts:1505 | A newer event is appended |
| `ActivityTimeline.BuildActivitySnapshot` | app/ui/src/activity-model.ts:218-372 | Said of the result itself: its rows stand in the order of the events that get one, all but tokens, metrics, finished steps and later events of a known call; each tells number, time, name, target, status and read mark of its event, or of the last event of its call, and the status means what the event said; the paths read, the file changes and the last terminal are those of the events |
| `ActivityTimeline.PlaceToolRow` | app/ui/src/activity-model.ts:281-286 | The row of a known call is rewritten where it stands, a new call appended and indexed |
| `ActivityTimeline.OneRowPerCall` | app/ui/src/activity-model.ts:260-291 | Every tool call has exactly one row, where its first event stands and with its last event's content |
| `ActivityTimeline.KeysAreDistinct` | app/ui/src/activity-model.ts:236-356 | Rows of a merged list have distinct keys |
| `ActivityTimeline.RowsNeverMove` | app/ui/src/activity-model.ts:281-286 | As events arrive every row keeps its place and its key |
| `ActivityTimeline.FileChangesAreTheFileRows` | app/ui/src/activity-model.ts:292-320 | The file changes listed and the file rows are the same, in the same order |
| `ActivityTimeline.ReadPathsAreExact` | app/ui/src/activity-model.ts:287-289 | A path is listed as read if and only if a completed read, list, glob or grep call named it, and once |
| `ContextPacking.AssembleTranscriptContext` | app/ui/src/transcript-context.ts:112-152 | Keeps the most of the newest lines that fit, and says so when any is dropped |
| `ContextPacking.TranscriptWithinBudget` | app/ui/src/transcript-context.ts:124-152 | The text is empty or at least one character under the budget |
| `ContextPacking.KeptIs` | app/ui/src/transcript-context.ts:131-140 | Stopping at the first line that does not fit keeps as many as possible |
| `ContextPacking.AssembleAttachmentContext` | app/ui/src/attachment-context.ts:56-92 | Packs the longest prefix of blocks that fits |
| `ContextPacking.PackedIsLongestPrefix` | app/ui/src/attachment-context.ts:71-80 | A prefix fits if and only if it is no longer than what is packed |
| `ContextPacking.AttachmentTextLength` | app/ui/src/attachment-context.ts:86-91 | The packed text is two characters shorter than what was charged |
| `DispatchPlanner.PlanDispatchPrompt` | app/ui/src/dispatch-plan.ts:140-284 | The plan is ok if and only if a closed-form inequality on lengths holds; an ok plan starts with the system prompt, ends with the request and is its parts in their order with blank lines between, the newest prior turns that fit and all attachments between their marks, within the budget; each failure has its exact cause and entries; the last length check never fails |
| `DispatchPlanner.PackContext` | app/ui/src/dispatch-plan.ts:230-238 | Prior turns get 55% of the rest, attachments what is left after them |
| `DispatchPlanner.AcceptedTextFits` | app/ui/src/dispatch-plan.ts:205-215 | Whatever passes the checks fits with 2 characters to spare, 4 with attachments, so both overflow branches are dead |
| `DispatchPlanner.TextLength` | app/ui/src/dispatch-plan.ts:158-164 | The joined text is exactly as long as what was charged |
| `DispatchPlanner.PacksAllIff` | app/ui/src/dispatch-plan.ts:235-238 | All attachments are packed if and only if their total cost fits |
| `DispatchPlanner.OrderKeepsVerdict` | app/ui/src/dispatch-plan.ts:234-249 | Reordering the attachments keeps the verdict |
| `DispatchPlanner.RemovalKeepsOk` | app/ui/src/dispatch-plan.ts:234-249 | Removing an attachment keeps an ok plan ok |
| `DispatchPlanner.IncludedIsLongestPrefix` | app/ui/src/dispatch-plan.ts:240-254 | With distinct paths the entries marked included after a failure are exactly the longest prefix that fits |
| `DispatchPlanner.PackedButOmittedIff` | app/ui/src/dispatch-plan.ts:240-254 | A packed entry is reported omitted if and only if a later, unpacked one shares its path |
| `DispatchPlanner.MoreBudgetKeepsOkIff` | app/ui/src/dispatch-plan.ts:230-249 | A larger budget never drops a prior turn, and keeps an ok plan ok if and only if there are no attachments or the further turns it lets in cost no more than the added budget and what the plan had left |
| `DispatchPlanner.MoreBudgetCanReject` | app/ui/src/dispatch-plan.ts:230-233 | The condition can fail whatever the prompts and envelopes: for every request a prior turn, an attachment and a budget for which two characters more turn ok into failure |
| `DispatchPlanner.MoreBudgetCanRejectForReal` | app/ui/src/dispatch-plan.ts:230-233 | In particular with the source's own envelopes, any system prompt and any request |
| `TurnProperties.ClaimedOncePerClearing` | app/ui/src/session-finalization.ts:70-79 | Over every run, a session passes the guard twice only across a switch of conversation |
| `TurnProperties.EveryMessageWasClaimed` | app/ui/src/app-shell.ts:1380-1441 | Every message of finalization was claimed before by the same finalization for the same session, and is not blank |
| `TurnProperties.OneMessagePerSession` | app/ui/src/app-shell.ts:1372-1463 | Without a switch, finalization writes at most one message per session |
| `TurnProperties.NeverTwoWithoutSwitch` | app/ui/src/app-shell.ts:1380-1384 | Without a switch, finalizations exclude each other |
| `TurnProperties.NeverTwoSinceSwitch` | app/ui/src/app-shell.ts:1759-1763 | Those begun since a switch exclude each other while none from before it finishes |
| `TurnLimits.ShutIff` | app/ui/src/app-shell.ts:1384-1450 | Without a switch, the guard is shut if and only if a finalization runs or one has died |
| `TurnLimits.LostWriteStopsFinalization` | app/ui/src/app-shell.ts:1440-1450 | Once a finalization has died of a failed write, no session is finalized again until a switch, whatever arrives |
| `TurnLimits.OneTimeoutPerBind` | app/ui/src/app-shell.ts:1340-1350 | The watchdog writes at most one timeout message for each time a stream was bound |
| `TurnLimits.MessagesStayHome` | app/ui/src/conversation-controller.ts:308-316 | While nothing changes the active conversation, every message goes to it |
| `TurnLimits.MessageLandsHomeIff` | app/ui/src/conversation-controller.ts:308-333 | In every run, a message of a turn that settled in a conversation is written either when the status request is lost or, after its record, when the list loaded next has come; it lands in that conversation if and only if the last change of the active conversation since the request began, or since the record came back, led there, or there was none |
| `TurnScenarios.ResolvedIsBlankIff` | app/ui/src/app-shell.ts:1400-1415 | A resolved text is blank if and only if the turn errored and its error message, or without one its text, is blank |
| `TurnCauses.EveryEntryHasItsCause` | app/ui/src/app-shell.ts:1352-1450 | In every run every entry of the log has its one cause and every cause its entry: a claim when the active session's view or a poll brings a terminal and the guard is open, a message when the phase was saved without a record or the list has come, a death of a lost write about a conversation, a clearing at a switch |
| `TurnCauses.ClaimAsksIff` | app/ui/src/app-shell.ts:1379-1398 | A claimed finalization fetches the text if and only if the turn completed, nothing was streamed and there is a client; the guard is shut and the watchdog off |
| `TurnCauses.WatchdogActs` | app/ui/src/app-shell.ts:1329-1362 | A tick gives up after more than 90 s, polls from 12 s on if it can and nothing is being finalized, stops when the conversation is no longer busy, and otherwise changes nothing |
| `TurnCauses.PollEndsWatch` | app/ui/src/app-shell.ts:1353-1361 | A poll that finds the session over stops the watchdog, any other leaves it |
| `TurnCauses.SettledMessageSays` | app/ui/src/app-shell.ts:1417-1440 | In every continuation, a finalization whose files have settled says its text as it is displayed and nothing else, marked if and only if the turn completed and left file actions unverified |
| `TurnCauses.MessageIsAwaitedIff` | app/ui/src/conversation-controller.ts:308-316 | A message that is written is awaited; if none is, nothing can be lost |
| `TurnCauses.RecordBecomesActive` | app/ui/src/conversation-controller.ts:308-333 | A record that comes back becomes the active one, with its session, even if the user has moved on; a lost reply changes nothing |
| `TurnScenarios.EndedTextIs` | app/ui/src/app-shell.ts:1400-1415 | Exactly which text a turn ends with: its own, the fetched one, the message of its error, or the fixed sentence of how it ended |
| `TurnScenarios.EndedPhaseIs` | app/ui/src/app-shell.ts:1435-1439 | Exactly how the conversation is marked: as the turn ended, or without an answer if it completed without one |
| `TurnScenarios.MessageSaysText` | app/ui/src/app-shell.ts:1400-1440 | In every continuation a finalization writes nothing but the text it resolved, as it is displayed, or its mark if the turn completed |
| `TurnScenarios.StreamedTextWins` | app/ui/src/session-finalization.ts:26-33 | Except for errors, text that was streamed is what the turn ends with, trimmed |
| `TurnScenarios.FetchedTextIsUsed` | app/ui/src/app-shell.ts:1386-1402 | A completed turn without streamed text ends with the fetched one, or with the honest fallback if none came |
| `TurnScenarios.SilentTurn` | app/ui/src/app-shell.ts:1410-1415 | Such a turn takes the guard and never writes a message |
| `TurnScenarios.EveryClaimCanFinish` | app/ui/src/app-shell.ts:1386-1450 | From any state at most seven completions end a running finalization and free the guard |
| `TurnScenarios.MessageLandsElsewhere` | app/ui/src/app-shell.ts:1752-1763 | A run in which a message is written into another conversation, switched to before the status request failed |
| `TurnScenarios.SavedMessageLandsElsewhere` | app/ui/src/conversation-controller.ts:325-329 | A run in which that happens although the record came back: the other conversation is opened while the list is being loaded |
| `TurnScenarios.TwoMessagesAcrossSwitch` | app/ui/src/app-shell.ts:1762-1763 | A run in which a poll of the watchdog is in flight while the stream ends the turn; after a switch to another conversation and back its answer claims the session again, and the answer is written twice |
| `TurnScenarios.StaleFinishOpensGuard` | app/ui/src/app-shell.ts:1450 | The same run, in which the finish of the first finalization opens the guard while the second one runs |
| `TurnScenarios.AnswerAfterTimeout` | app/ui/src/app-shell.ts:1340-1350 | A run without a switch in which a session reports a timeout and then its answer |
| `TurnScenarios.LostWriteIsReachable` | app/ui/src/app-shell.ts:1441-1448 | A run in which a failed write leaves the guard shut with nothing running |
| `TurnFinalization.AppState.BeginTurnFinalization` | app/ui/src/session-finalization.ts:70-79 | Passes if and only if nothing is finalizing and the session is new; the set grows by exactly that session |
| `TurnFinalization.AppState.FinalizeConversationTurn` | app/ui/src/app-shell.ts:1372-1420 | The new state is the machine's up to the first await: one claim, the guard shut, the watchdog stopped |
| `TurnFinalization.AppState.PhasePatched` | app/ui/src/conversation-controller.ts:320-333 | The new state is the machine's: a record becomes the active one and the list is loaded next; without one the message is written at once; the invariant is kept |
| `TurnFinalization.AppState.ListLoaded` | app/ui/src/app-shell.ts:1439-1440 | The new state is the machine's: the message is written into the conversation active by then; the invariant is kept |
| `TurnFinalization.AppState.RecordAssistantMessage` | app/ui/src/conversation-controller.ts:308-316 | The shown text goes to the conversation active now, unless it is blank or none is active |
| `TurnFinalization.AppState.ActivityPersisted` | app/ui/src/app-shell.ts:1449-1450 | The new state is the machine's: the guard opens, and exclusion is spoilt if and only if the finalization is older than the last switch |
| `TurnFinalization.AppState.ConversationSelected` | app/ui/src/app-shell.ts:1759-1763 | The new state is the machine's: both guard fields are cleared, and exclusion starts afresh |
| `TurnFinalization.GuardIsExact` | app/ui/src/session-finalization.ts:70-79 | For the state object at every moment: the finalized sessions are exactly those claimed since the last switch, and none of them passes the guard again |
| `TurnFinalization.OneMessage` | app/ui/src/app-shell.ts:1372-1463 | For the state object at every moment before the first switch: at most one message of its own per session |
| `TurnFinalization.NeverTwo` | app/ui/src/app-shell.ts:1380-1384 | For the state object: two finalizations begun since the last switch never run at once, as long as no older one has finished since |
| `MentionTypeahead.FindMentionToken` | app/ui/src/mention-typeahead.ts:22-35 | Finds the token if and only if there is an at sign at the start or after white space with neither white space nor an at sign up to the caret; there is only one |
| `MentionTypeahead.MentionKeepsSides` | app/ui/src/mention-typeahead.ts:61-72 | Both sides of the text stay, the caret follows the mention, and no token is active there |
| `MentionTypeahead.MentionIsFoundAgainIff` | app/ui/src/mention-typeahead.ts:61-72 | Stepping back over the space finds the mention again if and only if the path has neither white space nor an at sign |
| `MentionTypeahead.FilterMentionCandidates` | app/ui/src/mention-typeahead.ts:38-58 | The loop, sort and cut give the declarative candidate list; without a fragment the first files in their order, as many as the limit |
| `MentionTypeahead.CandidatesAreTheBest` | app/ui/src/mention-typeahead.ts:56-57 | Candidates are the first `limit` matches by score, then path; none left out ranks before one shown |
| `MentionTypeahead.ScoreIs` | app/ui/src/mention-typeahead.ts:44-55 | A path scores by the best of four kinds of match, base name prefix, path prefix, base name hit, path hit, and not at all if and only if the needle does not occur in it |
| `MentionTypeahead.BaseNameIs` | app/ui/src/mention-typeahead.ts:44-53 | The base name is what follows the last slash or backslash |
| `MentionTypeahead.ScoredIff` | app/ui/src/mention-typeahead.ts:46-55 | The matches are exactly the paths that have a score, with that score |
| `WorkspaceWalk.BuildMentionIndex` | app/ui/src/mention-typeahead.ts:102-123 | Ends for every listing, cyclic ones included, and returns exactly the first 400 files of the unlimited walk |
| `WorkspaceWalk.VisitIsLevelOrder` | app/ui/src/mention-typeahead.ts:104-120 | The unlimited walk visits all folders of one depth before the next, down to depth three |
| `WorkspaceWalk.FoundIff` | app/ui/src/mention-typeahead.ts:113-120 | A file is found if and only if a trail of at most three listed, unskipped folders leads to its folder |
| `CosineSimilarity.CauchySchwarz` | app/llm-svc/src/cloud_proxy.rs:294-296 | The square of the dot product is at most the product of the squared norms, for vectors of any length |
| `CosineSimilarity.CosineInRange` | app/llm-svc/src/cloud_proxy.rs:290-301 | Every score lies between -1 and 1 |
| `CosineSimilarity.CosineIsSymmetric` | app/llm-svc/src/cloud_proxy.rs:290-301 | The score is symmetric |
| `CosineSimilarity.CosineIgnoresLength` | app/llm-svc/src/cloud_proxy.rs:290-301 | Scaling a vector by a positive factor keeps the score |
| `CosineSimilarity.CosineIs` | app/llm-svc/src/cloud_proxy.rs:290-301 | The score times both lengths is the dot product; it is 0 if a length is |
| `CosineSimilarity.CosineOfOpposite` | app/llm-svc/src/cloud_proxy.rs:290-301 | The opposite vector scores the opposite |
| `CosineSimilarity.CosineOfItself` | app/llm-svc/src/cloud_proxy.rs:290-301 | A non-zero vector scores 1 against itself |
| `Rerank.RerankDocuments` | app/llm-svc/src/service.rs:171-199 | A result if and only if there is one vector per text; the loops give the specified ranking |
| `Rerank.ResultsAreTheBest` | app/llm-svc/src/service.rs:173-189 | The results are the first `top_k` (or all) of the stable descending sort, ranks count from one, no document left out scores higher |
| `Rerank.ResultsAreDetermined` | app/llm-svc/src/service.rs:181-183 | Any stable sort gives the same results |
| `Rerank.FewerAreAPrefix` | app/llm-svc/src/service.rs:187-189 | A smaller `top_k` returns a prefix of a larger one |
| `StableSorting.StableSortIsUnique` | app/llm-svc/src/service.rs:181-183 | A sorted list whose ties keep their order is unique |
| `ForceLayout.Repel` | app/ui/src/knowledge-graph-view.ts:84-96 | After the pair loop every node holds exactly the sum of the pushes of all others |
| `ForceLayout.Attract` | app/ui/src/knowledge-graph-view.ts:98-109 | After the edge loop every node holds exactly its pushes and the pulls of its edges |
| `ForceLayout.MomentumIsZero` | app/ui/src/knowledge-graph-view.ts:84-109 | The velocities add up to nothing, for any forces, loops and repeated edges |
| `KnowledgeGraphLayout.SimulateLayout` | app/ui/src/knowledge-graph-view.ts:70-118 | The in-place simulation gives exactly the rounds of the specification |
| `KnowledgeGraphLayout.CentroidStays` | app/ui/src/knowledge-graph-view.ts:70-118 | The centre of gravity never moves, over any number of rounds |
| `KnowledgeGraphLayout.PushIsMutual` | app/ui/src/knowledge-graph-view.ts:87-95 | Two nodes push each other equally hard in opposite directions |
| `KnowledgeGraphLayout.EveryNodePushes` | app/ui/src/knowledge-graph-view.ts:84-96 | Visiting each pair once gives every node the push of every other one |
| `KnowledgeGraphLayout.PushParts` | app/ui/src/knowledge-graph-view.ts:84-96 | Two nodes that do not coincide push each other apart, along the line between them and with the inverse square of their distance |
| `KnowledgeGraphLayout.PullDraws` | app/ui/src/knowledge-graph-view.ts:98-109 | An edge draws its source straight to its target, with the square of their distance over fifty |
| `KnowledgeGraphLayout.NodesPart` | app/ui/src/knowledge-graph-view.ts:84-118 | Every node is pushed away from every other one that does not coincide with it |
| `KnowledgeGraphLayout.EndsMeet` | app/ui/src/knowledge-graph-view.ts:98-118 | Every edge draws its two ends together |
| `KnowledgeGraphLayout.TwoNodesPart` | app/ui/src/knowledge-graph-view.ts:70-118 | Left alone, two nodes move apart along the line between them |
| `LocalGraphLayout.ComputeLayout` | app/ui/src/knowledge-local-graph.ts:78-154 | The in-place computation gives exactly seventy rounds from the circle, over the known edges |
| `LocalGraphLayout.NudgeIsApart` | app/ui/src/knowledge-local-graph.ts:116-121 | Coinciding nodes are nudged to a non-zero distance, so nothing is divided by zero |
| `LocalGraphLayout.PushParts` | app/ui/src/knowledge-local-graph.ts:109-130 | Two nodes that are not too close push each other apart, along the line between them and with the inverse of their distance |
| `LocalGraphLayout.NudgeParts` | app/ui/src/knowledge-local-graph.ts:117-128 | Nodes closer than that part in the direction of their nudge |
| `LocalGraphLayout.PullDraws` | app/ui/src/knowledge-local-graph.ts:131-143 | An edge draws its source straight to its target, with the square of their distance over ninety |
| `LocalGraphLayout.DriftFollows` | app/ui/src/knowledge-local-graph.ts:144-151 | A coordinate at rest comes closer to the centre by 0.3%; a velocity takes it its own way, the further the faster, by at most 40 before the pull |
| `LocalGraphLayout.KnownEdgesAre` | app/ui/src/knowledge-local-graph.ts:97-100 | Every edge between shown nodes is kept, as often as it is listed, and no other |
| `LocalGraphLayout.SeedsLieOnCircle` | app/ui/src/knowledge-local-graph.ts:83-95 | The nodes start on a circle around the centre |
| `LocalGraphLayout.NodesStayNear` | app/ui/src/knowledge-local-graph.ts:143-152 | After `t` rounds no coordinate is further from the centre than the reach, whatever the forces |
| `LocalGraphLayout.ReachIsBounded` | app/ui/src/knowledge-local-graph.ts:143-152 | The reach is at most the seed radius plus 40 per round, and never more than 13294 |
| `AssistantOutput.NoOpeningTagSurvives` | app/ui/src/assistant-output.ts:31-38 | For every text, no complete opening reasoning tag is left |
| `AssistantOutput.OpenIff` | app/ui/src/assistant-output.ts:16-20 | An opening tag is found exactly where its characters stand, independent of what surrounds them |
| `AssistantOutput.CloseIff` | app/ui/src/assistant-output.ts:16-18 | The same for closing tags |
| `ReasoningStream.ReasoningNeverShows` | app/ui/src/assistant-output.ts:15-38 | For every opening tag without a closing tag in it: from the complete opening tag on, every prefix of tag, reasoning, tag, answer is shown as a prefix of the answer; nothing before the closing tag, the whole answer at the end |
| `ReasoningBlocks.BlocksNeverShow` | app/ui/src/assistant-output.ts:15-38 | For any number of blocks, none included, with plain text before, between and behind them in which no opening tag begins, and for every prefix: outside the blocks exactly the plain text so far is shown, with a half received opening tag as it stands; inside a block no more than that, and all of it if no opening tag begins in it; at the end the whole plain text. Only leading white space goes, once a tag has begun |
| `ReasoningStream.OpeningTagHidesIff` | app/ui/src/assistant-output.ts:16-20 | An opening tag hides every reasoning at every moment if and only if there is no closing tag among its attributes |
| `ReasoningStream.OddOpeningTagShowsReasoning` | app/ui/src/assistant-output.ts:16-20 | With a closing tag in it, whatever plain text follows the opening tag is shown |
| `ReasoningStream.OnlyFirstClosingTagGoes` | app/ui/src/assistant-output.ts:34 | With closing tags only, what precedes the first goes and everything after it is shown |
| `ReasoningStream.ClosingTagSurvives` | app/ui/src/assistant-output.ts:34 | A second closing tag is left in what is shown |
| `ReasoningBlocks.OrdinaryTextIsKept` | app/ui/src/assistant-output.ts:31-38 | Any text in which no tag begins is shown as it is, leading white space included |
| `ReasoningBlocks.NothingToStrip` | app/ui/src/assistant-output.ts:32-33 | A text without complete tags loses at most its leading white space, and not even that without the start of a tag |
| `RetryPolicy.DelayForAttempt` | app/llm-svc/src/routing.rs:84-101 | The mutable computation gives the specified delay, with 64-bit wrap-around and the panic of a remainder by zero |
| `RetryPolicy.PlainDelayIsNominal` | app/llm-svc/src/routing.rs:84-93 | Behind the last attempt there is no delay; without jitter the delay is exactly the nominal one |
| `RetryPolicy.PanicsIff` | app/llm-svc/src/routing.rs:90-97 | For every policy and attempt, wrap-around included: with jitter it panics if and only if the cap is below 4 ms or less than 4 ms is left of the shifted base; from the third attempt on, if and only if all remaining bits of the base are shifted out |
| `RetryPolicy.PanicsInRangeIff` | app/llm-svc/src/routing.rs:94-97 | Without overflow: if and only if the nominal delay is under 4 ms |
| `RetryPolicy.WithinAnEighthIff` | app/llm-svc/src/routing.rs:94-98 | A jittered delay is within an eighth of the nominal one if and only if half the base is |
| `RetryPolicy.AlwaysWithinAnEighth` | app/llm-svc/src/routing.rs:89-98 | With a cap no lower than a base of at least 4 it always is, for every process id |
| `RetryPolicy.MaximumIsExceededIff` | app/llm-svc/src/routing.rs:91-98 | Some process id pushes the delay over the configured maximum if and only if the longest jittered delay is over it or half the base is |
| `RetryPolicy.MaximumCanBeExceeded` | app/llm-svc/src/routing.rs:91-98 | In particular whenever a cap of at least 12 ms is reached |
| `RetryPolicy.DelaysGrow` | app/llm-svc/src/routing.rs:89-98 | Below the cap successive delays strictly increase, whatever the jitter |
| `RetryPolicy.TotalIsBounded` | app/llm-svc/src/routing.rs:84-101 | The first `n` uncapped delays add up to at most 9/8 of base times 2^n - 1 |

## Left out

- Rendering, focus, labels, icons, translated notes and the `lastError` copy of the permission controller; `onPending`.
- Diagnostic details and error classification of the readiness controller; only the phase, attempt and handshake are kept.
- Parsing and printing JSON: a parser and a printer are parameters, related by a round-trip property where one is needed.
- UTF-8 decoding of chunks: the model starts from decoded text.
- A synchronous flush callback: a flush always runs later, as it does with the default scheduler.
- Reconnecting while an attempt is still running: `reconnect()` is modelled once the previous attempt has settled.
- Events skipped between a disconnect and the next snapshot reach the view but not `onEvent`; the theorems about the view say nothing of `onEvent`.
- `EvStreamProperties.ChunkingKeepsOutcome`: is stated for chunkings within the buffer cap, because beyond it the source drops the connection.
- The progress ticker of the session stream; its events are pushed like any other.
- `EndToEnd.EndToEnd`: is stated for ascending logs that end at their terminal; what events after a terminal do is said by `TerminalReachesReaderIff` and `TextIgnoresChunksIff`.
- `ResumeProperties.ResumeConvergesIff`: quantifies over continuations of the same kind, ascending and ending at their terminal.
- The redaction of shell summaries and the formatting of relative paths: the path formatting is a parameter, row labels are left out.
- Building the system prompt, workspace block, skill block, user block and single file blocks: these texts are parameters of the planner, and so are the fixed envelope strings, which the theorems hold for all of.
- Rounding of `remaining * 0.55` in floating point: the model takes 55/100 exactly, rounded down.
- The wording of budget failures, and the included metadata, which repeats the entries.
- Sanitizing text for display and marking unverified file actions in turn finalization: both are function parameters. The watchdog's message text is a parameter as well.
- `conv.select` failing half way and other writers of the conversation state are one event each; how they arise is not modelled.
- What the conversation list holds: its reload in `setRuntimePhase` is a step of its own, whose result plays no part, as in the source.
- The debounced activity refresh, timing marks and bubble updates around finalization.
- Lower-casing and `localeCompare` are parameters; the latter is assumed to be a total preorder.
- The popup controller and the cached index of the mention typeahead.
- Floating-point rounding, infinities and NaN: vectors, scores and layouts are over real numbers, and a square root is any function with its defining property.
- The width of `rank` (32 bits): ranks are unbounded, which differs only beyond two thousand million documents.
- Sine and cosine are parameters bounded by 1; node positions before the first round of the Microsoft 365 layout are arbitrary.
- Nodes of the layouts are array elements, velocities and positions two arrays of points; the source's node objects hold both, and edges refer to nodes by reference instead of by index. Duplicate node identifiers are not modelled.
- Tag names are compared by ASCII case folding plus the Kelvin sign; the later narration clean-up of assistant text is not modelled.
- The process id mixed into the jitter is an arbitrary 32-bit number; a debug build, which panics on overflow instead of wrapping, is not modelled.
- `RetryPolicy.WithinAnEighthIff`: requires that the exponential step does not overflow 64 bits and that the cap leaves room for the jitter; the panics of overflowing steps are covered by `PanicsIff`.
- Service clients, gRPC and HTTP wiring, the desktop shell, provider readiness and routing decisions: plumbing, or finite case splits that would only add easy members.
