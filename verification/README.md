# ClawHUD: protocols, attribution, analysis and layout

ClawHUD is a Windows HUD for handheld PCs. It shows frame rates and sensor values over games, is
controlled over a named pipe by other programs, and comes with a diagnostic that judges whether
variable refresh is active. This project models the parts whose guarantees span several functions
or several threads, and proves them for every input, every run or every interleaving:

- **Runtime control** (`DispatchBridge`, `DispatchBridgeRuns`, `RuntimeControlDispatchBridge`,
  `ControlExecution`, `PipeWorker`, `RuntimeShutdown`). Pipe threads queue requests and block; the
  main thread drains them; stopping races with both and wake-ups can fail. Each mutex-held region is
  one step of a transition relation with any number of producers, drains and stops. The class
  `RuntimeControlDispatchBridge` performs runs of that relation, so the theorems about runs apply to
  it. The pipe worker is a control-state machine, and both are composed with the main thread's join.
- **FPS attribution and process tracking** (`ProcessTracking`, `PresentMonSession`, `FpsAttribution`,
  `FpsStaleHold`, `RenderVerification`). Two visibility modes share one FPS value, one query and one
  reference-counted tracking table. The classes carry, as ghost state, which process and which query
  registration produced a value and who holds a process.
- **Cached telemetry** (`TelemetryRetention`, `HudTelemetryAggregator`, `BatteryPowerEstimator`): incremental caches against
  their meaning over the whole history.
- **HUD lifecycle** (`HudPresentation`, `HudController`, `ResumeRecovery`, `EcHelper`). Window-system
  calls succeed or fail as they like; settings are rolled back, the HUD stays hidden while suspended
  or recovering, recovery is bounded, and so is the number of elevation prompts.
- **VRR analysis** (`Permutation`, `Statistics`, `VrrFrames`, `VrrPresentation`, `CadenceAnalysis`,
  `MeasurementEpoch`, `VrrVerdict`, `ForegroundTracker`). Loops over captured frames and timestamps
  are proved equal to brute-force counts; the verdict is proved against a table of conditions;
  32-bit ticks are compared with true times.
- **HUD text** (`HudUnits`, `HudLayout`): finding unit suffixes, cutting a value into pieces,
  measuring, placing and drawing the line.

Doubles and floats are reals; a double that may be an infinity or a NaN is a datatype with a
`NotFinite` case. Quantile ranks use exact percentages. Ticks of the performance counter are 64-bit
machine integers with proved absence of wrap-around, and millisecond ticks wrap at 32 bits. What the
environment decides (Win32, the PresentMon service, the game session, the text engine) is a
parameter, an event, or a nondeterministic choice in a method body. A presentation can be declared
to hide reliably (`hidesReliably`) or to succeed in everything else (`works`); contracts that need
this say so.

Results that a reader may not expect:

- A request answered with RuntimeUnavailable may nevertheless have been executed, because a failed
  wake can race with a drain (`UnavailableMayHaveRun`). If the producer still finds its request in
  the queue, it never runs (`WithdrawnInTimeNeverRuns`); if it does not and nobody has answered, the
  request runs, before or later, if and only if a drain with a handler holds it
  (`WithdrawnTooLateMayRun`). A request answered with ShuttingDown by a stop never runs.
- Handing out in enqueue order can be lost exactly where a drain begins, with a handler, while an open
  request is queued and a drain that waits in its handler still has an open request to hand out
  (`OrderLostExactlyWhenRisky`); a run from the start shows it (`NestedDrainBreaksOrder`), and runs
  that avoid it keep the order (`EnqueueOrderFromStart`).
- Joining the pipe worker, once the bridge is stopped, returns in every case if and only if the worker
  has no unanswered call in which it sleeps, or for which it is about to send a wake that can get
  through (`JoinReturnsExactlyWhenSafe`). The order that `StopRuntimeSources` uses meets this when it
  is not called from inside a drain (`BridgeFirstIsSafe`); inside a drain the join can hang (`StopInsideDrainCanHang`), and the
  opposite order can strand the worker for ever (`PipeFirstCanStrand`).
- An approved shutdown is posted exactly once, as the next thing after its response was written and the
  connection closed, unless the worker is being stopped just then (`PostedExactly`).
- Re-initializing the provider keeps the tracking counts right if and only if no lease is
  outstanding (`OpenConservesExactlyWithoutLeases`).
- In Always mode a displayed value belongs to the current foreground process, but was read through a
  query older than the foreground changes before it if and only if a query was bound to that process
  before them (`AlwaysModeKeepsOldQueryExactly`, `OldQueryIsReached`).
- In both modes the number displayed is that of the newest measurement for the present target, until the
  first sample two seconds later (`DisplayedIsNewestMeasured`).
- The service's answer to a stop is ignored. What it is left tracking is what somebody holds together
  with the processes whose stop failed and that were not started since (`TrackingConserved`,
  `FailedStopLingers`); the reference counts are right all the same (`CountsConserved`).
- An event with a tick in the measurement epoch is missed if it is delivered between reading the
  start tick and beginning the epoch (`EarlyMissedExactly`, `EarlyEventMissed`).
- A measurement epoch that is interrupted replaces its boundary, with an earlier or a later end. Its
  outcome is independent of the order of delivery if and only if a foreign event lies before both, or
  none that had happened at the call lies between them (`InterruptedOrderIrrelevantExactly`, with an
  input on either side: `EarlyEndOrderMatters`, `LateEndOrderMatters`); such an epoch is invalid anyway.
- The 32-bit tick tests take an event for one in the epoch exactly when some number of wraps brings
  it there (`FlagsModuloWrap`), which tells the times they misjudge (`MisjudgedExactly`,
  `OldEventMistaken`).

## Model

| member | source | states |
|---|---|---|
| DispatchBridge.Preserved | src/ClawHUD/RuntimeControlDispatchBridge.cpp:15-133 | every step of every thread keeps the invariant: each uncompleted call is queued, in the unprocessed part of a batch, or with its own producer; refusing implies an empty queue; each call has been handed out at most once |
| DispatchBridgeRuns.NoLostWaiter | src/ClawHUD/RuntimeControlDispatchBridge.cpp:65-110 | in every reachable state each uncompleted request is queued, held by a drain or stop, or withdrawn by its own producer; a sleeping producer that is queued has a wake message pending |
| DispatchBridgeRuns.AtMostOnce | src/ClawHUD/RuntimeControlDispatchBridge.cpp:112-133 | over any run no request is passed to the handler twice |
| DispatchBridgeRuns.WriteOnce | src/ClawHUD/RuntimeControlDispatchBridge.cpp:54-63 | a result, once written, never changes, whoever completes the request again |
| DispatchBridgeRuns.AnswersMatch | src/ClawHUD/RuntimeControlDispatchBridge.cpp:43-63 | a producer returns its request's one result; a result not from the handler echoes operation and id and says ShuttingDown if a stop gave it and RuntimeUnavailable otherwise; only an executed request can ask for shutdown |
| DispatchBridgeRuns.StoppedNeverRuns | src/ClawHUD/RuntimeControlDispatchBridge.cpp:25-35 | a request that Stop answered was never handed to the handler and never will be |
| DispatchBridgeRuns.UnavailableMayHaveRun | src/ClawHUD/RuntimeControlDispatchBridge.cpp:95-110 | an input: a run in which a request is answered RuntimeUnavailable and yet executed |
| DispatchBridgeRuns.WithdrawnInTimeNeverRuns | src/ClawHUD/RuntimeControlDispatchBridge.cpp:95-110 | a request that its producer still finds in the queue after a failed wake was never handed out and never will be, in any run |
| DispatchBridgeRuns.WithdrawnTooLateMayRun | src/ClawHUD/RuntimeControlDispatchBridge.cpp:95-133 | one that it no longer finds, though nobody has answered it, has been or can still be handed out if and only if a drain with a handler holds it |
| DispatchBridgeRuns.EnqueueOrderFromStart | src/ClawHUD/RuntimeControlDispatchBridge.cpp:112-133 | requests are handed out in enqueue order in every run none of whose drains begins at risk |
| DispatchBridgeRuns.OrderLostExactlyWhenRisky | src/ClawHUD/RuntimeControlDispatchBridge.cpp:112-133 | after an orderly past, a drain that begins can lead to disorder without any further drain if and only if it has a handler, an open request is queued, and a suspended drain still has an open request to hand out |
| DispatchBridgeRuns.HandsOut | src/ClawHUD/RuntimeControlDispatchBridge.cpp:112-133 | the main thread alone comes to hand a pending request out, while those further down its stack stay pending |
| DispatchBridgeRuns.NestedDrainBreaksOrder | src/ClawHUD/RuntimeControlDispatchBridge.cpp:112-133 | an input: a run from the start, with the inner drain finishing first, that hands out 0, 2, 1 |
| DispatchBridgeRuns.Unblocked | src/ClawHUD/RuntimeControlDispatchBridge.cpp:95-110 | while some producer has not returned, a thread inside the bridge, or the main thread's pending drain, can take a step |
| DispatchBridgeRuns.EveryProducerReturns | src/ClawHUD/RuntimeControlDispatchBridge.cpp:25-35 | from every reachable state, the steps that the threads already inside owe are bounded by the state, and end only when every producer has returned |
| DispatchBridgeRuns.CompletionExists | src/ClawHUD/RuntimeControlDispatchBridge.cpp:25-35 | and such a run exists from every reachable state |
| DispatchBridgeRuns.StoppedProducerReturnsAlone | src/ClawHUD/RuntimeControlDispatchBridge.cpp:86-110 | once stopped, with no batch unfinished, each producer returns by at most four of its own steps, even when its wake fails |
| DispatchBridgeObject.RuntimeControlDispatchBridge.Start | src/ClawHUD/RuntimeControlDispatchBridge.cpp:15-23 | starts accepting with the given thread, wake and handler, without touching queue or calls |
| DispatchBridgeObject.RuntimeControlDispatchBridge.Stop | src/ClawHUD/RuntimeControlDispatchBridge.cpp:25-35 | afterwards nothing is queued or accepted, exactly the queued calls are answered, an existing answer is kept, and the handler gets nothing |
| DispatchBridgeObject.RuntimeControlDispatchBridge.DrainOnMainThread | src/ClawHUD/RuntimeControlDispatchBridge.cpp:112-133 | exactly the queued unanswered calls are answered, with what the handler says of each or with RuntimeUnavailable, and exactly those are handed out, in queue order |
| DispatchBridgeObject.RuntimeControlDispatchBridge.Dispatch | src/ClawHUD/RuntimeControlDispatchBridge.cpp:65-110 | the answer in each of the five cases: refusing, own thread, woken and about to wait, and withdrawn after a failed wake, with the resulting queue and calls |
| DispatchBridgeObject.RuntimeControlDispatchBridge.Awake | src/ClawHUD/RuntimeControlDispatchBridge.cpp:107-109 | the end of the wait: a woken producer whose request has been answered returns that answer, and nothing else changes |
| DispatchBridgeObject.RuntimeControlDispatchBridge.DispatchAndDrain | src/ClawHUD/RuntimeControlDispatchBridge.cpp:65-133 | queueing, draining and waking together return what the handler says of the request |
| DispatchBridgeObject.WithoutNewcomer | src/ClawHUD/RuntimeControlDispatchBridge.cpp:98-105 | withdrawing the call that was queued last restores the queue |
| ControlExecution.RejectedWithoutEffect | src/ClawHUD/RuntimeControlWireMapping.cpp:184-302 | helper: a request refused for operand or operation changes nothing, no request changes two things, and shutdown is armed exactly by RequestShutdown |
| ControlExecution.ExecutionMeans | src/ClawHUD/RuntimeControlWireMapping.cpp:184-302 | a setting is changed if and only if the operation is its own and the operand is its value on the wire; and when each status is given |
| ControlExecution.WireValues | src/ClawHUD/RuntimeControlWireMapping.cpp:26-68 | helper: each number on the wire stands for at most one value of a setting, the one that is sent as that number |
| PipeWorker.StepKeepsInv | src/ClawHUD/RuntimeControlPipeServer.cpp:169-318 | every step of the worker keeps the log honest: each write answers a decoded request, and each post is the next thing after the write of an approval and its close; the log only grows |
| PipeWorker.VisitMeans | src/ClawHUD/RuntimeControlPipeServer.cpp:169-318 | one turn of the worker, client by client: what it leaves in the log is exactly what the visit calls for, with the post if and only if an approval was delivered |
| PipeWorker.StopLeadsOut | src/ClawHUD/RuntimeControlPipeServer.cpp:145-231 | helper: once the stop event is set every step brings the worker strictly closer to its exit, and no blocking location blocks |
| RuntimeShutdown.Preserved | src/ClawHUD/App.cpp:94-100 | bridge and worker together keep their invariants, and only approved results reach the worker |
| RuntimeShutdown.PostFollowsApprovedShutdown | src/ClawHUD/RuntimeControlPipeServer.cpp:266-318 | every shutdown-ready post directly follows an approved RequestShutdown whose Ok response was written and whose connection was closed |
| RuntimeShutdown.PostedExactly | src/ClawHUD/RuntimeControlPipeServer.cpp:216-221 | over any run from the start, there is a post at a place of the log if and only if an approval, its write and the close are the three entries before it; at the end of the log the post is about to be made, unless a stop came in between |
| RuntimeShutdown.PostComesNext | src/ClawHUD/RuntimeControlPipeServer.cpp:216-221 | in any reachable state without a stop, a step appends a post if and only if it is the worker's and an approval, its write and the close are the last entries |
| RuntimeShutdown.ShutdownIsPosted | src/ClawHUD/RuntimeControlPipeServer.cpp:266-318 | a run from the start, through the pending read and write, in which a RequestShutdown is answered and the post made |
| RuntimeShutdown.JoinTerminates | src/ClawHUD/RuntimeControlPipeServer.cpp:105-128 | when the worker is not at risk, every run under the join is bounded and ends with the worker gone and its pipe closed |
| RuntimeShutdown.JoinReturnsExactlyWhenSafe | src/ClawHUD/RuntimeControlPipeServer.cpp:105-128 | once the bridge is stopped, the join returns in every case if and only if the worker has no unanswered call in which it sleeps, or for which it is about to send a wake that can get through |
| RuntimeShutdown.BridgeFirstIsSafe | src/ClawHUD/App.cpp:94-100 | stopping the bridge first, outside any drain, makes the join return |
| RuntimeShutdown.StrandedForEver | src/ClawHUD/RuntimeControlPipeServer.cpp:105-128 | a stranded worker stays in its dispatch however long the other threads run |
| RuntimeShutdown.PipeFirstCanStrand | src/ClawHUD/App.cpp:96-100 | stopping the pipe server before the bridge can strand the worker |
| RuntimeShutdown.StopInsideDrainCanHang | src/ClawHUD/App.cpp:94-100 | an input for the other side: a run from the start in which the stop is called from inside a drain, and the join need not return |
| ProcessTracking.BlobHoldsEveryElement | src/ClawHUD/PresentMonProcessTelemetry.cpp:157-202 | the blob size is refused exactly on 64-bit overflow, and otherwise is the least multiple of 16 (at least 16) that holds every element |
| ProcessTracking.StartOnFirstHolder | src/ClawHUD/PresentMonApi2Client.cpp:240-250 | the start endpoint is called exactly on the first holder; the count grows exactly when tracking succeeded, for that process only |
| ProcessTracking.StopOnLastHolder | src/ClawHUD/PresentMonApi2Client.cpp:251-258 | the stop endpoint is called exactly when the last holder leaves, and the count is gone whatever it answers |
| ProcessTracking.ReadConserves | src/ClawHUD/PresentMonProcessTelemetry.cpp:204-244 | a read, through every retarget, registration, layout and poll failure, keeps the accounts; a returned rate names its process and a current or new query |
| ProcessTracking.ReadMeans | src/ClawHUD/PresentMonProcessTelemetry.cpp:204-244 | a read returns a rate if and only if the query could be bound and the poll gave a value; the rate is that value, of that process, through the query that was bound before or the one just registered |
| ProcessTracking.ReadBinds | src/ClawHUD/PresentMonProcessTelemetry.cpp:157-244 | after a read the query is bound to the process that was read, or to none, and exactly when |
| ProcessTracking.LeasesMean | src/ClawHUD/PresentMonTelemetryProvider.cpp:100-165 | which leases each event grants and takes back, with its conditions written out |
| ProcessTracking.EventConserves | src/ClawHUD/PresentMonTelemetryProvider.cpp:100-165 | every lease taken or given back, verification, read and drop keeps count = leases + FPS hold for each process |
| ProcessTracking.CountsConserved | src/ClawHUD/PresentMonTelemetryProvider.cpp:100-165 | over any run within a session, stop failures included, each process is counted once per lease and once for the FPS query, and starts and stops are called in turn |
| ProcessTracking.TrackedMeans | src/ClawHUD/PresentMonApi2Client.cpp:240-258 | for every log of calls in turn, what the service tracks is what the client believes tracked and what lingers after a failed stop |
| ProcessTracking.TrackingConserved | src/ClawHUD/PresentMonApi2Client.cpp:240-258 | over any run within a session, whatever endpoints fail, the processes the service tracks are those somebody holds and those whose stop failed and that were not started since, never both; so they are the held ones if and only if there is none of the latter |
| ProcessTracking.FailedStopLingers | src/ClawHUD/PresentMonApi2Client.cpp:251-258 | an input: one lease whose stop fails leaves a process tracked that nobody holds, and the next start is called for a tracked process |
| ProcessTracking.ReadStopsOnlyUnleased | src/ClawHUD/PresentMonProcessTelemetry.cpp:143-244 | a read, whatever fails in it, appends a stop call for a process only if nobody leases that process |
| ProcessTracking.ShutdownConserves | src/ClawHUD/PresentMonTelemetryProvider.cpp:85-99 | closing the session releases the FPS hold and leaves an empty table, keeping the accounts; leases outlive it |
| ProcessTracking.OpenConservesExactlyWithoutLeases | src/ClawHUD/PresentMonTelemetryProvider.cpp:49-99 | a new session starts with right accounts if and only if no lease is outstanding |
| PresentMonSession.ProcessTrackingRefCounts.Release | src/ClawHUD/PresentMonApi2Client.cpp:221-233 | counts down and reports, and removes, exactly the last holder |
| PresentMonSession.PresentMonApi2Client.StartTrackingProcess | src/ClawHUD/PresentMonApi2Client.cpp:240-250 | updates counts and log as the session model says, undoing the count when the endpoint fails |
| PresentMonSession.PresentMonApi2Client.StopTrackingProcess | src/ClawHUD/PresentMonApi2Client.cpp:251-258 | updates counts and log as the session model says, whatever the endpoint answers, and returns that answer |
| PresentMonSession.PresentMonApi2Client.CloseSession | src/ClawHUD/PresentMonApi2Client.cpp:197-203 | no session, an empty table and an empty log of calls |
| PresentMonSession.PresentMonApi2Client.OpenSession | src/ClawHUD/PresentMonApi2Client.cpp:205-206 | a session exists afterwards if the endpoint opens one or one existed |
| PresentMonSession.LayOutBlob | src/ClawHUD/PresentMonProcessTelemetry.cpp:170-196 | the loop over elements computes the model's blob size or refuses |
| PresentMonSession.PresentMonProcessTelemetry.RetargetProcess | src/ClawHUD/PresentMonProcessTelemetry.cpp:157-202 | the whole session state after a retarget, with every failure |
| PresentMonSession.PresentMonProcessTelemetry.Read | src/ClawHUD/PresentMonProcessTelemetry.cpp:204-244 | the session state and the rate read, which ReadMeans tells |
| PresentMonSession.PresentMonTelemetryProvider.Initialize | src/ClawHUD/PresentMonTelemetryProvider.cpp:49-84 | the whole session state after every failure; the invariant holds afterwards if and only if initializing failed or no lease is outstanding |
| PresentMonSession.PresentMonTelemetryProvider.Shutdown | src/ClawHUD/PresentMonTelemetryProvider.cpp:85-99 | the session state after closing, with the invariant kept |
| PresentMonSession.PresentMonTelemetryProvider.BeginGameRenderVerification | src/ClawHUD/PresentMonTelemetryProvider.cpp:118-159 | a lease is granted exactly as the model says, dropped again when the flush fails |
| PresentMonSession.PresentMonProcessLease.MoveFrom | src/ClawHUD/PresentMonTelemetryProvider.cpp:6-16 | a move releases what was held and takes over the other lease, keeping the number of leases per process right |
| PresentMonSession.PresentMonProcessLease.Release | src/ClawHUD/PresentMonTelemetryProvider.cpp:17-24 | a lease is given back once |
| FpsAttribution.EventAttributes | src/ClawHUD/ProductionTelemetryController.cpp:210-441 | each sample, mode switch, foreground event, target change, lease event and shutdown keeps the displayed value attributed to the current target, whatever endpoints fail |
| FpsAttribution.DisplayedFpsBelongsToTarget | src/ClawHUD/ProductionTelemetryController.cpp:210-441 | after any run a displayed FPS was measured for the process that the mode's resolution yields now, and in InGameOnly through a query registered after the last target set or mode switch |
| FpsAttribution.SampleShows | src/ClawHUD/ProductionTelemetryController.cpp:210-248 | in either mode, a sample whose poll measures x for the target displays x and holds it |
| FpsAttribution.DisplayedIsNewestMeasured | src/ClawHUD/ProductionTelemetryController.cpp:210-248 | over any run with a monotone clock, the number displayed is that of the newest measurement, if since then nothing dropped it and no sample came two seconds later; otherwise there is none |
| FpsAttribution.AlwaysModeKeepsOldQueryExactly | src/ClawHUD/ProductionTelemetryController.cpp:372-397 | in Always mode, after any foreground changes, the next sample's rate comes through a query older than all of them if and only if a query was bound before them to the process then in the foreground |
| FpsAttribution.OldQueryIsReached | src/ClawHUD/ProductionTelemetryController.cpp:372-397 | an input: a run from the start that leaves a process, returns to it and shows a rate of the old query |
| FpsAttribution.ProductionTelemetryController.SampleFps | src/ClawHUD/ProductionTelemetryController.cpp:210-248 | the whole controller and session state after a sample, whose displayed number SampleShows tells |
| FpsAttribution.ProductionTelemetryController.StopFpsSampling | src/ClawHUD/ProductionTelemetryController.cpp:301-310 | the state after stopping, with and without clearing the target |
| FpsAttribution.ProductionTelemetryController.SetVisibilityMode | src/ClawHUD/ProductionTelemetryController.cpp:345-370 | the state after a mode switch |
| FpsAttribution.ProductionTelemetryController.OnForegroundProcessChanged | src/ClawHUD/ProductionTelemetryController.cpp:372-397 | the state after a foreground change, in either mode |
| FpsAttribution.ProductionTelemetryController.SetInGameForegroundProcess | src/ClawHUD/ProductionTelemetryController.cpp:399-427 | the state after an in-game target is set |
| FpsAttribution.ProductionTelemetryController.ClearInGameForegroundProcess | src/ClawHUD/ProductionTelemetryController.cpp:429-441 | the state after the in-game target is cleared |
| FpsAttribution.ProductionTelemetryController.Handle | src/ClawHUD/ProductionTelemetryController.cpp:210-441 | opening, closing, lease events and the calls above take the object exactly where the run model says |
| FpsAttribution.ProductionTelemetryController.Run | src/ClawHUD/ProductionTelemetryController.cpp:210-441 | over any sequence of these the object is in the state of the run model, so its displayed FPS belongs to the current target |
| FpsAttribution.AlwaysModeFpsTarget.AcceptSample | src/ClawHUD/AlwaysModeFpsTarget.cpp:14-27 | a sample is published only for the process it was read for |
| FpsStaleHold.HoldShowsNewest | src/ClawHUD/FpsStaleHold.cpp:5-38 | with a monotone clock the hold contains exactly the newest valid value of the current process's streak that is younger than two seconds |
| FpsStaleHold.StaleHold.Observe | src/ClawHUD/FpsStaleHold.cpp:5-38 | the value shown and the new state of one poll |
| RenderVerification.TrueIsEarned | src/ClawHUD/PresentMonFrameTelemetry.cpp:200-312 | after any run, true is answered only if a frame with a positive interval arrived for the process after its last successful begin |
| RenderVerification.TrueStays | src/ClawHUD/PresentMonFrameTelemetry.cpp:222-312 | a true answer stays true until the next begin or shutdown |
| RenderVerification.FailedFlushDisarmsAll | src/ClawHUD/PresentMonFrameTelemetry.cpp:200-220 | after a failed flush no process gets an answer until the next begin |
| RenderVerification.DisplayedFrameIsSeen | src/ClawHUD/PresentMonFrameTelemetry.cpp:100-108 | helper: a displayed frame in the consumed batch is not missed |
| RenderVerification.AnswerMeans | src/ClawHUD/PresentMonFrameTelemetry.cpp:222-312 | a poll answers exactly when ready and armed for the process and, unless a frame was seen, the service succeeds; and true exactly when a frame was seen or one of the first 64 records was displayed |
| RenderVerification.PollTakes | src/ClawHUD/PresentMonFrameTelemetry.cpp:222-312 | a poll takes the records it is given out of the queue of its process, and nothing else |
| RenderVerification.NewFrameIsSeen | src/ClawHUD/PresentMonFrameTelemetry.cpp:200-312 | after any run, a displayed frame among the first 64 arrivals since a successful begin makes the next poll answer true |
| RenderVerification.PresentMonFrameTelemetry.BeginVerification | src/ClawHUD/PresentMonFrameTelemetry.cpp:200-220 | the state of the run model after a begin; armed exactly when ready, the process is not 0 and the flush succeeded |
| RenderVerification.PresentMonFrameTelemetry.PollDisplayedFrame | src/ClawHUD/PresentMonFrameTelemetry.cpp:222-312 | the state and the answer of the run model after consuming one batch of at most 64 records |
| RenderVerification.PresentMonFrameTelemetry.Initialize | src/ClawHUD/PresentMonFrameTelemetry.cpp:110-138 | a failed registration leaves the object shut down, a successful one ready and not armed |
| RenderVerification.PresentMonFrameTelemetry.Shutdown | src/ClawHUD/PresentMonFrameTelemetry.cpp:140-152 | not ready, not armed, no frame seen |
| RenderVerification.PresentMonFrameTelemetry.Run | src/ClawHUD/PresentMonFrameTelemetry.cpp:110-312 | over any sequence of calls and arriving frames the object is in the state of the run model |
| TelemetryRetention.RetainedIsNewestOfLast | src/ClawHUD/TelemetryRetention.h:8-25 | the retained value is the newest one among the last `threshold` polls, or of all polls for threshold 0, and nothing otherwise |
| TelemetryRetention.RetainedField.Update | src/ClawHUD/TelemetryRetention.h:8-25 | the cached value and the missing count after one poll |
| HudTelemetryAggregator.StepReachesFields | src/ClawHUD/HudTelemetryAggregator.cpp:25-87 | helper: every poll and reset reaches every field of its own source with that field's own value, and no other field |
| HudTelemetryAggregator.AllKeptNext | src/ClawHUD/HudTelemetryAggregator.cpp:25-87 | one event keeps every one of the eleven fields at what its own polls since the last reset of its source leave |
| HudTelemetryAggregator.AllKeptOverRun | src/ClawHUD/HudTelemetryAggregator.cpp:25-87 | over any run each of the eleven fields is what its own polls since the last reset of its source leave |
| HudTelemetryAggregator.ShownIsRecent | src/ClawHUD/HudTelemetryAggregator.cpp:89-103 | a shown value is the newest of its last three polls since the reset of its source, and nothing is shown exactly when these are empty |
| HudTelemetryAggregator.Aggregator.IngestSystem | src/ClawHUD/HudTelemetryAggregator.cpp:38-60 | all fields after a system poll |
| HudTelemetryAggregator.Aggregator.Reset | src/ClawHUD/HudTelemetryAggregator.cpp:62-87 | nothing is retained |
| BatteryPowerEstimator.SamplesAreRecentHistory | src/ClawHUD/ProductionTelemetryController.cpp:122-173 | with a monotone clock the samples are, over any run of EC samples, power readings and sampling resets, exactly the valid on-battery readings since the last of the resets within 20 s of the newest |
| BatteryPowerEstimator.ReadyHasAverage | src/ClawHUD/BatteryPowerEstimator.cpp:31-47 | over any run, ten samples that span nine seconds have a positive sum, so that there is an average |
| BatteryPowerEstimator.Estimator.Observe | src/ClawHUD/BatteryPowerEstimator.cpp:16-29 | the samples after one reading |
| BatteryPowerEstimator.Estimator.AveragePowerW | src/ClawHUD/BatteryPowerEstimator.cpp:37-47 | there is an average exactly when at least ten samples span at least nine seconds and their sum is positive; times their number it is their sum |
| BatteryPowerEstimator.SumConcat | src/ClawHUD/BatteryPowerEstimator.cpp:37-47 | helper: the sum of samples in a row is the sum of the sums |
| BatteryPowerEstimator.BatterySampling.SampleSystemEc | src/ClawHUD/ProductionTelemetryController.cpp:122-158 | samples and power source after an EC sample, including the reset on a missing reading |
| BatteryPowerEstimator.BatterySampling.SampleBattery | src/ClawHUD/ProductionTelemetryController.cpp:167-173 | a failed power reading forgets the source and the samples |
| BatteryPowerEstimator.BatterySampling.ResetSamplingState | src/ClawHUD/ProductionTelemetryController.cpp:319-336 | a reset forgets the source and the samples |
| HudPresentationModel.HudPresentation.Initialize | src/ClawHUD/HudPresentation.cpp:35-126 | does nothing when initialized; otherwise is initialized exactly on success, hidden, with the given options stored |
| HudPresentationModel.HudPresentation.RefreshDisplayIfNeeded | src/ClawHUD/HudPresentation.cpp:437-457 | after a display change the presentation is rebuilt from its stored options and never becomes visible if it was not |
| HudPresentationModel.HudPresentation.Show | src/ClawHUD/HudPresentation.cpp:1018-1041 | a failed show makes nothing visible, and the stored options survive |
| HudPresentationModel.HudPresentation.Hide | src/ClawHUD/HudPresentation.cpp:1043-1052 | reports success exactly when hidden |
| HudControllerModel.HudController.Recreate | src/ClawHUD/HudController.cpp:86-119 | whatever fails, a presentation that is initialized afterwards agrees with the current settings, and is visible only if that was to be restored |
| HudControllerModel.HudController.SetFont | src/ClawHUD/HudController.cpp:199-216 | the font is the requested or the previous one, reported as such; other settings, agreement and invisibility are kept |
| HudControllerModel.HudController.SetSizeOffset | src/ClawHUD/HudController.cpp:239-261 | the clamped requested size or the previous one, with agreement kept |
| HudControllerModel.HudController.SetBackgroundMode | src/ClawHUD/HudController.cpp:218-237 | the requested mode or the previous one, with agreement kept, including the alignment once it matters |
| HudControllerModel.HudController.SetAlignment | src/ClawHUD/HudController.cpp:171-197 | always applied on a full-width bar; otherwise the requested or the previous one, with agreement kept |
| HudControllerModel.HudController.SetOpacity | src/ClawHUD/HudController.cpp:263-282 | the rounded, clamped opacity, or no change at all when the live window refuses it |
| HudControllerModel.HudController.ReconcileVisibility | src/ClawHUD/HudController.cpp:315-359 | with a working presentation the HUD is visible afterwards, and sampling started, exactly if it is enabled and either overridden to show, or not overridden and always shown or in the foreground; otherwise sampling stops and it is hidden unless hiding fails |
| ResumeRecovery.App.HandleSystemSuspend | src/ClawHUD/App.cpp:356-366 | suspended, recovery cancelled, HUD hidden |
| ResumeRecovery.App.HandleSystemResume | src/ClawHUD/App.cpp:368-386 | recovery active from attempt 0, or the running one continued, HUD hidden |
| ResumeRecovery.App.TryResumeRecovery | src/ClawHUD/App.cpp:388-485 | each tick ends the recovery or uses one attempt; a living game that is not in the foreground is waited for; otherwise, with a working presentation, the recovery ends with HUD and sampling as the last foreground answer calls for, or goes on, hidden, if the game left the foreground in between |
| ResumeRecovery.App.ReconcileHudVisibility | src/ClawHUD/App.cpp:667-683 | hidden while suspended or recovering; otherwise, with a working presentation, visible and sampling exactly as settings, override and the foreground answer call for |
| ResumeRecovery.App.SetHudEnabled | src/ClawHUD/App.cpp:487-512 | disabling leaves nothing visible and no sampling; enabling, unless gated, leaves HUD and sampling as the foreground answer calls for |
| ResumeRecovery.App.HandleHudToggleHotkey | src/ClawHUD/App.cpp:651-665 | overrides towards the opposite of what is visible; ignored while disabled |
| ResumeRecovery.App.Start | src/ClawHUD/App.cpp:250-262 | a persisted enable is restored with an initialized presentation, or given up when that cannot be made |
| ResumeRecovery.App.Run | src/ClawHUD/App.cpp:356-683 | from the start on, over any run of events the HUD is never visible, and nothing sampled, at rest while suspended or recovering, and without a new resume a recovery is over after six ticks |
| EcHelper.EcHelperClient.EnsureConnected | src/ClawHUD/EcHelperClient.cpp:70-118 | asks for elevation at most once, and only if the launch has not been used up |
| EcHelper.EcHelperClient.Send | src/ClawHUD/EcHelperClient.cpp:204-230 | a payload delivered is what the embedded controller has just said of the quantity asked for, whichever way the transfer was split; while the connection lasts, what was said and fits is delivered; a broken transfer drops the connection but not the used launch |
| EcHelper.EcHelperClient.Decode | src/ClawHUD/EcHelperClient.cpp:212-229 | a response is taken exactly when its version is 1, its length at most 128 and its success flag set; its payload is, byte by byte, as many bytes from the fifteenth on, and otherwise the stage says why not |
| EcHelper.EcHelperClient.Exchange | src/ClawHUD/EcHelperClient.cpp:204-211 | a completed exchange yields the answer to this request and leaves nothing under way; a broken one drops the connection |
| EcHelper.Pipe.Serve | src/ClawHUD.EcHelper/main.cpp:64-82 | the helper answers the request it read, or is gone, perhaps within its answer |
| EcHelper.Pipe.Answer | src/ClawHUD.EcHelper/main.cpp:66-80 | the answer says success exactly if the quantity asked for was read and fits, with what was read; nothing is read for a request that is not allowed |
| EcHelper.AllowedExactly | src/shared/EcHelperProtocol.h:66-79 | the helper answers exactly the seven requests that a sample makes |
| EcHelper.SessionFailures | src/ClawHUD/EcHelperClient.h:13-30 | helper: which bytes of a response name a failure of the whole session |
| EcHelper.ResponseHolds | src/shared/EcHelperProtocol.h:53-61 | helper: at which byte a response holds what |
| EcHelper.Pipe.WriteAll | src/ClawHUD/EcHelperClient.cpp:144-172 | however the pipe splits the transfer, all bytes go out in order, or a proper part of them and a failure |
| EcHelper.Pipe.ReadAll | src/ClawHUD/EcHelperClient.cpp:174-202 | however the pipe splits the transfer, the next bytes arrive in order, none lost or repeated |
| EcHelper.RoundTrip | src/ClawHUD/EcHelperClient.cpp:144-202 | a message written completely and read completely is unchanged |
| EcHelper.EcTelemetry.ReadEcTelemetry | src/ClawHUD/ProductionTelemetryController.cpp:52-120 | every answer of a sample is what the embedded controller said, during the sample, of the quantity in its place; the sample is broken off exactly after a failure of the session, its battery readings exactly at the first that fails or has an empty payload, and it never prompts when the launch is used up |
| EcHelper.EcTelemetry.StopProductionSampling | src/ClawHUD/App.cpp:611-620 | a transient stop keeps the helper and its connection, a lasting one releases it |
| EcHelper.EcTelemetry.Run | src/ClawHUD/EcHelperLifetimePolicy.h:26-38 | over any run the prompts are at most one plus the lasting stops |
| Statistics.NearestRankCounts | src/ClawHUD.Diag/VrrAnalysis.cpp:20-27 | the nearest-rank quantile is a sample with at least `rank` samples at or below it and fewer than `rank` below it |
| Statistics.QuantileMeans | src/ClawHUD.Diag/VrrAnalysis.cpp:20-27 | the p-quantile is a sample with at least p percent of the samples at or below it and less than p percent below it |
| Statistics.MedianMeans | src/ClawHUD.Diag/DiagD3dkmtCadenceAnalysis.cpp:13-20 | the median is half the sum of the two middle samples, told by counting |
| Statistics.MeanMeans | src/ClawHUD.Diag/DiagD3dkmtCadenceAnalysis.cpp:113-114 | helper: the mean times the number of samples is their sum |
| Statistics.QuantilesOrdered | src/ClawHUD.Diag/VrrAnalysis.cpp:29-44 | quantiles are ordered and lie between minimum and maximum |
| Statistics.QuantileOfPermutation | src/ClawHUD.Diag/VrrAnalysis.cpp:20-27 | a quantile does not depend on the order of the samples |
| Statistics.MedianBetween | src/ClawHUD.Diag/DiagD3dkmtCadenceAnalysis.cpp:13-20 | the median lies between minimum and maximum |
| VrrFrames.CountOfPermutation | src/ClawHUD.Diag/VrrAnalysis.cpp:138-143 | no tally depends on the order of the frames |
| VrrFrames.BreakdownNext | src/ClawHUD.Diag/VrrAnalysis.cpp:185-196 | incrementing an entry per frame yields, for each value, the number of frames that have it |
| VrrFrames.BreakdownTotal | src/ClawHUD.Diag/VrrAnalysis.cpp:182-187 | the present-mode counts sum to the frames with a known mode |
| VrrFrames.ValuesOfPermutation | src/ClawHUD.Diag/VrrAnalysis.cpp:204-210 | the collected pacing values are the same multiset for every order of the frames |
| VrrPresentation.MostDisplayed | src/ClawHUD.Diag/VrrAnalysis.cpp:144-152 | the scan in key order finds the entry with the greatest count, the least key among equals |
| VrrPresentation.SelectSwapchain | src/ClawHUD.Diag/VrrAnalysis.cpp:136-161 | the selection is what the frame counts say, including the discarded candidate's share |
| VrrPresentation.DominantMeans | src/ClawHUD.Diag/VrrAnalysis.cpp:144-161 | a swapchain is dominant if and only if it displayed at least 70 % of the process's displayed frames |
| VrrPresentation.DominantIsUniqueMaximum | src/ClawHUD.Diag/VrrAnalysis.cpp:144-161 | every other swapchain displayed at most three sevenths as many frames |
| VrrPresentation.TallyFrames | src/ClawHUD.Diag/VrrAnalysis.cpp:163-211 | the loop's tallies, breakdowns and pacing values are the frame counts and values they stand for |
| VrrPresentation.AnalyzeVrrPresentation | src/ClawHUD.Diag/VrrAnalysis.cpp:133-243 | the result is the one that the frame counts determine, on every path |
| VrrPresentation.AnalysisOfPermutation | src/ClawHUD.Diag/VrrAnalysis.cpp:133-243 | the whole analysis is the same for every order of the frames |
| VrrPresentation.AnalysisConserves | src/ClawHUD.Diag/VrrAnalysis.cpp:176-211 | mode counts sum to usable samples, the tearing answers to the frames, the two flip modes to the flips; drops are among reports among frames, and the dominant swapchain's displayed frames among its frames and among all displayed ones |
| VrrPresentation.RatePositive | src/ClawHUD.Diag/VrrAnalysis.cpp:220-221 | a display-change rate exists, and is positive, if and only if a swapchain is dominant |
| VrrPresentation.RateMeans | src/ClawHUD.Diag/VrrAnalysis.cpp:220-221 | the rate times some kept display-change interval of the dominant swapchain is 1000; half of the kept intervals are at most that long and fewer than half are shorter |
| VrrPresentation.PacingMeans | src/ClawHUD.Diag/VrrAnalysis.cpp:29-44 | each of the seven reported metrics, in its order: its sample count, p50, p95 and p99, told by counting among the kept values, and the greatest of them |
| VrrPresentation.PercentagesMean | src/ClawHUD.Diag/VrrAnalysis.cpp:212-219 | the dropped percentage times the reports is a hundred times the drops, and likewise for the flips; each exists exactly with something to divide by |
| VrrPresentation.NothingReported | src/ClawHUD.Diag/VrrAnalysis.cpp:154-161 | without a dominant swapchain no rate, percentage, metric or count is reported |
| VrrPresentation.PercentilesOrdered | src/ClawHUD.Diag/VrrAnalysis.cpp:29-44 | percentiles exist exactly when there are samples, and p50 <= p95 <= p99 <= maximum |
| VrrPresentation.ClassMeans | src/ClawHUD.Diag/VrrAnalysis.cpp:233-241 | the class in whole numbers: at least 60 known modes, nine tenths or half of them independent flips |
| CadenceAnalysis.CountWindows | src/ClawHUD.Diag/DiagD3dkmtCadenceAnalysis.cpp:72-98 | the single pass gives each window exactly the timestamps of its second, with no 64-bit wrap, and the start test never fails |
| CadenceAnalysis.WindowsConserve | src/ClawHUD.Diag/DiagD3dkmtCadenceAnalysis.cpp:81-98 | the windows together hold the timestamps before the last complete second, never the last one |
| CadenceAnalysis.AnalyzeCadence | src/ClawHUD.Diag/DiagD3dkmtCadenceAnalysis.cpp:37-142 | status in the order tested, windows, summary with its variance, and class as specified on every path |
| CadenceAnalysis.SummaryOrdered | src/ClawHUD.Diag/DiagD3dkmtCadenceAnalysis.cpp:111-118 | minimum <= median, average <= maximum |
| CadenceAnalysis.VarianceMeans | src/ClawHUD.Diag/DiagD3dkmtCadenceAnalysis.cpp:120-126 | the variance is never negative, and zero if and only if every rate equals the average |
| CadenceAnalysis.AllNearIsFixedLike | src/ClawHUD.Diag/DiagD3dkmtCadenceAnalysis.cpp:23-35 | ten windows near nominal are FixedLike, for every nominal rate |
| CadenceAnalysis.CadenceClassMeans | src/ClawHUD.Diag/DiagD3dkmtCadenceAnalysis.cpp:128-141 | when each class is given: FixedLike with ten windows, four fifths of them and the median near nominal, and a small range; VariableLike with ten windows, at most half near, and a large range |
| CadenceAnalysis.AverageMeans | src/ClawHUD.Diag/DiagD3dkmtCadenceAnalysis.cpp:113-114 | the average rate is the number of timestamps in the seconds counted, per second |
| CadenceAnalysis.MedianIs | src/ClawHUD.Diag/DiagD3dkmtCadenceAnalysis.cpp:115 | the reported median is half the sum of the two middle rates |
| MeasurementEpoch.TrimEvidence | src/ClawHUD.Diag/VrrAnalysis.cpp:100-131 | keeps the frames and timestamps of the epoch and counts the undated frames |
| MeasurementEpoch.TrimmedTimestamps | src/ClawHUD.Diag/VrrAnalysis.cpp:124-129 | trimming keeps exactly the timestamps inside the epoch, still strictly increasing |
| MeasurementEpoch.TrimmedFrames | src/ClawHUD.Diag/VrrAnalysis.cpp:112-122 | trimming keeps every frame of the epoch as often as it was captured, and no other |
| MeasurementEpoch.TrimmedWindows | src/ClawHUD.Diag/VrrAnalysis.cpp:100-131 | at most as many complete windows as fit strictly inside the epoch |
| MeasurementEpoch.EpochEnd | src/ClawHUD.Diag/VrrDiagnosticCommand.cpp:341-352 | the end of a completed epoch is fifteen seconds after the start exactly when that fits into 64 bits |
| MeasurementEpoch.InterruptedEnd | src/ClawHUD.Diag/VrrDiagnosticCommand.cpp:353-364 | the end of an interrupted epoch is the counter if that is later than the start, and otherwise the start |
| MeasurementEpoch.UnusableEndLeavesNothing | src/ClawHUD.Diag/VrrDiagnosticCommand.cpp:353-364 | helper: an epoch that ends at its start keeps no frame and no timestamp |
| MeasurementEpoch.CompletedEpochWindows | src/ClawHUD.Diag/VrrDiagnosticCommand.cpp:341-352 | a completed epoch yields at most fourteen windows |
| VrrVerdict.IgclMeans | src/ClawHUD.Diag/VrrAnalysis.cpp:80-98 | which driver states are ambiguous, off, enabled and, otherwise, unknown |
| VrrVerdict.HighQualityMeans | src/ClawHUD.Diag/VrrAnalysis.cpp:64-71 | the evidence suffices exactly with a dominant swapchain, 60 known modes and ten windows |
| VrrVerdict.NearNominalMeans | src/ClawHUD.Diag/VrrAnalysis.cpp:328-331 | helper: the rate is near nominal exactly if 1000 is at least nine tenths of the nominal rate times the median interval in milliseconds |
| VrrVerdict.AnalyzeVrrSession | src/ClawHUD.Diag/VrrAnalysis.cpp:245-351 | status, confidence and each reason are given exactly when the table says, the reasons in its order and without duplicates |
| VrrVerdict.MissingRateUnreachable | src/ClawHUD.Diag/VrrAnalysis.cpp:324-327 | the branch for a missing rate is never taken |
| VrrVerdict.InconclusiveIsExplained | src/ClawHUD.Diag/VrrAnalysis.cpp:277-308 | confidence is low exactly for an inconclusive verdict, and that has a reason |
| VrrVerdict.PositiveVerdictIsFounded | src/ClawHUD.Diag/VrrAnalysis.cpp:310-337 | LikelyActive and LikelyFixed rest on stable identity, exact path, enabled driver, 60 mode samples and 10 windows, with no reason but frame generation |
| VrrVerdict.LikelyActiveInFrames | src/ClawHUD.Diag/VrrAnalysis.cpp:310-337 | a positive verdict names a swapchain with 70 % of the displayed frames and 90 % flips among at least 60 frames |
| VrrVerdict.VerdictOfPermutation | src/ClawHUD.Diag/VrrAnalysis.cpp:245-351 | the verdict, with its list of reasons, does not depend on the order of the frames |
| VrrVerdict.ReasonsDetermined | src/ClawHUD.Diag/VrrAnalysis.cpp:245-351 | which reasons are given determines the list |
| ForegroundTracker.VrrForegroundChangeTracker.ObserveForegroundProcess | src/ClawHUD.Diag/VrrCaptureInvalidation.cpp:45-65 | flags exactly the foreign events that pass the tick tests |
| ForegroundTracker.VrrForegroundChangeTracker.EndMeasurementEpoch | src/ClawHUD.Diag/VrrCaptureInvalidation.cpp:35-43 | sets the boundary once; a later end changes nothing |
| ForegroundTracker.FlagsExactly | src/ClawHUD.Diag/VrrCaptureInvalidation.cpp:52-63 | for true times within half a wrap of the start, the tick tests pass exactly when the event lies in the epoch |
| ForegroundTracker.FlagsModuloWrap | src/ClawHUD.Diag/VrrCaptureInvalidation.cpp:52-63 | for every time, the tick tests pass if and only if some whole number of wraps takes the event into the epoch, or, with no end known, into half a wrap from the start |
| ForegroundTracker.MisjudgedExactly | src/ClawHUD.Diag/VrrCaptureInvalidation.cpp:52-63 | exactly which foreign events the tests misjudge, among all times |
| ForegroundTracker.OldEventMistaken | src/ClawHUD.Diag/VrrCaptureInvalidation.cpp:52-56 | inputs on either side: an event a full wrap too early is flagged, and one half a wrap late, with no end known, is not |
| ForegroundTracker.RunOfCompleted | src/ClawHUD.Diag/VrrDiagnosticCommand.cpp:241-252 | in a completed epoch the flag says exactly whether some foreign event of the epoch was delivered after its beginning; ending it again changes nothing |
| ForegroundTracker.EarlyMissedExactly | src/ClawHUD.Diag/VrrDiagnosticCommand.cpp:241-242 | with the events delivered before the epoch is begun, which are dropped, the flag misses a foreign event of the epoch if and only if some were delivered then and none after |
| ForegroundTracker.EarlyEventMissed | src/ClawHUD.Diag/VrrDiagnosticCommand.cpp:241-242 | an input: an event in the millisecond of the start, delivered before the epoch is begun |
| ForegroundTracker.DeliveryOrderIrrelevant | src/ClawHUD.Diag/VrrDiagnosticCommand.cpp:365-372 | two deliveries of the same events agree, also when some come after the end |
| ForegroundTracker.InterruptedOrderIrrelevantExactly | src/ClawHUD.Diag/VrrDiagnosticCommand.cpp:340-365 | for an epoch with boundary b that a call at `now` ends at e, before or after b, all deliveries of the same events agree if and only if a foreign event lies before both b and e, or none lies between them that had happened by `now` |
| ForegroundTracker.InterruptedCases | src/ClawHUD.Diag/VrrDiagnosticCommand.cpp:340-365 | the three cases: an end at the boundary, where order never matters, one after it and one before it |
| ForegroundTracker.InterruptedMeans | src/ClawHUD.Diag/VrrCaptureInvalidation.cpp:35-65 | an interrupted epoch reports the foreign events delivered before its end was set that lie before the boundary, and those delivered after that lie before the end |
| ForegroundTracker.BoundaryMayComeLater | src/ClawHUD.Diag/VrrDiagnosticCommand.cpp:249-252 | events that happened before the boundary may be delivered before it is set without changing anything |
| ForegroundTracker.StoppingChangesNothing | src/ClawHUD.Diag/VrrCaptureInvalidation.cpp:143-149 | ending the epoch once more while events are still drained changes nothing |
| ForegroundTracker.EarlyEndOrderMatters | src/ClawHUD.Diag/VrrCaptureInvalidation.cpp:35-43 | an input: an event between the reading of the end tick and the call that ends the epoch, delivered before or after that call |
| ForegroundTracker.LateEndOrderMatters | src/ClawHUD.Diag/VrrCaptureInvalidation.cpp:35-43 | an input: a measurement ended ten milliseconds after its boundary, and an event at the boundary, delivered before or after the call |
| HudUnits.UnitsDisjoint | src/ClawHUD/HudRenderer.cpp:81-140 | any two unit occurrences of a text are equal or do not overlap |
| HudUnits.FindToken | src/ClawHUD/HudRenderer.cpp:111-122 | skipping over each occurrence misses none |
| HudUnits.FindHudUnitRanges | src/ClawHUD/HudRenderer.cpp:108-140 | the collected and sorted ranges are the units from left to right |
| HudUnits.UnitsSegment | src/ClawHUD/HudRenderer.cpp:108-140 | for every text the units are in bounds, not empty, sorted and pairwise disjoint, and are exactly the occurrences that qualify |
| HudLayout.BuildMetricCells | src/ClawHUD/HudRenderer.cpp:328-336 | one cell per word, of the kind that run, position and suffix give |
| HudLayout.WordsKeepText | src/ClawHUD/HudRenderer.cpp:328-336 | the words together are the value without its white space |
| HudLayout.ExemplarKeepsKind | src/ClawHUD/HudRenderer.cpp:279-326 | the exemplar that a cell's slot is measured with is of the cell's own kind |
| HudLayout.GapExactly | src/ClawHUD/HudRenderer.cpp:674-677 | the values start at a gap from the caption if and only if there is a caption and something to show |
| HudLayout.DrawValue | src/ClawHUD/HudRenderer.cpp:354-394 | the drawn pieces read as the value, none is empty, each starts where the one before ends, units after a gap, one per unit |
| HudLayout.DrawnValueHasMeasuredWidth | src/ClawHUD/HudRenderer.cpp:144-149 | if setting pieces is additive, a drawn value ends where its measured width says |
| HudLayout.Measure | src/ClawHUD/HudRenderer.cpp:582-607 | the measured width of the line |
| HudLayout.DrawRuns | src/ClawHUD/HudRenderer.cpp:658-716 | the marks are, run by run, the caption where its group starts, one value per cell, each ending with its slot and drawn piece by piece, and a separator in the middle of the block between two runs; the pen ends at the measured content width without the padding |
| HudLayout.LineReads | src/ClawHUD/HudRenderer.cpp:658-716 | read from left to right, what is drawn is, run by run, the caption and the words of the value, with one separator between two runs and none elsewhere |
| HudLayout.LeftToRight | src/ClawHUD/HudRenderer.cpp:658-716 | with no negative width or gap, the marks run from left to right without overlap |
| HudLayout.Draw | src/ClawHUD/HudRenderer.cpp:629-718 | the line is drawn from the geometry's text origin: it reads as the runs do, from left to right, with the pen ending as measured |
| HudLayout.GeometryContains | src/ClawHUD/HudRenderer.cpp:543-580 | helper: content that fits lies in the viewport with its background, aligned as asked; content that does not starts at the left |
| HudLayout.DrawnInsideBackground | src/ClawHUD/HudRenderer.cpp:629-718 | helper: every mark of a line that fits lies between the paddings of its background |

## Left out

- Win32, COM, D3D and DirectComposition, DirectWrite, WMI and the PresentMon service: their calls are nondeterministic outcomes or parameters.
- The control codec and its header, `GameSessionController`, the tweak modules and IGCL probes: opaque inputs; the game session may call back at any point, to any depth.
- Logging, reports, settings storage, tray and Settings window, self-update, startup task: input and output without an invariant of depth.
- IEEE rounding: averages, percentages, opacity fractions and pen positions are exact reals; of the standard deviation of the cadence, which feeds nothing, the variance under the root is modelled.
- The 32-bit width of the tracking reference counts and of `size_t` counters: counts are unbounded.
- Memory ordering: mutexes and atomics are sequentially consistent.
- That closing a PresentMon session ends all its tracking is taken from the service.
- The remaining-minutes estimate of the battery and its rounding: a single expression over the average.
- The debug frame consumer appears only as frames taken from the shared queue.
- Vertical placement, colours and outlines of the HUD line: no relation between two functions depends on them.
- HudLayout.Measure: does not model failures of the text engine, which abort measuring and drawing alike.
- HudLayout.DrawnValueHasMeasuredWidth: assumes that setting a text in one go is as wide as its pieces, which only the text engine can tell.
- ResumeRecovery.App.Run: visibility while gated is claimed only if hiding is reliable, because a failed hide leaves the window as it is.
- ControlExecution.ExecutionMeans: what the setters answer, and whether settings and runtime information can be sent, are parameters.
- EcHelper.Pipe.Answer: what the embedded controller says, and why it fails, is arbitrary; WMI is not part of this model, nor are the formulas that turn payload bytes into degrees, revolutions and watts.
- DispatchBridgeObject.RuntimeControlDispatchBridge.DrainOnMainThread: its handler does not call back into the bridge; drains, stops and calls inside a handler are covered by the runs of the step relation.
