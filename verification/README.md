# Verified models of TranscrIA's schedulers, searches and live plumbing

TranscrIA records and transcribes meetings. Its heavy parts are libraries and models; what it decides by
itself, and must not get wrong, sits in a few small pieces of logic that run for ever: the keeper of event
subscriptions that cannot be revived once expired, the search for import cycles, the tracker in front of the GPU,
the consumer of a queue that redelivers, the confirmation of live words, the clocks and the track selection of
captured audio, and the alignment of subscriptions on what the administrator asked for. This project models
these pieces in Dafny and proves what they promise over every input, every run and every interleaving.

Code that changes state step by step is a class or a method with loops, proved equal to a function of its
inputs and old state; the properties are lemmas about that function and about runs of it. Services, clocks,
downloads and replies are parameters chosen by the environment: each may answer, refuse or raise at any time.

| file | subject |
|---|---|
| `Renewal.dfy`, `Keeper.dfy`, `Planning.dfy` | deciding, planning, backing off, when to wake up; and what a plan means field by field |
| `KeepAlive.dfy` | runs of that scheduler: no subscription is lost, and the exact margin that this takes |
| `MeetKeeper.dfy`, `TourReport.dfy`, `MeetKeeperRuns.dfy`, `MeetKeeperGap.dfy` | the executor for Meet: its report and its calls, discipline, survival, and how far apart tours may be |
| `ImportGraph.dfy`, `ClosingEdges.dfy`, `InitCycles.dfy`, `MissedCycle.dfy` | three-colour search, package cycles, and what the latter can miss |
| `EngineLoad.dfy`, `EngineRequests.dfy` | threads over the two locks and the resident backends; what each request gets |
| `MeetEvents.dfy`, `Ingestion.dfy`, `IngestionReport.dfy`, `IngestionRuns.dfy`, `BrokenRound.dfy` | from queue messages to jobs; nothing lost, nothing twice, and which message stops it |
| `Agreement.dfy`, `Demux.dfy`, `DemuxClock.dfy`, `Capture.dfy` | confirmed words, media clocks, which track speaks |
| `MeetDesired.dfy` | wanted meetings and users against existing subscriptions |

## Where the code and its documentation differ

The models follow the code. Six points are worth a maintainer's attention; each has a lemma.

- `find_init_cycles` promises to report import cycles across packages. It can return nothing although two packages
  import each other (`MissedCycle.CycleBetweenPackagesMissed`), because the search reports one cycle per closing edge
  and that cycle may stay inside a package. It returns nothing exactly when each cycle that leaves its package takes
  the closing edge of a reported cycle that does not (`InitCycles.EmptyFindingsExactly`). On the graph alone, an
  empty result is as promised whenever, among the cycles that leave their package, if there are any, one takes no
  edge that closes a cycle inside one package (`InitCycles.EmptyMeansNoneLeaves`).
- `capture.js` gives a participant back when its owner's stream ends, but not when an exception ends the owner's
  pump. The participant is then silent for good, and in no other case (`Capture.SilencedExactly`); a run that gets
  there is `Capture.SilenceIsReached`.
- An unusable queue message is meant never to interrupt the consumption. A message that has a type, and whose text is
  JSON but neither an object nor null, does, and no other (`MeetEvents.BreakingExactly`): reading it raises outside
  the loop's protection. It is never acknowledged, and no round that receives it acknowledges anything
  (`IngestionRuns.BreakingIsNeverAcknowledged`). The text `1234` under a type is one; without a type it is merely
  unreadable (`MeetEvents.NumberBreaks`, `BrokenRound.NumberBlocksTheRound`).
- The failure of one subscription is meant not to stop the others. In `keep_once` it does, exactly when a call raises
  something else than the client's own error; the rest of the plan is then not tried
  (`MeetKeeper.TourIsCutShortExactly`). Subscriptions survive such tours as long as completed ones are close enough
  together (`MeetKeeperRuns.ActiveSubscriptionSurvives`).
- `ensure_subscriptions` documents replayable creation; within one round it does create two subscriptions for two
  entries that lead to the same meeting (`MeetDesired.OneSubscriptionPerTargetExactly`).
- `backoff_delay` caps its exponent at 32 doublings, which changes the documented formula exactly when the
  ceiling lies further than that (`Renewal.BackoffRefinesPlainFormula`).

## Model

| member | source | states |
|---|---|---|
| Renewal.BackoffDelay | connector_service/subscription_renewal.py:139-158 | refuses attempts below 1; otherwise the loop that counts useful doublings yields the capped doubling formula, and the ceiling when a negative base already exceeds it |
| Renewal.BackoffRefinesPlainFormula | connector_service/subscription_renewal.py:141-158 | the exponent cap is invisible if and only if the attempt is at most 33 or the ceiling is within 32 doublings |
| Renewal.BackoffMonotoneAndBounded | connector_service/subscription_renewal.py:141-146 | waits never shrink from one attempt to a later one, nor exceed the ceiling |
| Keeper.MakePlan | connector_service/subscription_keeper.py:94-126 | the loop yields exactly the operations and the skips the subscriptions call for, in order |
| Keeper.PlanIsPerSubscription | connector_service/subscription_keeper.py:94-142 | an operation is planned if and only if some subscription, on its own history, calls for it; reasons to skip win over any decision |
| Keeper.SkipsArePerSubscription | connector_service/subscription_keeper.py:106-110 | a subscription is reported as skipped if and only if it has a reason of its own to be |
| Keeper.PlanNamesEachOnce | connector_service/subscription_keeper.py:106-126 | with distinct identifiers no subscription is named twice among the operations, nor among the skipped, nor in both |
| Keeper.ComputeNextWakeup | connector_service/subscription_keeper.py:181-205 | for any floor and ceiling the loop computes the sleep to the nearest future deadline between them |
| Keeper.WakeupIsForADeadline | connector_service/subscription_keeper.py:186-205 | the sleep stays between the floor and the ceiling, and is the wait to a deadline ahead, unless a bound cuts it or no deadline is ahead |
| Keeper.WakeupHonoursDeadline | connector_service/subscription_keeper.py:186-205 | the sleep ends by any deadline still ahead, for any subscription of the set, unless the floor is longer |
| Planning.PlannedExactly | connector_service/subscription_renewal.py:99-126 | an operation is planned if and only if nothing holds its subscription back and its state, expiry and policy call for it: recreation when dead or when suspended without a way to reactivate, reactivation without a date when there is one, renewal inside the margin; with the date asked for |
| Planning.SkippedExactly | connector_service/subscription_keeper.py:129-142 | who is skipped and why, from the failures, the retry date and the last success, in that order |
| Planning.PlanInOrder | connector_service/subscription_keeper.py:106-126 | operations and skips follow the order of the subscriptions |
| Planning.RenewalDates | connector_service/subscription_renewal.py:64-76 | when Graph and Workspace Events subscriptions are renewed, and until when, in microseconds |
| Planning.SuspensionByPlatform | connector_service/subscription_renewal.py:108-115 | a suspended subscription is recreated with Graph, reactivated with Workspace Events |
| Planning.AfterSuccessIsFresh | connector_service/subscription_keeper.py:145-163 | a success erases failures and waits, takes the new date and identifier, and holds back for ten minutes exactly |
| Planning.AfterFailureWaits | connector_service/subscription_keeper.py:166-178 | a failure holds back until its backoff has passed, the eighth for good, and changes nothing else |
| Planning.SleepIsToTheNearest | connector_service/subscription_keeper.py:181-205 | with the default bounds, the sleep is to the nearest instant at which a subscription not given up falls due, between a minute and an hour |
| KeepAlive.WorstLateness | connector_service/subscription_keeper.py:166-205 | the eighth attempt comes at most 4170 s, less 8 microseconds, after the margin is entered |
| KeepAlive.TourSettles | connector_service/subscription_keeper.py:94-178 | one tour attempts what is due, and whatever the answer the next attempt then lies ahead |
| KeepAlive.StepKeepsOnTime | connector_service/subscription_keeper.py:94-205 | waking, planning, executing with any answers and sleeping at most the advised time keeps every subscription on time |
| KeepAlive.SubscriptionsAreKeptAlive | connector_service/subscription_keeper.py:94-205 | in every run no recreation is planned, and a subscription without eight failures in a row is alive at every wake-up |
| KeepAlive.DriftReachesExpiry | connector_service/subscription_keeper.py:166-205 | for any shorter margin, a run of late wake-ups and failures that ends in a recreation |
| KeepAlive.MarginThresholdIsExact | connector_service/subscription_renewal.py:50-76 | a margin keeps every run free of recreations if and only if it exceeds the worst lateness |
| KeepAlive.ShippedPoliciesOutlast | connector_service/subscription_renewal.py:64-76 | both shipped policies meet that condition |
| MeetKeeper.MeetSubscriptionKeeper.constructor | connector_service/meet_keeper.py:104-113 | the keeper starts with an empty memory |
| MeetKeeper.MeetSubscriptionKeeper.Inspect | connector_service/meet_keeper.py:118-124 | tracks every listed subscription with a name and a readable expiry, with the remembered failures and last operation and no retry date |
| MeetKeeper.MeetSubscriptionKeeper.CarryOut | connector_service/meet_keeper.py:129-157 | one operation: memory, report and the call the client receives, for an accepted, a refused and a raised call, with and without a recreation callback |
| MeetKeeper.MeetSubscriptionKeeper.Execute | connector_service/meet_keeper.py:129-157 | the loop over the plan, up to its end or to an error it does not catch: memory, report and calls |
| MeetKeeper.MeetSubscriptionKeeper.KeepOnce | connector_service/meet_keeper.py:115-158 | a tour, from listing to report, new memory and the calls the client received; nothing changes when listing fails, and what was done stays done when a call raises |
| MeetKeeper.TourIsCutShortExactly | connector_service/meet_keeper.py:129-154 | a tour is cut short if and only if a call of its plan raises something else than the client's own error, and what comes after it is not tried |
| TourReport.TrackedExactly | connector_service/meet_keeper.py:59-75 | a tracked subscription is exactly a listed one with a name and an expiry: seven days of life, a day of margin, the state its word stands for, the keeper's own memory |
| TourReport.ReportIsTruthful | connector_service/meet_keeper.py:129-157 | a tour reports as renewed, reactivated and failed exactly those with an accepted renewal, an accepted reactivation, a refused call |
| TourReport.CompletedTourFollowsPlan | connector_service/meet_keeper.py:126-146 | the calls of a completed tour are those of its plan, with their answers, and the recreations it reports those of its plan |
| TourReport.TourCountsAndSkips | connector_service/meet_keeper.py:124-127 | how many were inspected, and which were skipped |
| TourReport.TrackedInOrder | connector_service/meet_keeper.py:118-124 | tracked subscriptions follow the order of the listing |
| TourReport.ReportsAreAppended | connector_service/meet_keeper.py:129-157 | report and calls follow the order of the plan |
| MeetKeeperRuns.KeeperIsDisciplined | connector_service/meet_keeper.py:104-158 | in every run, on any clock, the memory reflects the calls made, and no call follows eight failures in a row nor comes within ten minutes of the last success |
| MeetKeeperRuns.SpacedAfterEverySuccess | connector_service/subscription_keeper.py:136-141 | hence ten minutes separate any call from every earlier success on that subscription |
| MeetKeeperRuns.TourOnOne | connector_service/meet_keeper.py:115-158 | among any other subscriptions a tour does to each what its own verdict says, as if it were alone, whatever that verdict; or nothing if it is cut short before |
| MeetKeeperRuns.ActiveSubscriptionSurvives | connector_service/meet_keeper.py:30-34 | with completed tours at most three hours apart, and any number of tours in between whose listing fails or that are cut short, a subscription first seen outside its margin is alive at each tour until eight failures in a row, and never up for recreation |
| MeetKeeperGap.ThreeHoursIsTheLimit | connector_service/meet_keeper.py:30-34 | completed tours one microsecond further apart can lose a subscription after seven failures |
| ImportGraph.CycleSearch.Dfs | scripts/audit_imports.py:103-112 | the recursive search on shared colours, stack and cycles equals the functional one, and restores the stack; terminates |
| ImportGraph.CycleSearch.Find | scripts/audit_imports.py:96-117 | the loop over roots returns what the functional search returns |
| ImportGraph.VisitIsSound | scripts/audit_imports.py:103-112 | a visit keeps the stack a duplicate-free path of grey nodes, finished edges settled, reported lists simple cycles |
| ImportGraph.ReportIsSound | scripts/audit_imports.py:107-108 | a grey neighbour closes a simple cycle with the stack |
| ImportGraph.ClosingKeepsHit | scripts/audit_imports.py:111-112 | finishing a node creates no closed walk of finished nodes that the report misses |
| ImportGraph.ReportedCyclesAreReal | scripts/audit_imports.py:96-117 | each reported list is a closed walk along edges, its nodes distinct |
| ImportGraph.EveryCycleIsHit | scripts/audit_imports.py:96-117 | every closed walk of the graph takes the closing edge of some reported cycle |
| ImportGraph.FindCyclesIsComplete | scripts/audit_imports.py:96-117 | nothing is reported if and only if the graph is acyclic |
| ClosingEdges.ClosingEdgesAreOwn | scripts/audit_imports.py:103-117 | a reported cycle takes the closing edge of no other reported cycle, and its own only to close |
| InitCycles.Resolve | scripts/audit_imports.py:71-74 | returns the longest dotted prefix that is a module, or none when there is none; terminates |
| InitCycles.PrefixOfName | scripts/audit_imports.py:130-132 | a dotted prefix is the name itself or what stands before one of its dots |
| InitCycles.PackageOfName | scripts/audit_imports.py:141-145 | outside transcria the package is the first part of the name |
| InitCycles.PackageUnderTranscria | scripts/audit_imports.py:141-145 | under transcria it is the first two parts |
| InitCycles.ExtendedEdges | scripts/audit_imports.py:134-139 | the edges go from an importer to the modules its targets are, or are inside of by name, itself excepted |
| InitCycles.AddHops | scripts/audit_imports.py:130-139 | the successors added for one importer are the modules its targets run, itself excepted |
| InitCycles.Extend | scripts/audit_imports.py:134-139 | the graph with importer to ancestor edges |
| InitCycles.FindInitCycles | scripts/audit_imports.py:147-155 | the reported cycles, filtered by packages and by node set |
| InitCycles.KeptIsSelection | scripts/audit_imports.py:147-155 | findings are reported cycles over at least two packages, no two with the same node set |
| InitCycles.KeptInOrder | scripts/audit_imports.py:147-155 | findings keep the order of the reported cycles |
| InitCycles.KeptCoversAll | scripts/audit_imports.py:149-154 | every reported cycle over two packages is among the findings up to its node set |
| InitCycles.FindingsAreReal | scripts/audit_imports.py:120-155 | each finding is a simple cycle of the extended graph across packages |
| InitCycles.ExtendedAcyclicImpliesAcyclic | scripts/audit_imports.py:123-139 | an acyclic extended graph implies an acyclic module graph |
| InitCycles.EveryCycleIsFoundOrInner | scripts/audit_imports.py:120-155 | every cycle of the extended graph takes an edge that closes a finding, up to its node set, or an edge that closes a cycle within one package |
| InitCycles.EmptyFindingsHideOnlyInner | scripts/audit_imports.py:120-155 | with no findings, every cycle takes the closing edge of a cycle that stays in one package |
| InitCycles.EmptyFindingsExactly | scripts/audit_imports.py:120-155 | on every graph and in every order: no findings if and only if each cycle that leaves its package takes the closing edge of a reported cycle that does not; hence the exact condition for an empty result to mean that no cycle leaves its package |
| InitCycles.EmptyMeansNoneLeaves | scripts/audit_imports.py:120-155 | on the graph alone: if the cycles that leave their package include one that takes no closing edge of an in-package cycle, whenever there are any, then there are no findings if and only if no cycle leaves its package |
| MissedCycle.CycleBetweenPackagesMissed | scripts/audit_imports.py:120-155 | a graph with a cycle over two packages and no findings |
| EngineLoad.StepKeepsLocks | inference_service/load.py:42-79 | any step keeps each lock held exactly by the thread whose counter says so |
| EngineLoad.StepKeepsCounters | inference_service/load.py:47-61 | any step keeps the published counters exact |
| EngineLoad.LoadIsSerialized | inference_service/load.py:42-93 | in every reachable state one thread at most is in its body, the in-flight and queued counters are exact, and the floor at zero never acts |
| EngineLoad.SomeThreadCanAct | inference_service/transcribe_engine.py:90-111 | no deadlock: while a thread has something to do, some such thread can take a step that changes the state, unloading when idle included |
| EngineLoad.BackendsAreSafe | inference_service/transcribe_engine.py:73-133 | a backend in use is resident and not offloaded, each key has one live backend, none is lost, and loads less unloads are what is resident |
| EngineRequests.RequestsGetTheirOwn | inference_service/transcribe_engine.py:73-88 | over every interleaving a thread computes with the backend kept under the key it was asked for, loads that key only, and offloads only for an unload |
| EngineRequests.ExitMeansServed | inference_service/transcribe_engine.py:115-133 | a request that leaves the engine has computed with its backend, or failed to load it, or had nothing left to offload |
| EngineRequests.UnloadLeavesNothing | inference_service/transcribe_engine.py:90-103 | once an unload has nothing left to offload, every backend ever loaded is offloaded |
| EngineRequests.BackendsStay | inference_service/transcribe_engine.py:73-103 | in every reachable state a backend stays under its key until an unload takes it, and only an unload offloads |
| EngineRequests.CallsAreTakenUp | inference_service/transcribe_engine.py:73-74 | a call becomes the request it asks for, the default key standing for no name |
| EngineRequests.IdleEngineIsUnloaded | inference_service/transcribe_engine.py:105-111 | the idle check leads to an unload if and only if something is resident and the idle time has passed |
| EngineRequests.ComputeLoadsOnce | inference_service/transcribe_engine.py:73-88 | a resident key is used as it is, another is loaded; a failed load keeps nothing |
| EngineRequests.UnloadTakesAll | inference_service/transcribe_engine.py:90-103 | an unload takes all backends at once and offloads them one by one |
| MeetEvents.ParseMessage | connector_service/meet_events.py:135-165 | a message is read in the source's order of tests: type, text as JSON, as base64, resource name |
| MeetEvents.FirstResourceName | connector_service/meet_events.py:193-206 | the loop over the fields finds the name the reading uses |
| MeetEvents.FirstNamedIsFirst | connector_service/meet_events.py:200-204 | that name is the one of the first object that has one |
| MeetEvents.ReadableExactly | connector_service/meet_events.py:146-190 | an event is read if and only if there is a type and an object with a name in it, given by the text as JSON, or by its base64 when it is not JSON |
| MeetEvents.ReadExactly | connector_service/meet_events.py:146-218 | which event is read, field by field: its type and source from the attributes, its name from the first named object or the whole, its conference from that name |
| MeetEvents.RecordingOverRest | connector_service/meet_events.py:174-190 | a recording sent as base64, as the queue sends it, is read with all four fields |
| MeetEvents.BreakingExactly | connector_service/meet_events.py:168-206 | the reading raises if and only if there is a type and the text is JSON but neither an object nor null |
| MeetEvents.NumberBreaks | connector_service/meet_events.py:174-180 | the text 1234 breaks the reading under a type, and is unreadable without one |
| MeetEvents.RecordOfArtifact | connector_service/meet_events.py:209-218 | the conference record of any artifact is its prefix up to the identifier |
| MeetEvents.RecordExactly | connector_service/meet_events.py:209-218 | the conference record of a name is its prefix up to the identifier, or nothing |
| Ingestion.OccurrenceIsTheConference | connector_service/meet_poller.py:42-55 | every artifact of a conference leads to the same bare identifier |
| IngestionReport.OccurrenceFromSource | connector_service/meet_poller.py:54-61 | provider, account and identifier of an occurrence: the space when the event comes from one, the conference otherwise |
| Ingestion.ParsePullResponse | connector_service/pubsub_pull.py:123-172 | which replies are errors, which are empty, and that the usable entries are kept in order |
| IngestionReport.ParsedOne | connector_service/pubsub_pull.py:149-171 | an entry is kept if and only if it is an object with an acknowledgement id and a message, and carries that id |
| IngestionReport.ParsedInOrder | connector_service/pubsub_pull.py:148-172 | messages follow the order of the entries |
| IngestionReport.AcknowledgedOne | connector_service/pubsub_pull.py:189-202 | a message is acknowledged if and only if it was processed or could not be read |
| IngestionReport.RequestExactly | connector_service/pubsub_pull.py:93-99 | the request drops empty identifiers and is refused if and only if none is left |
| Ingestion.DedupKeyIsInjective | connector_service/reconciler.py:22-30 | equal keys come from equal occurrences and artifacts when no bar hides in the first three parts |
| IngestionReport.KeyReadsBack | connector_service/reconciler.py:22-30 | a key reads back as provider, account, occurrence and artifact, in that order |
| Ingestion.Bridge.IngestRecording | connector_service/bridge.py:67-91 | a post creates one job per key at most, whether it returns or raises |
| Ingestion.ProviderReconciler.Reconcile | connector_service/reconciler.py:54-84 | known keys are skipped, others fetched and posted until something raises, and what was done before stays done |
| IngestionReport.ReconcileExactly | connector_service/reconciler.py:63-84 | a reconciliation raises if and only if the listing, or the download or post of a new artifact, does; otherwise each artifact is reported as skipped if known and imported if not, and the imported ones are the posts that returned |
| IngestionReport.JobsGrowByPosts | connector_service/reconciler.py:70-81 | only a new artifact that could be downloaded is posted, and gets a job if accepted, even when the post raises |
| Ingestion.MeetPoller.Handle | connector_service/meet_poller.py:133-166 | one message: its reading raises, or it is unreadable, irrelevant, ingested or failed, and its acknowledgement |
| Ingestion.MeetPoller.PollOnce | connector_service/meet_poller.py:128-172 | a round: its report, memory, posts and the acknowledgement sent; nothing is sent when the pull or the reading of a message raises |
| IngestionReport.RoundReportsPulled | connector_service/meet_poller.py:130-144 | a round that is not cut short reports how many messages it pulled, that some were unreadable if some were, and the name of each one handed out five times or more |
| IngestionReport.RoundReportsMessages | connector_service/meet_poller.py:130-153 | and how many announced a recording and how many could not be read |
| IngestionReport.RoundReportsOutcomes | connector_service/meet_poller.py:153-166 | its outcomes are those of the reconciliations that returned, in order |
| IngestionReport.ReportsAreAppended | connector_service/meet_poller.py:133-166 | report and acknowledgements follow the order of the messages |
| IngestionRuns.RoundAcknowledgesTheRest | connector_service/meet_poller.py:128-172 | a round is cut short if and only if it pulled a typed message whose text is JSON but neither an object nor null, and then acknowledges nothing; otherwise exactly the messages whose reconciliation raised stay unacknowledged, and the numbers add up |
| IngestionRuns.BreakingIsNeverAcknowledged | connector_service/meet_poller.py:133-172 | in every run such a message stays in the queue, and each round that receives it acknowledges nothing |
| BrokenRound.NumberBlocksTheRound | connector_service/meet_poller.py:133-172 | a run in which the text 1234 keeps another message from being acknowledged, that alone would be |
| IngestionRuns.AcknowledgementIsNeverRefused | connector_service/pubsub_pull.py:86-99 | an acknowledgement built from parsed messages is never refused as empty and drops no identifier |
| IngestionRuns.ReconcileKeeps | connector_service/reconciler.py:63-84 | keys are never posted again once posted, and a reconciliation that returns has all it listed in memory |
| IngestionRuns.ServedByEndOfRound | connector_service/meet_poller.py:133-166 | what a message that did not fail listed is in memory at the end of the round |
| IngestionRuns.AcknowledgedWasServed | connector_service/meet_poller.py:153-171 | no acknowledgement of a recording event is sent before a reconciliation of it returned with everything it listed posted |
| IngestionRuns.NoRecordingIsLost | connector_service/meet_poller.py:128-172 | in every run, acknowledgements taking effect late or never and messages handed out again at any time, a readable recording event is still queued, or a reconciliation of it returned with everything it listed posted in the run |
| IngestionRuns.PostedAtMostOnce | connector_service/meet_poller.py:108-111 | one poller's life has at most one returned post per key, and the server at most one job per key, redeliveries and restarts included |
| IngestionRuns.DepartedMessagesHaveOneJob | connector_service/meet_poller.py:128-172 | if returned posts were accepted, each artifact listed for a message that left the queue has exactly one job |
| Agreement.AgreedIsLongest | connector_service/live/agreement.py:42-44 | the loop stops at the longest agreeing prefix, no sooner |
| Agreement.LocalAgreement.InsertHypothesis | connector_service/live/agreement.py:35-47 | what an insertion commits, returns and buffers |
| Agreement.LocalAgreement.Partial | connector_service/live/agreement.py:49-51 | the display completes the committed length of the hypothesis to the whole of it, and is empty when that length is not reached; nothing changes |
| Agreement.PartialIsWhatComesNext | connector_service/live/agreement.py:35-58 | after an insertion the display is the buffer, and exactly what the same hypothesis again, or the end of the turn, would commit |
| Agreement.LocalAgreement.FinalizeTurn | connector_service/live/agreement.py:53-58 | the buffer is committed and emptied |
| Agreement.CommittedOnlyGrows | connector_service/live/agreement.py:23-58 | over every history committed words are only appended to |
| Agreement.BufferIsUnstableTail | connector_service/live/agreement.py:45-58 | after an insertion the buffer is the hypothesis beyond the committed length, after a turn's end it is empty |
| Agreement.CommittedMeansAgreed | connector_service/live/agreement.py:35-58 | a committed word was promoted by a turn's end, or is the later of two consecutive hypotheses with that text at that index |
| Agreement.AgreedMeansCommitted | connector_service/live/agreement.py:35-47 | what two hypotheses in a row agree on beyond the committed words is committed |
| Agreement.RepeatedHypothesisSettles | connector_service/live/agreement.py:35-47 | a repeated hypothesis leaves no buffer |
| Agreement.RepeatedHypothesisIsWhole | connector_service/live/agreement.py:35-47 | and a committed length that is the larger of its own and the previous one |
| Demux.Frames | connector_service/live/_demux.py:49-70 | the loop over shared dictionaries yields the stamped frames, in order |
| Demux.ClocksCountOwnFrames | connector_service/live/_demux.py:50-58 | a participant's counter and clock depend on its own frames only |
| Demux.FramesComeInOrder | connector_service/live/_demux.py:52-70 | one frame out for each frame in, of the same participant, with the time it arrived at |
| Demux.OutputIsOwnSequence | connector_service/live/_demux.py:52-70 | a participant's outputs are its own inputs: sound, names and format unchanged, a track name made up when there is none, numbered 0, 1, 2 and dated by the durations before them |
| Demux.InterleavingIsInvisible | connector_service/live/_demux.py:41-70 | up to the wall clock a participant gets the same frames as if it were alone |
| Demux.ClockNeverGoesBack | connector_service/live/_demux.py:55-70 | with rates and channel counts that are not negative, the timestamps of a participant's emitted frames do not decrease |
| Demux.DriftIsBounded | connector_service/live/_demux.py:56-58 | at a constant rate the clock lags the samples counted by less than a millisecond a frame and never leads them |
| DemuxClock.SamplesOfBytes | connector_service/live/_demux.py:56-56 | a sample is two bytes for each channel, only whole ones count, and without channels there are none |
| DemuxClock.DurationOfSamples | connector_service/live/_demux.py:57-58 | a frame lasts its samples divided by its rate in whole milliseconds, rounded toward zero, and nothing without a rate |
| DemuxClock.TimestampsFollowBytes | connector_service/live/_demux.py:50-70 | the emitted timestamps never lead the bytes sent before, and lag them by less than a sample and a millisecond a frame, by less than a millisecond when frames hold whole samples |
| Capture.StepKeepsOwnership | connector_service/bot/capture.js:64-114 | after any event a track owns a participant exactly when the map records it |
| Capture.StepKeepsBlocks | connector_service/bot/capture.js:85-108 | after any event each participant's frames are blocks of one track, with a release between two blocks |
| Capture.StepKeepsReleases | connector_service/bot/capture.js:73-77 | after any event no track speaks or releases again once it has released |
| Capture.OneTrackSpeaks | connector_service/bot/capture.js:127-219 | over every interleaving of pumps: one owner at most, as recorded, single-track blocks, no sending after release |
| Capture.IsVoiced | connector_service/bot/capture.js:86-92 | a frame is voiced if and only if one of its samples reaches 300 on the 16-bit scale |
| Capture.OwnershipByVoice | connector_service/bot/capture.js:85-98 | a track takes a participant only with a voiced frame, and only when nobody has it |
| Capture.OwnerWasHeard | connector_service/bot/capture.js:57-98 | over every run, whoever owns a participant was heard for it before |
| Capture.SilentFrameIsIgnored | connector_service/bot/capture.js:91-92 | an unvoiced frame of a track that owns nothing changes nothing, unless copying throws |
| Capture.DuplicateIsGivenUp | connector_service/bot/capture.js:93-95 | a track heard while another has its participant is stopped and sends nothing |
| Capture.OwnerSends | connector_service/bot/capture.js:96-108 | an owner, or a track that becomes one, sends its frame when the socket is open; a send that throws ends its pump |
| Capture.FaultsEndThePump | connector_service/bot/capture.js:71-84 | a copy or a read that throws ends the pump as it stood |
| Capture.EndGivesBack | connector_service/bot/capture.js:74-77 | the end of the stream stops the pump, and an owner gives its participant back |
| Capture.TracksArePiped | connector_service/bot/capture.js:173-219 | a track is piped once, the mixed stream never; which participant it reads for, and when an unidentified placeholder is dropped |
| Capture.SilencedExactly | connector_service/bot/capture.js:71-113 | in any reachable page a participant is silent in every continuation if and only if an exception has ended the pump of the track that owns it |
| Capture.SilenceIsReached | connector_service/bot/capture.js:71-113 | a run in which a track speaks for a participant and then loses it for good |
| MeetDesired.EventsClient.Create | connector_service/workspace_events_client.py:192-194 | a creation adds one active subscription, unless it does not reach the server |
| MeetDesired.EnsureSubscriptions | connector_service/meet_desired.py:107-160 | a round for meetings: report and server after it, recording settings included |
| MeetDesired.EnsureUserSubscriptions | connector_service/meet_desired.py:51-92 | a round for users: report and server after it |
| MeetDesired.EachEntryHasOneFate | connector_service/meet_desired.py:123-155 | the wanted entries, with repetitions, are divided among covered, created and failed |
| MeetDesired.ReportIsTrue | connector_service/meet_desired.py:123-155 | an entry is reported covered, created or failed if and only if that is what happened to it |
| MeetDesired.CoveredExactly | connector_service/meet_desired.py:95-104 | a target is covered if and only if it is named by a subscription that is active or says nothing of its state |
| MeetDesired.TargetFromIdentifier | connector_service/meet_events.py:101-117 | the target of a space or a user, from the last part of its identifier; none without one |
| MeetDesired.RecordingIsReported | connector_service/meet_desired.py:136-145 | recording is asked of every entry with a target, covered or not, and reported where it was turned on and where that failed |
| MeetDesired.ReportsAreAppended | connector_service/meet_desired.py:123-155 | the lists of the report follow the order of the entries |
| MeetDesired.RoundsEnd | connector_service/meet_desired.py:115-120 | nothing is done without entries or inventory, and what is then reported |
| MeetDesired.SubscriptionsAfterRound | connector_service/meet_desired.py:121-155 | the number of subscriptions of each target after a round; unchanged when it had one |
| MeetDesired.OneSubscriptionPerTargetExactly | connector_service/meet_desired.py:121-155 | a target gets several subscriptions if and only if two entries lead to it and both creations reach the server |
| MeetDesired.SharedTargetIsSubscribedTwice | connector_service/meet_desired.py:121-155 | a meeting written in two ways is subscribed to twice |
| MeetDesired.NothingIsRemoved | connector_service/meet_desired.py:158-160 | existing subscriptions stay untouched; new ones answer wanted entries whose target nothing covered |
| MeetDesired.ExtraIsUnasked | connector_service/meet_desired.py:130-160 | a target is reported as extra if and only if it is covered and no entry leads to it |
| MeetDesired.OneRoundCreates | connector_service/meet_desired.py:107-160 | over all rounds at most one adds subscriptions for a target that stays covered in between |
| MeetDesired.ServedEntriesStaySettled | connector_service/meet_desired.py:146-155 | an entry once covered or created is found covered in every later round whose lookup answers |
| MeetDesired.RoundsConverge | connector_service/meet_desired.py:107-160 | when each entry has been served in some round, a further round reports all as covered and changes nothing |

## Left out

- The HTTP, OAuth, Drive, storage, web and browser code around these pieces: its callbacks are environment choices.
- KeepAlive.SubscriptionsAreKeptAlive: starts from active subscriptions, because the ten minutes after a reactivation can delay a renewal and the wake-up time does not count them; suspension is covered by MeetKeeperRuns.KeeperIsDisciplined.
- KeepAlive.MarginThresholdIsExact: needs a lifetime of at least the margin plus ten minutes and the default wake-up bounds and backoff.
- MeetKeeperRuns.ActiveSubscriptionSurvives: a listing that answers is taken to name no subscription twice and to give this one's real expiry, and a call that raises to have extended nothing.
- InitCycles.EmptyMeansNoneLeaves: its condition on the graph is sufficient only; the exact one, InitCycles.EmptyFindingsExactly, names the reported cycles, which depend on the alphabetical order of the modules.
- InitCycles.EveryCycleIsFoundOrInner: a finding accounts for a cycle by a shared edge; no claim is made that each cycle across packages is itself listed, and with one reported cycle per closing edge not all of them are.
- IngestionRuns.PostedAtMostOnce: counts posts that returned, since the HTTP status is never looked at; a post that raised may have created its job, which the server's idempotence absorbs.
- IngestionRuns.DepartedMessagesHaveOneJob: speaks of the artifacts of the listing that was served, and assumes that returned posts were accepted.
- Ingestion.DedupKeyIsInjective: says nothing of one meeting that arrives under two `ce-source` values, which yields two keys.
- Organizer, participant hints and job identifiers in the ingestion: carried along, decided nowhere in it.
- MeetEvents.ParseMessage: the JSON and base64 decoders are libraries; what they make of a text comes with the text, and texts nested too deep for the JSON decoder are left out.
- Dates and upper-casing: reduced to a date or none, and to states already in upper case.
- Demux.Frames: `int(samples * 1000 / rate)` is division truncated toward zero on integers, without floating-point rounding; payload lengths are those of whole byte strings.
- EngineLoad.LoadIsSerialized: the tracker and the engines are program counters over shared state, not classes, because the subject is interleaving; the last wait and the clock are left out, and idleness is the environment's choice.
- EngineLoad.BackendsAreSafe: the engine of inference_service/diarize_engine.py is the case of a single key; inference_service/engine.py has the same life cycle.
- Capture.OneTrackSpeaks: pumps are steps over a page, one from each await to the next; a step gets its frame as voiced or not, which Capture.IsVoiced computes from the samples, with the default threshold; names and reconnection are not modelled.
- Capture.EveryFrameIsClosed: the `finally` that closes a frame is part of the step that reads it, so this says nothing about interleaving.
- ImportGraph.CycleSearch.Find: holds for every enumeration of the modules, of which `sorted` is one; Python's recursion limit is not modelled.
- MeetDesired.EnsureSubscriptions: the extra targets are a set, sorted for display in the source; the listing filter is taken to select all subscriptions of the service.
- Extraction of imports from syntax trees, log texts and readable durations.
