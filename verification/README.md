# Serving-lab routers, stream and evidence chains in Dafny

A model of the stateful core of the repository's serving labs and of the evidence logic beside them,
with proofs about every run, every interleaving and every input.

| module | models |
|---|---|
| `IncidentRouter`, `IncidentAnswers`, `IncidentRuns`, `IncidentOverlap`, `IncidentExhaustion`, `IncidentWindows`, `IncidentFairness` | the incident-response router, `apps/p10i_ir_lab.py` |
| `ReplicaRouter`, `ReplicaServing`, `ReplicaRuns`, `ReplicaDriving`, `ReplicaAnswers`, `ReplicaOverlap` | the failover router, `apps/p10h_replica_lab.py` |
| `StreamQueue`, `StreamLab` | the bounded streaming queue with cancellation and the endpoints around it, `apps/p10g_streaming_lab.py` |
| `AlertChain` | the alert hash chain and the store that writes it, `evals/p11f_detection_engineering.py` and `aegis/detection/security_analytics.py` |
| `IncidentChain` | the four linked incident logs, `evals/p10i_fixture.py`, and the analyzer's link checks, `aegis/inference/incident_response_security.py` |
| `FrameChain` | the stream-frame chain, `evals/p10g_fixture.py` |
| `ServingEvidence`, `EvidenceOutcomes` | assessment and validation of serving evidence, `evals/p11d_serving_security.py` |
| `Sequences`, `Shared` | facts about lists and types shared by the above |

`dafny verify dfyconfig.toml` checks the project.

## How it is modelled

**Routers.** A router's fields are a datatype `Router` whose functions are the atomic segments of the
source (fence, emit, activate, record). `RouterState` classes hold the same fields and run the
handlers statement by statement; each method is proved to do what the corresponding function says.
Replies to probes and posts are values handed in from outside, so a claim holds for every network.

`IncidentRuns` and `ReplicaRuns` are the concurrent forms. A task is a program point between two
awaits, an action starts a task or resumes one with an arbitrary reply, and a run is any list of
actions. A resumption covers at most the code between two awaits and sometimes less, so every
schedule of the event loop is a list of actions (the model allows some schedules more). The
`SerialInferIsARun` lemmas tie the two forms together: after any run, a handler run serially is its
arrival followed by resumptions of its own task and nothing else.

**Stream.** Producer, consumer, cancel event and client disconnect take steps in any order over an
arbitrary plan. The terminal-frame claim asks of the plan only that its last item, and no other, is
terminal; the plan at lines 40-50 is one instance.

**Digests.** SHA-256, canonical JSON and case folding are parameters. A function with fixed-width
results cannot be injective, so assuming collision-freedom would assume a falsehood. Binding and
tamper claims are reductions instead: the conclusion holds, or the logs at hand exhibit two different
digested inputs with one digest (or an input digesting to the genesis value).

## Where the code does less than a reader may expect

* `infer` in the incident router does not look at the fences again when a post reply arrives, and the
  lab's promise that traffic never returns to a fenced replica (`docs/labs/p10i-incident-response-lab.md`, line 9)
  holds of serial runs only. `OverlapRoutesToFenced` is a run that breaks it. It takes another task's
  reply that fences the replica between this request's look at it and its clean answer, and nothing
  else will do (`RoutedToFencedIffOverlap`).
* The incident log accounts for fences, generations and replica order but for neither endpoints nor
  reserved keys (`LogOmitsEndpointsAndReservations`).
* Line 100 of the incident router reads the pointer again on every turn. A request that another one
  overtakes can look at one replica twice and report "no safe replicas" with another unfenced and
  never looked at (`OvertakenRequestMissesReplica`). A request that nobody overtakes looks at all of
  them and leaves all of them fenced (`NeverOvertakenSeesAll`); one that is overtaken once does if and
  only if the pointer did not really move between two of its looks (`OvertakenOnceSeesAllIff`).
* The failover router checks a key at line 95 and records it at line 178, with awaits in between. Two
  overlapping requests under one key are both served (`OverlapRepeatsKey`), and that is the only way:
  a key is accepted twice if and only if two requests under it were in flight at one moment and both
  succeeded (`RepeatedKeyIffOverlap`).
* In the same router, requests that count ready replicas before either activates any each bring up
  the whole shortfall: two replicas for a floor of one (`OverlapOverscales`, `PassActivates`).
* In the same router a route can be recorded after its replica was fenced, by overlap
  (`OverlapRoutesAfterFence`) or, in a single request, when the list names a replica twice
  (`RepeatedIdRoutesAfterFence`). `RouteAboveFenceIffUnderway` says that nothing else
  can do it.
* The analyzer compares hashes without regard to case, re-chaining compares nothing and writes what
  the digest returns: an accepted log can still change (`OtherCaseLinkIsRewritten`,
  `FixedIffAcceptedAndFolded`).
* `DetectionEngine.evaluate` stores every alert that one event triggers under one sequence
  (`aegis/detection/security_analytics.py`, line 261), and the query for the previous link orders by
  sequence alone; SQL leaves the order of equal sequences open. Storing an alert keeps the chain
  whatever the database does with them if and only if its sequence exceeds all stored ones and the
  highest stored one was used once (`ChainSurvivesIff`); over a whole run, if and only if the
  sequences of the created alerts strictly increase (`StoreStaysGenuineIff`). So the second alert under one sequence may
  break it (`SharedSequenceBreaksChain`), and even when equal sequences are read back in the order of
  insertion the third may (`ThirdOfOneSequenceBreaksChain`).
* A cancel call that is answered after the last planned frame was taken leaves FINAL as the last frame
  (`FinishedStreamCancelledIff`).
* A stream keeps the state object it was opened with while cancel looks at the current one, so after a
  reset a running stream can no longer be cancelled (`ResetSettlesOldStreams`, `OldStreamSendsItsPlan`).
* Group `incorrect_denies` count only DENY, the FPR numerator everything that is not ALLOW:
  `GroupsAccountForRates` gives the exact condition for the two to agree.

## Model

| member | source | states |
|---|---|---|
| `IncidentRouter.ChooseIsFirstSafe` | apps/p10i_ir_lab.py:95-106 | `choose` run serially serves the first replica in cyclic order from the pointer that is unfenced and passes its probe, fences exactly the replicas it passed over and bumps the generation once per new fence |
| `IncidentRouter.ExhaustedMeansAllFenced` | apps/p10i_ir_lab.py:99-106 | after "no safe replicas" every replica is fenced and the pointer has not moved |
| `IncidentRouter.ChosenGoesToTheBack` | apps/p10i_ir_lab.py:104-105 | the pointer stays in range and the served, unfenced replica is visited last in the next round |
| `IncidentRouter.InferKeepsValid` | apps/p10i_ir_lab.py:108-133 | a request keeps replica ids distinct, both tables keyed by them and the pointer in range |
| `IncidentRouter.SweepFencesTheFailing` | apps/p10i_ir_lab.py:139-144 | a scan fences exactly the visited replicas that fail their probe, and changes no table, key or pointer |
| `IncidentRouter.ScanReportsSafe` | apps/p10i_ir_lab.py:138-145 | the scan report names every replica and says whether it was safe when the scan began |
| `IncidentRouter.RouterState.constructor` | apps/p10i_ir_lab.py:59-75 | starts with no fence, no event, generation 200, pointer 0 and both tables filled from the initial replicas |
| `IncidentRouter.RouterState.Emit` | apps/p10i_ir_lab.py:69-70 | appends one event numbered by its place in the log |
| `IncidentRouter.RouterState.Probe` | apps/p10i_ir_lab.py:77-93 | a passing reply changes nothing; any other fences, bumps the generation and logs cause and fence |
| `IncidentRouter.RouterState.TryInTurn` | apps/p10i_ir_lab.py:99-106 | the offset loop with modular indexing computes the walk over the rotated replica list |
| `IncidentRouter.RouterState.Choose` | apps/p10i_ir_lab.py:95-106 | the method computes the specified choice and keeps the state valid, the empty list included |
| `IncidentRouter.RouterState.Infer` | apps/p10i_ir_lab.py:108-133 | the whole handler, with its three refusals and four post outcomes, refines the specified transition |
| `IncidentRouter.RouterState.ScanOne` | apps/p10i_ir_lab.py:140-144 | a fenced replica is reported failing without a probe, any other is probed |
| `IncidentRouter.RouterState.ScanEach` | apps/p10i_ir_lab.py:138-144 | the scan loop computes the specified state and report |
| `IncidentRouter.RouterState.Scan` | apps/p10i_ir_lab.py:135-145 | one probe per unfenced replica; the report has one entry per replica, true exactly for those safe at the start |
| `IncidentRouter.RouterState.Register` | apps/p10i_ir_lab.py:147-158 | adds or replaces a replica without moving a known one, clears its fence, bumps the generation and logs it |
| `IncidentAnswers.ProbeLogsItsCause` | apps/p10i_ir_lab.py:77-93 | a probe answered 200, healthy and intact changes nothing; any other fences, bumps the generation and logs its own cause, unreachable or integrity failure, and then the fence |
| `IncidentAnswers.InferRefuses` | apps/p10i_ir_lab.py:110-119 | a foreign tenant, a missing key and a used key are refused in this order, exactly then, each with its own answer and event and no other change |
| `IncidentAnswers.InferUnavailable` | apps/p10i_ir_lab.py:95-122 | a request is answered "unavailable" if and only if every replica is fenced or fails its probe, and its key stays reserved |
| `IncidentAnswers.InferAnswersAsThePost` | apps/p10i_ir_lab.py:122-133 | otherwise the post reply of the first unfenced replica that answers its probe well decides: exception, other status, tampering, which fences it and is logged, or a clean reply, which alone is logged as a route and served with the live generation |
| `IncidentAnswers.RefusedArrivalIsTheHandler` | apps/p10i_ir_lab.py:110-119 | in every interleaving a refused request does what the handler does, at once |
| `IncidentAnswers.EndpointIsLastRegistered` | apps/p10i_ir_lab.py:75-158 | in every interleaving a replica is reached at the endpoint of its last registration, repeated ones included |
| `IncidentRuns.LogIsAnEventSource` | apps/p10i_ir_lab.py:59-158 | in every interleaving, folding the log from the initial state gives exactly the live fenced set, router generation, replica order and replica generations |
| `IncidentRuns.StampsAreExact` | apps/p10i_ir_lab.py:69-93 | in every interleaving, sequence numbers are 1..n and each logged generation is the first one plus the bumps up to its entry |
| `IncidentRuns.LoggedGenerationsNeverDecrease` | apps/p10i_ir_lab.py:80-158 | in every interleaving, logged generations never decrease along the log nor exceed the live one |
| `IncidentRuns.LogOmitsEndpointsAndReservations` | apps/p10i_ir_lab.py:120-158 | two runs with equal logs can differ in endpoints and in reserved keys |
| `IncidentRuns.RoutedAtMostOnce` | apps/p10i_ir_lab.py:117-132 | in every interleaving, at most one `request_routed` event exists per key |
| `IncidentRuns.RoutedKeyWasReserved` | apps/p10i_ir_lab.py:110-133 | in every interleaving, a routed key was reserved by its own arrival, before any suspension and before the route was logged |
| `IncidentRuns.NewRoutes` | apps/p10i_ir_lab.py:123-133 | only a task awaiting its post can log a route, as the one new entry and to its own replica |
| `IncidentRuns.SerialTrafficAvoidsFenced` | apps/p10i_ir_lab.py:95-133 | in every serial run, no route goes to a replica between its fencing and its re-registration |
| `IncidentRuns.TrafficAvoidsFencedIff` | apps/p10i_ir_lab.py:122-133 | in every interleaving, that holds if and only if no clean post reply is handled for a replica fenced at that moment |
| `IncidentOverlap.RoutedToFencedIffOverlap` | apps/p10i_ir_lab.py:99-158 | in every interleaving, some route goes to a fenced replica if and only if another task's failed probe or tampered post fenced that replica between the request's own look at it and its clean answer, with no registration since |
| `IncidentRuns.OverlapRoutesToFenced` | apps/p10i_ir_lab.py:123-145 | a concrete overlap of one request and one scan routes to a fenced replica |
| `IncidentRuns.RunKeepsValid` | apps/p10i_ir_lab.py:95-158 | in every interleaving, replica ids stay distinct, both tables are keyed by them and `rr_index` stays in range |
| `IncidentExhaustion.ExhaustedFencesWhatItSaw` | apps/p10i_ir_lab.py:99-106 | in every interleaving without registrations, a request that finds no safe replica took one turn per replica and all it looked at is fenced |
| `IncidentExhaustion.NeverOvertakenSeesAll` | apps/p10i_ir_lab.py:95-106 | in every interleaving without registrations, if no other request passes a probe while this one is in its loop and it finds no safe replica, it looked at every replica and every replica is fenced |
| `IncidentExhaustion.OvertakenOnceSeesAllIff` | apps/p10i_ir_lab.py:95-106 | if exactly one does, this request looked at every replica if and only if that came before its first look or after its last, or left the pointer where it was |
| `IncidentExhaustion.OvertakenRequestMissesReplica` | apps/p10i_ir_lab.py:99-106 | a run of two overlapping requests ends one of them with an unfenced replica it never looked at |
| `IncidentFairness.QueueIsSafeSet` | apps/p10i_ir_lab.py:95-106 | the safe replicas in visiting order are the safe set, each once |
| `IncidentFairness.ServeRotatesQueue` | apps/p10i_ir_lab.py:95-106 | one choice serves the head of that queue and moves it to the back, whatever gets fenced on the way |
| `IncidentWindows.AnyWindowIsFair` | apps/p10i_ir_lab.py:95-145 | in every serial run of requests (served, refused, replayed, keyless) and scans without registrations in which exactly the replicas of G pass, from every pointer, any G consecutive `request_routed` entries name each member of G exactly once |
| `IncidentWindows.RunKeepsInTurn` | apps/p10i_ir_lab.py:95-145 | along such a run, who was served, who is being served and who is next in turn form one sequence with period G, G is never fenced and the one task in flight has passed over nobody in G |
| `IncidentFairness.SerialInferIsARun` | apps/p10i_ir_lab.py:108-133 | after any run from a valid start, the serial handler is the arrival followed by resumptions of its own task alone |
| `IncidentFairness.SerialScanIsARun` | apps/p10i_ir_lab.py:135-145 | after any run, the serial scan is its start followed by resumptions of its own task alone |
| `ReplicaRouter.ActivateFromIsEarliest` | apps/p10h_replica_lab.py:132-146 | from any list position, the loop switches on the earliest idle replicas, as many as are missing or left |
| `ReplicaRouter.FloorIsRestored` | apps/p10h_replica_lab.py:127-146 | exactly min(max(0, floor - ready), idle) activations, the earliest in list order, each with its own generation; then the floor is met or nothing idle is left |
| `ReplicaRouter.SweepFencesTheFailing` | apps/p10h_replica_lab.py:151-155 | whatever the list, exactly the listed replicas that fail their probe and were unfenced become fenced, once each, with consecutive generations and `health_probe_failed` records; nothing else changes |
| `ReplicaRouter.ForwardFencesFailures` | apps/p10h_replica_lab.py:167-193 | after j failures exactly those j targets are fenced in order, each with its own generation and reason; success adds one route, key and cursor step; exhaustion adds none |
| `ReplicaServing.RouterState.Fence` | apps/p10h_replica_lab.py:114-124 | fences once, with one generation and one failover record; a second call changes nothing |
| `ReplicaServing.RouterState.ActivateIdle` | apps/p10h_replica_lab.py:132-146 | the in-place activation loop computes the specified activation |
| `ReplicaServing.RouterState.EnsureMinReady` | apps/p10h_replica_lab.py:127-146 | counts probed live replicas and restores the floor from that count |
| `ReplicaServing.RouterState.SweepActive` | apps/p10h_replica_lab.py:151-155 | fences the active replicas that fail their probe, skipping those already fenced |
| `ReplicaServing.RouterState.ForwardInTurn` | apps/p10h_replica_lab.py:167-193 | the forwarding loop computes the specified forwarding |
| `ReplicaServing.RouterState.RouteRequest` | apps/p10h_replica_lab.py:149-193 | sweep, floor, candidates, rotation and forwarding in this order refine the specified request |
| `ReplicaServing.RouterState.Infer` | apps/p10h_replica_lab.py:80-97 | the router branch with its three refusals refines the specified transition |
| `ReplicaServing.RequestTriesEachOnce` | apps/p10h_replica_lab.py:149-193 | the forwarding order is a permutation of the candidates, distinct and unfenced; failures ahead of the first success are fenced in order; exhaustion fences every candidate and adds no route |
| `ReplicaAnswers.PrepareFencesTheFailing` | apps/p10h_replica_lab.py:151-156 | over any list, once a request has swept, a replica id is fenced if and only if it was before or some active replica under it fails its health probe |
| `ReplicaAnswers.PrepareRestoresFloor` | apps/p10h_replica_lab.py:127-156 | the floor is restored from the number of list places that are active, unfenced after the sweep and pass their probe |
| `ReplicaAnswers.CandidatesAreEligible` | apps/p10h_replica_lab.py:157-161 | the candidates are exactly the list places that are active, unfenced and pass their probe, in list order |
| `ReplicaAnswers.RequestFencesExactly` | apps/p10h_replica_lab.py:149-193 | after a whole request over any list, an id is fenced if and only if it was before, an active replica under it failed its health probe, or it failed its post ahead of the first accepted one |
| `ReplicaAnswers.InferAnswers` | apps/p10h_replica_lab.py:80-193 | each of the six answers is given exactly when its condition holds; refusals change nothing, and a key is recorded exactly when a post is accepted |
| `ReplicaAnswers.RefusedArrivalChangesNothing` | apps/p10h_replica_lab.py:80-97 | in every interleaving an arrival leaves everything as it is if and only if the tenant is foreign or the key is missing or seen |
| `ReplicaAnswers.ArrivalSweepsEveryActive` | apps/p10h_replica_lab.py:151-156 | in every interleaving, when a request is past its sweep, every replica that was active on its arrival is fenced or answered this request's own health probe well |
| `ReplicaServing.QuietRequest` | apps/p10h_replica_lab.py:149-187 | with every probe and post answered and the floor met, a request changes nothing but its own route |
| `ReplicaServing.RowFollowsCursor` | apps/p10h_replica_lab.py:149-187 | requests that each end up with one candidate list and succeed at the first try follow that list round from the cursor |
| `ReplicaServing.StableListIsServedEvenly` | apps/p10h_replica_lab.py:149-187 | k such requests over k candidates reach each exactly once, whatever the cursor, the replies of each request, the fences and activations on the way, and the floor |
| `ReplicaServing.QuietRowIsFirstTry` | apps/p10h_replica_lab.py:149-187 | requests that meet no failure at all are such requests |
| `ReplicaRuns.GenerationsAreHandedOutOnce` | apps/p10h_replica_lab.py:114-146 | in every interleaving, failover and scale records together carry exactly first+1..current, each once; the generation is the sum of both counts and is bounded by replicas plus initially inactive ones |
| `ReplicaRuns.CursorCountsRoutes` | apps/p10h_replica_lab.py:175-187 | in every interleaving, cursor, routes and seen keys have one length and match index by index, with route generations never decreasing |
| `ReplicaRuns.RouteBelowFenceIff` | apps/p10h_replica_lab.py:114-187 | in every interleaving, a route's generation is below its replica's failover record if and only if the replica was unfenced when the post reply was handled |
| `ReplicaOverlap.RouteAboveFenceIffUnderway` | apps/p10h_replica_lab.py:149-192 | in every interleaving, a route is not below its replica's failover record if and only if, between the task's pick of that replica and its accepted post, another task's reply fenced it or the task's own earlier post to a repeated id did |
| `ReplicaRuns.NoRouteAfterFence` | apps/p10h_replica_lab.py:114-187 | in every serial run over distinct ids, each route to a replica carries a generation strictly below its failover record |
| `ReplicaRuns.KeysAreUniqueWithoutOverlap` | apps/p10h_replica_lab.py:93-178 | in every interleaving that keeps requests under one key apart, no key is accepted twice |
| `ReplicaRuns.SerialKeysAreUnique` | apps/p10h_replica_lab.py:93-178 | in every serial run, no key is accepted twice |
| `ReplicaRuns.RepeatedKeyIffOverlap` | apps/p10h_replica_lab.py:93-187 | in every interleaving, some key is accepted twice if and only if two requests under one key were in flight at one moment and both had a post accepted |
| `ReplicaDriving.SerialInferIsARun` | apps/p10h_replica_lab.py:93-193 | after any run, the serial handler is the arrival followed by resumptions of its own task alone |
| `ReplicaOverlap.OverlapRepeatsKey` | apps/p10h_replica_lab.py:95-178 | a run of two overlapping requests accepts one key twice |
| `ReplicaOverlap.OverlapRoutesAfterFence` | apps/p10h_replica_lab.py:167-192 | a run of two overlapping requests records a route after its replica's fence |
| `ReplicaOverlap.RepeatedIdRoutesAfterFence` | apps/p10h_replica_lab.py:157-192 | one request over a list that names a replica twice does the same |
| `ReplicaOverlap.PassActivates` | apps/p10h_replica_lab.py:127-146 | in every interleaving, one pass activates exactly min(max(0, floor - what this task counted when it probed), idle now), the earliest in list order, whatever other requests activated in between |
| `ReplicaOverlap.OverlapOverscales` | apps/p10h_replica_lab.py:127-146 | a run of two overlapping requests activates two replicas for a floor of one |
| `StreamQueue.FinishedStreamIsWhole` | apps/p10g_streaming_lab.py:86-133 | in every schedule, a finished stream sent the whole plan, or a proper prefix and then CANCELLED with the cancel event set; its frames are counted and its queue is empty |
| `StreamQueue.FinishedStreamCancelledIff` | apps/p10g_streaming_lab.py:101-130 | a finished stream is cut short with CANCELLED if the event was set before the last planned frame was taken, and is whole if not; over a plan that ends in FINAL its reported terminal kind is CANCELLED exactly then |
| `StreamQueue.EveryStreamIsAPrefix` | apps/p10g_streaming_lab.py:97-133 | at every moment, aborted or not, what was sent is a prefix of one of those |
| `StreamQueue.FinishedStreamHasOneTerminal` | apps/p10g_streaming_lab.py:97-130 | a finished stream ends in its only terminal frame and reports that frame's kind |
| `StreamQueue.NothingIsLost` | apps/p10g_streaming_lab.py:86-125 | until the drain, sent frames, the frame in hand, the queue and what is still to be produced concatenate to plan plus sentinel |
| `StreamQueue.QueueStaysBounded` | apps/p10g_streaming_lab.py:82-95 | queue depth and recorded maximum stay within 2; puts, gets and pauses within the plan length plus one |
| `StreamQueue.PausesAreCounted` | apps/p10g_streaming_lab.py:88-93 | in every schedule, the pause count is the number of turns at which the producer, not yet waiting, had something to put and found the queue full |
| `StreamQueue.WaitsSinceItFoundFull` | apps/p10g_streaming_lab.py:88-94 | the producer is waiting if and only if there was such a turn and nothing was put since |
| `StreamQueue.MaxDepthIsAttained` | apps/p10g_streaming_lab.py:91-95 | the recorded maximum is the greatest depth the queue ever had, and it had it |
| `StreamQueue.DrainedStaysEmpty` | apps/p10g_streaming_lab.py:102-118 | once `queue_drained` is set the queue is empty and stays empty |
| `StreamQueue.NothingAfterCancel` | apps/p10g_streaming_lab.py:105-123 | from the cancel event on, at most one more frame goes out, and it is CANCELLED |
| `StreamQueue.SchedulesTerminate` | apps/p10g_streaming_lab.py:86-133 | every schedule has at most 5 times the plan length plus 11 steps with an effect |
| `StreamQueue.NoDeadlock` | apps/p10g_streaming_lab.py:86-133 | until the generator is over, the producer or the consumer can move |
| `StreamQueue.FairSchedulesEnd` | apps/p10g_streaming_lab.py:86-133 | from every reachable state, 5 times the plan length plus 11 rounds in which producer and consumer each get a turn end the generator, whatever cancel and disconnect do |
| `StreamQueue.LabStream.constructor` | apps/p10g_streaming_lab.py:82-98 | an opened stream has an empty queue, all counters at zero and the plan ahead of it |
| `StreamQueue.LabStream.Produce` | apps/p10g_streaming_lab.py:86-95 | one producer turn refines the step relation, pause counting and depth included |
| `StreamQueue.LabStream.DrainQueue` | apps/p10g_streaming_lab.py:110-118 | the drain loop leaves what the specified drain leaves, then stops the producer |
| `StreamQueue.LabStream.Take` | apps/p10g_streaming_lab.py:101-125 | one dequeue ends the loop, cancels or forwards, as specified |
| `StreamQueue.LabStream.Consume` | apps/p10g_streaming_lab.py:97-133 | one consumer turn refines the step relation |
| `StreamQueue.LabStream.Play` | apps/p10g_streaming_lab.py:86-159 | any schedule of the four actors over the mutable state reaches the state of the abstract run |
| `StreamLab.LabState.ResetLab` | apps/p10g_streaming_lab.py:58-63 | a reset makes a fresh state object, not started |
| `StreamLab.LabState.OpenStream` | apps/p10g_streaming_lab.py:66-80 | three refusals in order, or the current object is started |
| `StreamLab.LabState.CancelStream` | apps/p10g_streaming_lab.py:146-159 | three refusals in order, or the current object's cancel event is set |
| `StreamLab.AnswersAreDecided` | apps/p10g_streaming_lab.py:58-159 | in every run, each answer is given exactly when its condition holds: authorization first, then the stream id, then whether a stream was opened since the last reset |
| `StreamLab.StreamsOpenOncePerReset` | apps/p10g_streaming_lab.py:58-80 | in every run of calls, two opened streams have different state objects, so a reset lies between them |
| `StreamLab.CancelledIffAnswered` | apps/p10g_streaming_lab.py:146-159 | a cancel event is set if and only if a cancel call was answered for its object, which was opened before |
| `StreamLab.ResetSettlesOldStreams` | apps/p10g_streaming_lab.py:58-159 | after a reset, no call changes whether an earlier stream is cancelled |
| `StreamLab.OldStreamSendsItsPlan` | apps/p10g_streaming_lab.py:58-159 | in every mixture of calls and turns, a stream that was not cancelled before its state object was replaced sends its whole plan if it finishes |
| `AlertChain.VerifyAlerts` | evals/p11f_detection_engineering.py:158-164 | the loop accepts if and only if every alert carries the commitment to the list up to it and the terminal is the whole list's; it reports a chain mismatch if and only if some link is wrong |
| `AlertChain.CheckDecides` | evals/p11f_detection_engineering.py:158-164 | the same of the verifier's specification |
| `AlertChain.EventStore.PersistAlert` | aegis/detection/security_analytics.py:210-223 | a known alert is refused and changes nothing; a new one is linked to a row of highest sequence and the table stays in reading order, whatever SQL does with ties |
| `AlertChain.InsertKeepsChainIff` | aegis/detection/security_analytics.py:210-226 | one more alert keeps a genuine chain genuine if and only if the row it is linked to is the one read last and it is read after that, up to a broken digest |
| `AlertChain.ChainSurvivesIff` | aegis/detection/security_analytics.py:210-226 | every choice the database may make among equal sequences keeps a genuine chain genuine if and only if the new sequence exceeds all stored ones and the highest stored one was used once, up to a broken digest |
| `AlertChain.PersistedChainVerifies` | aegis/detection/security_analytics.py:210-236 | such a sequence keeps the chain genuine and accepted, and leaves its own row the only newest one |
| `AlertChain.StoreStaysGenuineIff` | aegis/detection/security_analytics.py:210-226 | over any list of calls on an empty store, the chain is genuine after every call and under every choice the database may make if and only if the sequences of the alerts created strictly increase, up to a broken digest |
| `AlertChain.SharedSequenceBreaksChain` | aegis/detection/security_analytics.py:215-261 | a second alert under the highest sequence may be read before the first, and the verifier then reports a chain mismatch, up to a broken digest |
| `AlertChain.ThirdOfOneSequenceBreaksChain` | aegis/detection/security_analytics.py:215-261 | a third one may be linked to a row that is not read last even when it is itself read last, with the same result |
| `AlertChain.PreimageSplits` | evals/p11f_detection_engineering.py:161 | the fixed-width prior hash makes a preimage split in one way only |
| `AlertChain.ChainsAreSeparate` | aegis/detection/security_analytics.py:205-216 | the alert chain and the event chain never hash the same bytes |
| `AlertChain.TipBinds` | evals/p11f_detection_engineering.py:158-164 | lists with one terminal hash have equal length and equal encoded material everywhere, or exhibit a collision or a genesis preimage |
| `AlertChain.AcceptedListsAgree` | evals/p11f_detection_engineering.py:158-164 | two lists accepted under one terminal hash agree in material and chain hash at every position, up to the same exception |
| `AlertChain.TruncationIsDetected` | evals/p11f_detection_engineering.py:158-164 | every proper prefix of an accepted list is refused at the terminal, up to the same exception |
| `IncidentChain.RechainSignals` | evals/p10i_fixture.py:277-282 | the signal loop computes the re-linked log |
| `IncidentChain.RechainActions` | evals/p10i_fixture.py:283-288 | the containment loop computes the re-linked log |
| `IncidentChain.RechainRecovery` | evals/p10i_fixture.py:289-294 | the recovery loop computes the re-linked log |
| `IncidentChain.RechainForensics` | evals/p10i_fixture.py:295-301 | the forensic loop computes the re-linked log with its custody hashes |
| `IncidentChain.Rechain` | evals/p10i_fixture.py:272-303 | fails exactly when one of the first three logs is empty; otherwise the four loops give one unbroken chain with all other fields kept, equal to the input if and only if that was unbroken |
| `IncidentChain.ChainIsUnbroken` | evals/p10i_fixture.py:276-301 | re-chaining any records gives one unbroken chain |
| `IncidentChain.ChainKeepsBodies` | evals/p10i_fixture.py:276-301 | only link and custody fields change |
| `IncidentChain.ChainChangesOnlyLinks` | evals/p10i_fixture.py:276-301 | the same field by field: each record comes out with its kind and every field but the link, and the custody hash of an artifact |
| `IncidentChain.ChainFixesExactlyUnbroken` | evals/p10i_fixture.py:276-301 | re-chaining is the identity exactly on unbroken chains |
| `IncidentChain.ChainIsIdempotent` | evals/p10i_fixture.py:276-301 | re-chaining twice is re-chaining once |
| `IncidentChain.TamperingPropagates` | evals/p10i_fixture.py:272-303 | changing at one position any field of a signal, action or recovery step but its link, or the id, kind, source or folded content of an artifact, and re-chaining keeps every earlier record and that record's own link, and changes every later link and the final hash, unless the chains exhibit a collision |
| `IncidentChain.UnhashedFieldsStayLocal` | evals/p10i_fixture.py:295-301 | the converse: a change that touches none of these changes no link, no final hash and no other record |
| `IncidentChain.BuildLog` | evals/p10i_fixture.py:73-139 | a builder loop over any rows numbers them from 1, keeps their other fields and returns an unbroken chain that re-chaining leaves alone |
| `IncidentChain.BuildNumbersRows` | evals/p10i_fixture.py:73-139 | signals, actions and recovery steps are numbered by their place from the first number, and all else but links is kept |
| `IncidentChain.BuiltLogsAreFixed` | evals/p10i_fixture.py:73-146 | the four builders joined end to end are one unbroken chain, fixed by re-chaining |
| `IncidentChain.FixedIffAcceptedAndFolded` | aegis/inference/incident_response_security.py:110-146 | re-chaining leaves logs alone if and only if the analyzer accepts every link and none is written in another case |
| `IncidentChain.EmptyLinkIsRefused` | aegis/inference/incident_response_security.py:18 | a missing link or custody hash is never accepted |
| `IncidentChain.OtherCaseLinkIsRewritten` | aegis/inference/incident_response_security.py:18 | for every digest, signal and records after it, a first link written in another case is accepted along with all later links, and re-chaining changes the log |
| `FrameChain.RechainStream` | evals/p10g_fixture.py:298-314 | the loop fails exactly when some tool call's arguments do not parse; otherwise numbers are 1..n, links chain from the seed, derived fields match and all content is kept |
| `FrameChain.RechainSeals` | evals/p10g_fixture.py:298-314 | the same of its specification, from any first number |
| `FrameChain.RechainFixesExactlySealed` | evals/p10g_fixture.py:298-314 | re-chaining is the identity exactly on sealed frame lists |
| `FrameChain.RechainIsIdempotent` | evals/p10g_fixture.py:298-314 | re-chaining twice is re-chaining once |
| `FrameChain.BuiltFramesAreFixed` | evals/p10g_fixture.py:78-150 | the built frames are sealed and fixed by re-chaining from the same seed; building fails exactly when the tool arguments do not parse |
| `FrameChain.BuiltFramesContents` | evals/p10g_fixture.py:109-150 | the four frames carry the fixture's ids, kinds, acknowledgements and payloads, with one tool call and one terminal frame, the last |
| `FrameChain.SealedListsBind` | evals/p10g_fixture.py:78-150 | two sealed lists from one seed with one final digest, empty ones included, are equal, or exhibit a collision or a frame digesting to the seed |
| `ServingEvidence.GroupsAccountForRates` | evals/p11d_serving_security.py:21-34 | group allows add up to the ASR numerator, group denies to at most the FPR numerator and to exactly it if and only if every expected-ALLOW case was observed ALLOW or DENY; sizes add up to the cases; denominators are the class sizes |
| `ServingEvidence.LiveIff` | evals/p11d_serving_security.py:24-29 | the live flag is set if and only if the mode is live, every gate is present and true, the three hashes have 64 characters, the rate counts add up with some limited, every case ran, no attack was allowed and every benign case was |
| `ServingEvidence.GatesDecide` | evals/p11d_serving_security.py:25-28 | the gate checks, with the values on which they raise, pass if and only if those gate conditions hold |
| `ServingEvidence.OnlyRawFieldsMatter` | evals/p11d_serving_security.py:43-49 | accepted results depend on the raw fields alone |
| `EvidenceOutcomes.OutcomeIff` | evals/p11d_serving_security.py:13-40 | input is assessed, refused or raises exactly under conditions listed field by field: keys, phase, version, manifests, claims, debts, groups, cases, classes, gates, sensitive material |
| `EvidenceOutcomes.ClaimsAreRefused` | evals/p11d_serving_security.py:17-45 | evidence that makes either forbidden claim, however spelled, is refused by the validation |
| `EvidenceOutcomes.GroupsAreExact` | evals/p11d_serving_security.py:30 | each group's three counts are those of its own cases |
| `EvidenceOutcomes.RatesAreQuotients` | evals/p11d_serving_security.py:32-34 | each rate's value times its denominator is its numerator |
| `EvidenceOutcomes.AssessmentRepeatsItsInput` | evals/p11d_serving_security.py:31-40 | the assessment repeats every raw field but the observations, disclaims both claims, keeps the observations and is signed over everything but the signature |
| `ServingEvidence.AssessIgnoresFalsySpelling` | evals/p11d_serving_security.py:17-37 | however the two false claims are spelled, the assessment is the same |
| `ServingEvidence.MergedEvidenceValidates` | evals/p11d_serving_security.py:13-49 | evidence merged with its own assessment, and with any of the two other uncompared keys, validates back to that assessment |
| `ServingEvidence.ForgedKeyIsRejected` | evals/p11d_serving_security.py:43-49 | any value written under any key of such merged evidence leaves the result as it is when it repeats the assessment or is not compared, and gets the evidence rejected otherwise |

## Left out

- `AlertChain.EventStore.PersistAlert`: rows that share a sequence are read in one order that does not change between reads; statistics counters and how an alert is computed from its events are not modelled.
- `AlertChain.VerifyAlerts`: alerts arrive decoded; a missing field that would raise `KeyError` and the digest of the whole list (line 157) are not modelled.
- `ServingEvidence.LiveIff`: gate values are Booleans, integers, strings or null, not floating-point numbers or containers; rates are exact quotients.
- `IncidentRouter.RouterState.Register`: a request body without its keys, or a generation that is not a number, raises before any state changes and is not modelled.
- `IncidentChain.BuildLog`: the concrete rows of the fixture are arbitrary rows here.
- `ReplicaServing.RequestTriesEachOnce`: a 200 reply whose JSON body is not an object raises at line 187 after the route and key are recorded, and the loop then fences the replica and goes on; reply bodies are assumed to be JSON objects, here and in `ReplicaRuns.SerialKeysAreUnique`.
- `ReplicaRouter.SweepFencesTheFailing`: replies within one phase are a function of the replica id, so two list entries under one id answer alike there; `ReplicaRuns` has no such restriction.
- `ServingEvidence.ForgedKeyIsRejected`: compared values are strings, Booleans, integers, lists of strings, observations, rates and group summaries; a Boolean or floating-point number in place of an integer inside a rate or summary object is not modelled.
- Wall-clock fields (`at_ns`), timeouts, HTTP, TLS, header tokens, FastAPI and httpx: replies are arbitrary values instead.
- The replica side of both labs and their status endpoints: plain reads and flag writes.
- SSE and JSON encoding, SHA-256 and Ed25519: parameters.
- `metric_summary` and the rest of `validate_evidence` in `evals/p11f_detection_engineering.py`, and the `assess` functions of `evals/p11b_*`, `p11c_*` and `p11e_*`: the same counting shape as `p11d`, easier.
- The remaining fixtures, evaluation drivers and gateways, and the rest of the `aegis` package: scripted scenarios, case tables and libraries outside this core.
