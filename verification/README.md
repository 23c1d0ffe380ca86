# Verified model of velux2mqtt

velux2mqtt connects a VELUX KLF 200 gateway to MQTT. The gateway speaks a request/confirmation protocol
with sessions over SLIP; the bridge keeps a cache of its nodes and groups and mirrors it in retained MQTT
topics, with Home Assistant discovery on top. This project models the parts of the program where order,
state and arithmetic matter and proves what they are there for.

Each stateful component appears twice. A state machine over values (functions and datatypes) is what
the lemmas about whole runs are stated on. A class, or a method with a loop, does what the program does, in
place and step by step, and its postconditions say that it computes exactly the value-level functions.

| file | component |
|---|---|
| `Base.dfy`, `Bits.dfy` | options, results, machine integers, errors; XOR and single bits by digits |
| `Slip.dfy`, `Frames.dfy`, `Wire.dfy` | SLIP codec (RFC 1055), KLF frame envelope, and both composed |
| `SessionIds.dfy`, `Values.dfy`, `Payloads.dfy` | session-ID allocator, positions, bitsets, fixed strings, fixed-layout payloads |
| `Protocol.dfy` | command identifiers, requests, responses, session classifiers |
| `Actor.dfy`, `ConnectionActor.dfy` | the connection actor: state machine, and the object that updates its fields |
| `ReplyOrigins.dfy`, `ReplyCauses.dfy` | which received frame each successful reply carries; why requests fail, and deadlines |
| `Nodes.dfy`, `NodeCache.dfy` | cover nodes and their cache: functions, and the mutable objects |
| `Topics.dfy`, `Retained.dfy` | retained topics and their strings; publications and the broker's store |
| `Identifiers.dfy`, `Discovery.dfy` | normalised identifiers, component keys, Home Assistant discovery and its observer |
| `Snapshots.dfy`, `Bridge.dfy`, `VeluxBridge.dfy` | the complete snapshot, the bridge state machine, and the bridge object |
| `Views.dfy` | what the bridge remembers and who is there, whatever the broker does |
| `Reports.dfy` | what the actor reports of received frames, how it ends, and what the bridge makes of it |
| `Readings.dfy`, `Descriptions.dfy` | from the bytes of a notification to the topics of covers, nodes and groups |
| `Commands.dfy` | what commands ask of the gateway, down to the bytes, and where covers go |
| `Setup.dfy` | discovery results, recovered group members and initial statuses, prepared for the bridge |
| `StaleTopics.dfy` | when the retained store holds topics of nodes, covers and groups that are no more |
| `Observers.dfy` | what each step publishes, and a Home Assistant that listens to whole runs |
| `SessionLedger.dfy` | the bridge's allocator and the actor's session map together |
| `SessionOwnership.dfy` | the ledger's steps are the bridge's, and no session's ID can be handed out again |
| `SessionScenarios.dfy` | short runs in which IDs are lost or freed too early |
| `Backoff.dfy`, `Reconnects.dfy` | reconnect delays, and the retries of whole runs |

Main results, hardest first:

- **Incremental publishing equals full recomputation** (`Bridge.RunStaysInSync`): in every state of every run
  in which the broker is connected and a gateway is present, replaying the complete snapshot would change
  nothing in the retained store but the timestamp inside node metadata, and availability is right.
- **No topic goes stale**: the node and group topics stored are exactly those of the current view, exactly as
  long as no input strands one (`StaleTopics.RunIsCleanUnlessItStrands`, `StaleTopics.StoredTopicsAreTheView`).
- **No session ID is lost** between bridge and actor, whether the actor runs or has ended
  (`SessionLedger.RunKeepsCoverage`, `SessionLedger.DrainedAllocatorIsEmpty`), exactly as long as the gateway
  sends no wink completion for a session of another kind (`SessionLedger.PlayKeepsCoverageUnlessItLeaks`); and
  none is handed out while its session lives (`SessionOwnership.FreshIdsAreInNoSession`), exactly as long as no
  session's end overtakes its confirmation (`SessionOwnership.PlayKeepsOwnershipUnlessOvertaken`).
- **What the gateway last said is what the broker shows**: in every run, with broker and gateway, percentages,
  state and metadata come from the bytes of the last frame about a node, through disconnections, other notifications,
  refused commands and commands to other covers in between (`Readings.LastReportIsShown`, `Descriptions.LastDescriptionIsShown`). No
  notification is lost between the wire and the bridge (`Reports.BridgeKnowsWhatWasReceived`), and the broker's
  coming and going has no part in what the bridge knows (`Views.BrokerDoesNotMatter`).
- **Commands do what they say**: each sends exactly one request, whose bytes drive the right cover to the right end;
  an accepted one shows as opening or closing (`Commands.CommandsDrive`, `Commands.CommandsAreShown`).
- **Replies are conserved and in order, sessions never overlap, ticks are exact** (`Actor`); every successful
  reply carries a frame received after its request was written (`ReplyOrigins`), every error has its cause and
  every deadline its turn (`ReplyCauses`).
- **Retries follow the failures**: the n-th failure in a row is followed by the n-th doubled delay
  (`Reconnects.RetriesFollowTheFailures`).
- **The streaming decoder refines a batch specification**, and KLF frames come through any chunking after at
  most one leftover result (`Slip`, `Wire`).
- **A discovery observer stays in sync** over every sequence of inventories (`Discovery`) and over every run of the
  bridge, setups and disconnections included (`Observers.ObserverFollowsTheBridge`).

## Findings

Properties that hold only under a condition; each is stated with the exact condition.

- A wink completion for a live session of another kind ends the session in the actor but not in the bridge's
  allocator (`SessionLedger.WinkCompletionLosesTheId`; `SessionScenarios.AWinkCanLeak` is a run). The bridge itself never sends wink requests.
- Topics of nodes and groups that are gone stay in the store exactly in these cases
  (`StaleTopics.StepIsCleanUnlessItStrands`): the broker retains foreign ones when a connection begins
  (`StaleTopics.RetainedTopicStays`); a setup finishes while MQTT is disconnected and drops them
  (`Bridge.RemovedTopicsAreCleared`); a group is deleted while MQTT is disconnected
  (`StaleTopics.DeletedGroupKeepsItsTopic`); or a cover is reported again, by a setup or a notification, as
  something that is no cover, connected or not (`StaleTopics.FormerCoverKeepsItsStatus`).
- A session whose end is read by the bridge after it was confirmed, but arrived before, leaves its ID free for the
  bridge while the actor still holds the session; the next request with that ID is refused as being in use
  (`SessionOwnership.OvertakenIdIsRefused`; `SessionScenarios.AnEndCanOvertake` is a run).
- A discovery publisher that starts anew does not remove components that an observer still shows from before
  (`Discovery.RestartLeavesOldComponents`).
- An opening cover whose position lies beyond its fully closed target would be toggled the wrong way; decoding
  never yields such a position (`Nodes.ToggleReversesMotion`, `NodeCache.ReachableCachesAreSound`).
- Two exchanged bytes go unnoticed exactly if both lie behind the length byte, the checksum included, or are equal
  (`Frames.ByteSwapIsNotDetected`).

## Assumptions

- Publishing succeeds while the broker is connected, and nobody else writes the bridge's topics meanwhile.
  What the broker retains when a connection begins is arbitrary.
- The event channel does not lag during setup; lagging later is the input that makes the gateway fail.
- Instants are natural numbers, random jitter and gateway answers are parameters, and JSON texts are
  represented by the values they are printed from.
- Retained publications with an empty payload clear their topic (section 3.3.1.3 of MQTT Version 5.0).

## Model

| member | source | states |
|---|---|---|
| Slip.Encode | src/klf200/slip.rs:10-23 | the loop computes END, the escaped frame, END |
| Slip.PartsAreTheOnlySplit | src/klf200/slip.rs:52-103 | the batch view is well defined: there is one way to cut a stream at END |
| Slip.FeedKeepsSound | src/klf200/slip.rs:26-103 | in every reachable decoder state the buffer is within the maximum and an escape is never pending while discarding |
| Slip.ChunkingIsInvisible | src/klf200/slip.rs:52-103 | any chunking of a stream gives the same results and state as the whole stream |
| Slip.FeedRefinesBatch | src/klf200/slip.rs:52-103 | the byte-by-byte decoder produces what splitting on END, dropping the preamble and mapping each segment to nothing, one frame or one error produces |
| Slip.DecodingRefinesBatch | src/klf200/slip.rs:52-103 | the same for chunks, with the buffer bound |
| Slip.EncodedFramesComeBack | src/klf200/slip.rs:10-103 | from any decoder state, encoded non-empty frames within the maximum come out in order after at most one leftover |
| Slip.Decoder.Push | src/klf200/slip.rs:52-103 | the in-place decoder returns the results of the value-level decoder and reaches its state |
| Frames.ComputeChecksum | src/klf200/frame.rs:116-118 | the loop computes the XOR of all bytes |
| Frames.Encode | src/klf200/frame.rs:53-81 | assembles the envelope, or refuses a foreign protocol ID or an oversized payload |
| Frames.EnvelopeIsABijection | src/klf200/frame.rs:53-113 | a byte string decodes to a frame if and only if the frame encodes to it |
| Frames.OneByteErrorIsDetected | src/klf200/frame.rs:84-118 | replacing any one byte of a valid frame is rejected, by the protocol, length or checksum check according to its place |
| Frames.ByteSwapIsNotDetected | src/klf200/frame.rs:84-118 | exchanging two bytes of a valid frame is accepted if and only if both lie behind the length byte, the checksum included, or they are equal: the limit of the detection |
| Wire.FramesArriveInOrder | src/klf200/connection.rs:864-893 | frames written by a peer are read back in order, in any chunking and from any decoder state, after at most one leftover |
| Wire.NoiseCostsAtMostOneResult | src/klf200/connection.rs:864-893 | traffic of any kind before them costs at most one result beyond its own |
| Wire.EveryEncodableFrameFits | src/klf200/frame.rs:53-81 | no encodable frame exceeds 257 bytes, well within the default maximum |
| Wire.FrameReader.Receive | src/klf200/connection.rs:864-893 | one chunk is pushed and every result forwarded as frame or protocol error |
| SessionIds.AllocateIsExact | src/klf200/types.rs:109-123 | allocation hands out the first inactive ID in cyclic order and fails exactly when all 65535 are active, leaving the cursor where it was |
| SessionIds.ScannedIsActiveOrTaken | src/klf200/types.rs:109-123 | a scan passes over an ID only if it is active or handed out |
| SessionIds.ReuseOnlyAfterFullRound | src/klf200/types.rs:90-143 | over any operations, between two allocations of one ID the scans met every other ID |
| SessionIds.EveryOtherIdComesUp | src/klf200/types.rs:90-143 | between two allocations of one ID every other ID comes up at some allocation, which hands it out or finds it active |
| SessionIds.SessionIdAllocator.Allocate | src/klf200/types.rs:109-123 | the cursor loop computes the exact allocation |
| SessionIds.SessionIdAllocator.Reserve | src/klf200/types.rs:125-133 | an inactive ID becomes active; an active one is an error that changes nothing |
| SessionIds.SessionIdAllocator.Release | src/klf200/types.rs:135-137 | the ID becomes inactive; the result tells whether it was active |
| Values.ParameterRoundTrips | src/klf200/types.rs:214-251 | every raw position survives decoding and encoding; a parameter survives encoding and decoding exactly when canonical; relative positions off the wire are at most 0xC800 |
| Values.MembersDetermineBits | src/klf200/types.rs:385-431 | 25 bytes and a subset of 0..199 determine each other |
| Values.ActuatorSet.Contains | src/klf200/types.rs:402-404 | membership in the subset the bytes stand for |
| Values.ActuatorSet.Insert | src/klf200/types.rs:406-413 | adds one index to the subset, refuses 200 and above, and tells whether it was new |
| Values.ActuatorSet.Remove | src/klf200/types.rs:415-422 | removes one index from the subset and tells whether it was there |
| Values.ActuatorSet.Iter | src/klf200/types.rs:424-428 | yields the subset, complete and ascending |
| Values.EncodeFixedString | src/klf200/types.rs:446-463 | the array is the text padded with zeros, or an error for NUL or excess length |
| Values.FixedStringComesBack | src/klf200/types.rs:434-463 | a text fits exactly when NUL-free and shorter than the field, and then decodes to itself |
| Values.FixedFieldComesBack | src/klf200/types.rs:434-463 | a decoded field encodes back to itself exactly when only zeros follow the text |
| Payloads.EncodeGroupInformation | src/klf200/command.rs:622-635 | the array filled field by field is the group layout |
| Payloads.GroupComesBack | src/klf200/response.rs:943-959 | group information encodes exactly when its name is NUL-free and at most 63 bytes, and then decodes to itself |
| Payloads.GroupPayloadComesBack | src/klf200/response.rs:943-959 | a decoded group payload encodes back bit for bit exactly when its name field is zero-padded |
| Payloads.LinksComeBack | src/klf200/response.rs:790-827 | up to ten contact input links decode to themselves exactly when all their positions are canonical |
| Protocol.ConfirmationsAreDistinct | src/klf200/command_id.rs:33-39 | no two requests share a confirmation, and no confirmation is a request or notification |
| Protocol.DecodedResponsesAreSound | src/klf200/response.rs:868-959 | no decoded position exceeds fully closed; a group change carries information exactly when its type is 1, and then for the group it names |
| Protocol.UpdatesComeAsNotifications | src/klf200/command_id.rs:80-90 | whatever decodes to news of nodes, statuses, groups or ends of sessions has a notification's command, which no request expects |
| Protocol.AcceptanceOnTheWire | src/klf200/connection.rs:803-817 | the confirmation of each session request starts the session with the ID in its bytes exactly if its status byte is the accepting one |
| Actor.DispatchKeeps | src/klf200/connection.rs:675-724 | dispatching keeps the invariant and ends with a pending request, an empty queue or a failed connection, without touching sessions or events |
| Actor.DropIsHarmless | src/klf200/connection.rs:749-769 | dropping the ID of an unconfirmed request never drops a live session |
| Actor.HandleFrameKeeps | src/klf200/connection.rs:726-787 | handling a frame keeps replies in order, writes in order, sessions tracked and replies justified |
| Actor.ExpireSessionsKeeps | src/klf200/connection.rs:843-853 | expiry removes exactly the due sessions and reports each once, keeping the invariant |
| Actor.LoopKeeps | src/klf200/connection.rs:580-673 | in every reachable state answered, pending and queued requests are the arrivals in order, at most one written request is unanswered, and an Ok reply is one that a matching confirmation can carry |
| Actor.LoopReceivesTheCommands | src/klf200/connection.rs:598-621 | the loop receives exactly the requests among the inputs it takes, in order, and takes every input while it runs |
| Actor.EveryRequestIsAnsweredOnce | src/klf200/connection.rs:598-673 | after any exit the requests among the inputs taken and those drained from the channel have exactly one reply each, in that order |
| ReplyOrigins.EveryOkReplyHasItsFrame | src/klf200/connection.rs:598-787 | over whole runs every Ok reply carries the decoding of a frame that a turn took in while its request, already written, was pending, with the expected command and session |
| Actor.SessionsNeverOverlap | src/klf200/connection.rs:726-853 | per session ID the trace alternates accept and finish or expiry, no expiry precedes its deadline, the map holds exactly the open ones, and the pending request's ID is never among them |
| Actor.LifetimesAlternate | src/klf200/connection.rs:749-853 | the same for any replayable trace |
| Actor.OneOutcomePerFrame | src/klf200/connection.rs:726-787 | a frame causes exactly one reply or one event; one that is not awaited is reported as notification, unexpected response or protocol error according to its command and decoding; a mismatched confirmation is unexpected and leaves pending and sessions alone; an Ok reply carries the expected command and session |
| Reports.UpdatesAreNoticed | src/klf200/connection.rs:773-787 | a frame that tells about nodes, statuses, groups or ends of sessions is always among the notices below |
| Reports.TurnsAreReported | src/klf200/connection.rs:611-648 | a malformed frame is reported as a protocol error, each session a tick ends as timed out, and requests and the end are not |
| Reports.EveryNotificationIsReported | src/klf200/connection.rs:773-787 | over whole runs, whatever ends them, the notifications reported are exactly the decoded notification frames taken in, in order |
| Reports.DisconnectionIsReportedLast | src/klf200/connection.rs:651-673 | a run whose last turn found the stream closed or could not write reports that once, last, with its reason; one that was told to end does not |
| Reports.BridgeKnowsWhatWasReceived | src/bridge.rs:470-577 | once the bridge has read all events, whatever broker connections and commands came between, its nodes and groups are what the received notification frames tell one after the other |
| ReplyCauses.EveryErrorHasItsCause | src/klf200/connection.rs:675-862 | over whole runs an error reply comes from a turn that refused the request for the first reason that applies, failed to write it, found its deadline passed or could not decode its confirmation; or from the end of the loop, as closed |
| ReplyCauses.WrittenIsNotRefused | src/klf200/connection.rs:686-699 | no written request is one that would be refused |
| ReplyCauses.DeadlinesFollowTheClock | src/klf200/connection.rs:714-757 | in every reachable state the pending request was written, by a turn of the run, the request timeout before its deadline, and each session was confirmed the session timeout before its own |
| ReplyCauses.TimeoutsComeLate | src/klf200/connection.rs:826-841 | a tick that times a request out comes at least the request timeout after the turn that wrote it |
| Actor.TickIsExact | src/klf200/connection.rs:826-853 | after a tick nothing is due, the rest keeps its deadlines, each expired session is reported once and a timed-out request is answered |
| Actor.WireCarriesTheRequests | src/klf200/connection.rs:701-712 | the bytes a run writes decode to exactly the written requests, in order |
| ConnectionActor.Connection.Receive | src/klf200/connection.rs:613-615 | a request joins the queue |
| ConnectionActor.Connection.DispatchNext | src/klf200/connection.rs:675-724 | the loop computes the dispatch step |
| ConnectionActor.Connection.HandleFrame | src/klf200/connection.rs:726-787 | updates pending, sessions, replies and events as the frame step says |
| ConnectionActor.Connection.ExpireRequest | src/klf200/connection.rs:826-841 | the request timer step |
| ConnectionActor.Connection.ExpireSessions | src/klf200/connection.rs:843-853 | the loop expires the due sessions in some order |
| ConnectionActor.Connection.FailOutstanding | src/klf200/connection.rs:855-862 | the pending and all queued requests are answered as closed |
| ConnectionActor.Connection.DrainCommands | src/klf200/connection.rs:652-664 | requests left in the channel are answered as closed |
| ConnectionActor.Connection.RunActor | src/klf200/connection.rs:580-673 | the whole actor plays a possible sequence of turns and its epilogue, and leaves one reply per request in order |
| Nodes.ApplyReportsExactly | src/veluxnode.rs:582-621 | a response reports a node if and only if it changed the cache, and changed it only there |
| Nodes.ApplyKeepsSound | src/veluxnode.rs:582-621 | decoded responses keep nodes under their own IDs, covers told by the actuator code and positions in range |
| Nodes.ReconcileIsExact | src/veluxnode.rs:556-580 | leaves exactly the listed nodes, each as last listed; added, removed and (without repetition) updated are the exact differences |
| Nodes.OpenPercentIsNearest | src/veluxnode.rs:659-661 | the published percentage is within half a percent of the exact one, and exact for whole percents |
| Nodes.ToggleReversesMotion | src/veluxnode.rs:476-504 | toggling a closing cover opens it; an opening one is closed if and only if its target is not fully closed, which consistent nodes guarantee |
| Nodes.AcceptedTogglesAlternate | src/veluxnode.rs:344-356 | once the first toggle resolves, accepted toggles alternate between the ends |
| NodeCache.VeluxNode.ApplyInformationChanged | src/veluxnode.rs:373-383 | new name, order, placement and variation; the result tells whether the node changed |
| NodeCache.VeluxNode.ApplyStatePosition | src/veluxnode.rs:385-400 | new state, positions, time and freshness; the result tells whether the node changed |
| NodeCache.VeluxNode.ApplyStatus | src/veluxnode.rs:402-426 | the same for a status with main information, nothing for others |
| NodeCache.VeluxNode.ApplyRunStatus | src/veluxnode.rs:428-447 | run state and remaining time; the position only for the main parameter |
| NodeCache.VeluxNode.ApplyCommandConfirmation | src/veluxnode.rs:358-371 | an acceptance of this session makes the node execute towards the endpoint; anything else changes nothing |
| NodeCache.VeluxNodeCache.ApplyResponse | src/veluxnode.rs:582-621 | the object's cache and result are those of the value-level step |
| NodeCache.VeluxNodeCache.Reconcile | src/veluxnode.rs:556-580 | the loops compute the reconciliation and its three lists |
| NodeCache.VeluxNodeCache.SetAllAvailable | src/veluxnode.rs:623-628 | every node, and nothing else, changes its availability |
| NodeCache.ReachableCachesAreSound | src/veluxnode.rs:537-661 | in every reachable cache percentages are accurate and toggles reverse motion |
| Topics.RenderIsInjective | src/mqtt.rs:266-334 | no two retained topics share a string, whatever base topic, prefix and client ID |
| Retained.PublishAllLeavesTheLast | src/mqtt.rs:705-718 | after a list of retained publications each topic holds the last payload published on it |
| Identifiers.TopicIdentifier | src/hassdiscovery.rs:287-307 | the character loop computes the joined lowercase words, or the fallback |
| Identifiers.IdentifierIsCanonical | src/hassdiscovery.rs:287-307 | identifiers have only lowercase letters, digits and single inner underscores, and exactly such texts are left alone |
| Identifiers.IdentifierIsIdempotent | src/hassdiscovery.rs:287-307 | normalising twice is normalising once |
| Identifiers.WordsSplit | src/hassdiscovery.rs:287-307 | a separator splits a text into the words before and after it |
| Identifiers.WordsOfRun | src/hassdiscovery.rs:287-307 | a run of letters and digits is one word, lowercased |
| Identifiers.KeysAreCollisionFree | src/hassdiscovery.rs:39-55 | node keys coincide exactly for equal non-zero serials or equal serial-less nodes, group keys exactly for equal groups, and nodes never share with groups |
| Discovery.ComponentsAreTheInventory | src/hassdiscovery.rs:83-118 | the components are exactly those of controllable nodes and groups |
| Discovery.NodeIsDescribed | src/hassdiscovery.rs:84-106 | a controllable node is described under its key, with its name and device class, unless a later one shares its serial; no group displaces it |
| Discovery.GroupIsDescribed | src/hassdiscovery.rs:107-118 | a group is described under its key, with a numbered name if its own is blank |
| Discovery.AnnouncementLeaves | src/hassdiscovery.rs:120-170 | a call leaves the device configuration of its own inventory and cleared legacy topics |
| Discovery.ObserverIsInSync | src/hassdiscovery.rs:141-170 | after a call an observer holds exactly the current components if and only if it held none the publisher did not know, or none are left |
| Discovery.DiscoveryStaysInSync | src/hassdiscovery.rs:77-171 | over every sequence of inventories observer and publisher agree, the retained configuration is the last one's, and every component's legacy topic is cleared |
| Discovery.RestartLeavesOldComponents | src/hassdiscovery.rs:20-27 | a publisher that starts with nothing known leaves an observer's old component shown |
| Discovery.HomeAssistantDiscovery.Inventory | src/hassdiscovery.rs:83-118 | the loops compute the component map |
| Discovery.HomeAssistantDiscovery.Publications | src/hassdiscovery.rs:77-171 | the loops compute the announcement and remember its components |
| Discovery.LegacyTopicsAreMigrated | src/hassdiscovery.rs:154-168 | every component's legacy topic is marked for migration before any device configuration and cleared only after all of them |
| Snapshots.SnapshotLeaves | src/bridge.rs:592-610 | a snapshot leaves on each topic exactly what the view wants there |
| Snapshots.UpToDateMeansReplayIsIdle | src/bridge.rs:592-610 | a store agrees with a view if and only if replaying the snapshot changes nothing but metadata timestamps |
| Snapshots.OnlineComesLast | src/bridge.rs:592-610 | within a snapshot availability is offline first and online only after everything else |
| Snapshots.PublishingTheDifference | src/bridge.rs:490-577 | publications that cover every topic where two views differ carry agreement from one to the other |
| Bridge.ApplyGroupKeeps | src/bridge.rs:540-577 | group updates publish all that changes, and groups stay keyed by their own IDs |
| Bridge.ApplyNodeKeeps | src/bridge.rs:511-537 | node updates publish all that changes |
| Bridge.HandleResponseKeeps | src/bridge.rs:490-538 | every notification keeps the store in agreement |
| Bridge.CoverAskedKeeps | src/bridge.rs:318-366 | cover commands keep the store in agreement, whatever the answer |
| Bridge.StepKeeps | src/bridge.rs:158-259 | every handler keeps the store in agreement and availability right |
| Bridge.RunStaysInSync | src/bridge.rs:188-645 | in every state of every run, replaying the snapshot is idle up to timestamps and retained availability is online if and only if a gateway is present |
| Bridge.RemovedTopicsAreCleared | src/bridge.rs:191-224 | topics of nodes and groups a setup no longer lists are cleared if and only if the broker is connected then; otherwise a reconnection leaves them |
| Bridge.RequestsAccountForTheirIds | src/bridge.rs:318-468 | a request takes a fresh session ID and keeps it exactly if its answer says the session runs |
| StaleTopics.StepIsCleanUnlessItStrands | src/bridge.rs:188-577 | an input leaves a topic of something that is no more if and only if the broker retains a foreign one, a setup drops one behind the broker's back, a group is deleted while disconnected, or a cover turns into something else |
| StaleTopics.RunIsCleanUnlessItStrands | src/bridge.rs:188-577 | no state of a run has a stale node or group topic stored if and only if no input of the run is one of these |
| StaleTopics.StoredTopicsAreTheView | src/bridge.rs:592-610 | until then, with broker and gateway, the node and group topics stored are exactly those a snapshot publishes |
| StaleTopics.DeletedGroupKeepsItsTopic | src/bridge.rs:560-573 | a group deleted while disconnected keeps its topic after reconnection |
| StaleTopics.FormerCoverKeepsItsStatus | src/bridge.rs:519-536 | a cover reported again as something else keeps all its status topics while connected |
| StaleTopics.RetainedTopicStays | src/bridge.rs:238-248 | a foreign topic the broker retains survives a connection |
| Views.ResponsesAreRemembered | src/bridge.rs:490-577 | after a response the cache and the groups are exactly what it tells, connected or not, and nothing else changes but the released session ID |
| Views.BrokerDoesNotMatter | src/bridge.rs:236-259 | two runs whose inputs differ only in broker connections and losses have equal nodes, groups, session IDs, requests and retries |
| Views.PresenceIsTracked | src/bridge.rs:188-259 | in every state of every run the flags tell whether broker and gateway are there; a setup's nodes, groups and IDs are taken over; without a gateway no ID is in use and no node available |
| Reconnects.RetriesFollowTheFailures | src/bridge.rs:209-231 | over every run the base delay is the n-th after n failures since the last setup or reboot; a failure is retried within a quarter of it, a reboot after exactly its delay, and nothing else moves the retry |
| Reconnects.FailuresBackOff | src/bridge.rs:163-165 | if setups start no earlier than due, the next one to fail after a failure does so at least the base delay later |
| Readings.StoreShowsReadings | src/mqtt.rs:477-491 | in every state of every run with broker and gateway the four status topics of each cover show its percentages to the nearest and the state its positions and operating state imply |
| Readings.FramesAreTaken | src/veluxnode.rs:582-621 | every decoded frame gives the node it is about the operating state, positions and time in its bytes, and leaves every other node's alone |
| Readings.LastReportIsShown | src/bridge.rs:490-538 | with broker and gateway the status topics show the bytes of the last frame about a cover, whatever else came between but a setup or an accepted command for it |
| Readings.PositionsAreShown | src/veluxnode.rs:632-648 | the same for position notifications in full: percentages, and open, closed, opening or closing from the raw bytes |
| Descriptions.InventoriesAreExact | src/bridge.rs:612-629 | the inventories list exactly the nodes and groups in ascending order, and each group's topic holds it as last told |
| Descriptions.DescriptionsAreTaken | src/klf200/response.rs:1168-1214 | a node description is taken over byte by byte, a change in part |
| Descriptions.LastDescriptionIsShown | src/mqtt.rs:438-444 | with broker and gateway a node's metadata topic presents the bytes of the last frame that describes it |
| Commands.CommandBytes | src/klf200/command.rs:778-793 | the payload of a cover command, byte by byte |
| Commands.StatusBytes | src/klf200/command.rs:795-807 | the payload of a status request, byte by byte |
| Commands.ActivationBytes | src/klf200/command.rs:741-758 | the payload of a group activation, byte by byte |
| Commands.CommandsDrive | src/bridge.rs:318-366 | a cover command sends exactly one request: open drives to 0, close to 0xC800, toggle to the other end or back; accepted, the cover executes towards it, and otherwise no node changes |
| Commands.OtherCommandsMoveNothing | src/bridge.rs:324-337 | a toggle that nothing decides asks for the status instead; a node that is no cover or unknown is asked nothing |
| Commands.CommandsAreShown | src/bridge.rs:346-352 | over runs an accepted command shows as opening or closing towards its end until the next news of the cover |
| Commands.GroupCommandsDrive | src/bridge.rs:368-418 | a group command sends exactly one request, which drives this group at its velocity to the open or closed end |
| Commands.RefreshAsksStationaryCovers | src/bridge.rs:429-468 | a refresh asks exactly the covers not known to be moving, in order, short only of session IDs |
| StaleTopics.DroppedLegacyIsCleared | src/bridge.rs:671-697 | a setup that finishes while the broker is connected leaves no legacy discovery topic of a cover or group it drops |
| Observers.StepPublishesItsMessages | src/bridge.rs:188-645 | the store after a step is what the step's messages make of the store before, or of what a new broker retains |
| Observers.ObserverFollowsTheBridge | src/bridge.rs:631-645 | in every state of every run, an observer fed each step's messages shows exactly the current components when broker and gateway are there |
| VeluxBridge.VeluxMqttBridge.PublishCompleteSnapshot | src/bridge.rs:592-610 | the loops publish the snapshot |
| VeluxBridge.VeluxMqttBridge.PublishHassDiscovery | src/bridge.rs:631-645 | publishes the announcement and remembers its components, if connected |
| VeluxBridge.VeluxMqttBridge.HandleSetupDone | src/bridge.rs:188-225 | adopts the prepared gateway; if connected, clears what is gone and publishes the snapshot |
| VeluxBridge.VeluxMqttBridge.HandleSetupFailed | src/bridge.rs:227-232 | schedules a retry and announces offline |
| VeluxBridge.VeluxMqttBridge.HandleMqttConnected | src/bridge.rs:238-248 | brings whatever the broker retained up to date, or announces offline |
| VeluxBridge.VeluxMqttBridge.HandleMqttLost | src/bridge.rs:250-257 | the broker is no longer connected |
| VeluxBridge.VeluxMqttBridge.GatewayFailed | src/bridge.rs:579-590 | forgets the gateway and its session IDs, schedules a retry and announces offline |
| VeluxBridge.VeluxMqttBridge.ExecuteGatewayReboot | src/bridge.rs:296-316 | the same with a reset backoff and the configured delay |
| VeluxBridge.VeluxMqttBridge.ApplyGroupResponse | src/bridge.rs:540-577 | inserts or removes a group and publishes what follows |
| VeluxBridge.VeluxMqttBridge.ApplyNodeResponse | src/bridge.rs:511-537 | applies a response to the cache and publishes what follows |
| VeluxBridge.VeluxMqttBridge.HandleResponse | src/bridge.rs:490-538 | releases a finished session, then updates groups and nodes, keeping agreement |
| VeluxBridge.VeluxMqttBridge.HandleGatewayEvent | src/bridge.rs:470-488 | each event leads to its handler |
| VeluxBridge.VeluxMqttBridge.RequestStatus | src/bridge.rs:445-468 | one new session ID stays active exactly when the request is accepted |
| VeluxBridge.VeluxMqttBridge.ExecuteCoverCommand | src/bridge.rs:318-366 | resolves, allocates, asks; on acceptance moves the node and publishes it, else gives the ID back |
| VeluxBridge.VeluxMqttBridge.ExecuteGroupCommand | src/bridge.rs:368-418 | allocates, asks, and gives the ID back unless the group was activated |
| VeluxBridge.VeluxMqttBridge.RefreshStationaryNodes | src/bridge.rs:429-443 | one status request for each stationary cover |
| Setup.ListeningReleasesWhatEnded | src/bridge.rs:973-1003 | waiting for an initial status gives back exactly the session IDs whose end was read meanwhile |
| Setup.CompletedShowsTheStatus | src/bridge.rs:973-987 | a completed query has last read the status of its own session and node, and the node shows it |
| Setup.QueryInitialStatus | src/bridge.rs:943-1004 | the receive loop computes the query: allocate, ask, give back on refusal, listen |
| Setup.FirstDecisionCounts | src/bridge.rs:971-1003 | the wait for a status ends with the first signal that decides it, in the way that one says, or times out after all of them |
| Setup.SetupKnowsWhatWasListed | src/bridge.rs:874-940 | a node nothing was heard of is handed over as listed last; if it is a cover, with an unknown position |
| Setup.LastListedGroupCounts | src/bridge.rs:874-940 | of several groups with one ID the last listed is handed over |
| Setup.SetupHandsOverSoundState | src/bridge.rs:874-940 | a setup yields maps keyed by what they hold and a sound cache with every listed node and every group member the gateway told about |
| SessionLedger.PassProgresses | src/klf200/connection.rs:598-664 | in one pass of the actor a session stays or is ended by a new event, unless a wink completion ends it; a newly accepted request has its session |
| SessionLedger.PlayKeepsCoverageUnlessItLeaks | src/klf200/connection.rs:771-787 | a pass, also one that ends the actor, keeps every active session ID covered if and only if it does not take in a wink completion for an otherwise uncovered live session |
| SessionLedger.StoppingKeepsId | src/klf200/connection.rs:651-664 | an actor that ends loses no session and answers the awaited request with an error, so every ID stays covered |
| SessionLedger.StepKeepsCoverage | src/bridge.rs:318-488 | asking, collecting an answer and reading an event keep coverage |
| SessionLedger.RunKeepsCoverage | src/bridge.rs:943-1004 | in every state of every run each active ID is in the actor's session map, has an unread ending event, or belongs to the awaited request |
| SessionLedger.RunIsCoveredUnlessItLeaks | src/klf200/connection.rs:771-787 | every state of a run is covered if and only if no turn of it takes in such a wink completion |
| SessionLedger.DrainedAllocatorIsEmpty | src/klf200/connection.rs:843-853 | after a tick beyond all deadlines and reading all events, no ID is active |
| SessionLedger.WinkCompletionLosesTheId | src/bridge.rs:490-494 | a wink completion for a live session leaves its ID active for good |
| SessionOwnership.EventsReleaseAsInTheLedger | src/bridge.rs:470-494 | handling an event does to the bridge's session IDs what reading it does in the ledger |
| SessionOwnership.StatusIsAskThenCollect | src/bridge.rs:445-468 | a status request does to the session IDs what asking and collecting do in the ledger, and is the request handed over |
| SessionOwnership.CoverIsAskThenCollect | src/bridge.rs:318-366 | the same for a cover command |
| SessionOwnership.GroupIsAskThenCollect | src/bridge.rs:368-418 | the same for a group command |
| SessionOwnership.PlayKeepsOwnershipUnlessOvertaken | src/klf200/connection.rs:726-787 | a pass keeps the actor's sessions active in the bridge, with no end of theirs unread, if and only if it confirms no session whose end is already among the unread events |
| SessionOwnership.FreshIdsAreInNoSession | src/bridge.rs:318-468 | in every state of every run without such a confirmation, an ID the bridge allocates is in no session, nor is that of the awaited request before its session starts |
| SessionOwnership.RunIsOwnedUnlessOvertaken | src/klf200/connection.rs:726-787 | every state of a run is so if and only if the session requests are the bridge's and no turn takes in such a confirmation |
| SessionOwnership.OvertakenIdIsRefused | src/klf200/connection.rs:691-699 | after such a confirmation the bridge frees the ID while its session lives, and a request with it is refused as in use |
| SessionScenarios.AnEndCanOvertake | src/klf200/connection.rs:771-787 | a run from the start in which a session's end overtakes its confirmation |
| SessionScenarios.AWinkCanLeak | src/klf200/connection.rs:771-787 | a run from the start in which a wink completion for a status session loses its ID |
| Backoff.BaseDelaysHaveAClosedForm | src/bridge.rs:1021-1030 | the n-th base delay is min(minimum * 2^n, maximum) for all n if and only if the minimum is at most the maximum |
| Backoff.DelayIsWithinAQuarter | src/bridge.rs:1021-1026 | a delay lies between its base and five quarters of it |
| Backoff.JitterFillsTheQuarter | src/bridge.rs:1024-1025 | the greatest jitter misses the quarter by less than a millisecond |
| Backoff.ReconnectBackoff.NextDelay | src/bridge.rs:1021-1026 | returns the jittered base and doubles it up to the maximum, saturating |

## Left out

- Bridge.RunStaysInSync: publications are assumed to succeed while connected; partial publish failures and the broker's last will are not modelled.
- Bridge.StepKeeps: setup is one input with an arbitrary keyed cache, group map and allocator (`Setup.SetupHandsOverSoundState` shows that every setup is one); the shutdown sequence is not modelled.
- Setup.SetupHandsOverSoundState: the results of `discover_nodes` and `discover_groups` are parameters; login, version queries and switching house monitoring only decide whether a setup fails and are not modelled.
- SessionOwnership.FreshIdsAreInNoSession: the only session requests are the bridge's own commands, status requests and group activations; the client's other callers send none.
- StaleTopics.RunIsCleanUnlessItStrands: speaks of node and group topics; legacy discovery topics that the broker retains from components no inventory has had, and the device topic of a bridge whose discovery has since been switched off, are never cleared and not tracked.
- SessionLedger.RunKeepsCoverage: a disconnection read during setup is treated as giving up the gateway at once, where the program goes on to fail the setup; an ID that `request_status` would lose without a gateway cannot occur, because every caller has one.
- VeluxBridge.VeluxMqttBridge.PublishCompleteSnapshot: the bridge object holds its cache, allocator, discovery publisher and backoff as values; the in-place objects are modelled in their own modules against the same functions. Log output is not modelled.
- VeluxBridge.VeluxMqttBridge.ExecuteCoverCommand: the gateway's answer is a parameter; error texts are dropped. The log of requests holds those with a session; heartbeats and reboot requests are not in it.
- Setup.QueryInitialStatus: the status request that a setup sends is not recorded.
- Snapshots.UpToDateMeansReplayIsIdle: the timestamp inside node metadata lags behind status updates and is not tracked.
- Reconnects.FailuresBackOff: the start of a setup is no input; that none starts before it is due is a hypothesis on the instants.
- Protocol.DecodedResponsesAreSound: only responses the actor and the bridge look into are decoded; the verdict of all other decoders is a parameter of the actor's settings.
- Actor.WireCarriesTheRequests: a request is its command, session and encoded payload or encoding error; only command, status and product-group payloads are laid out. What a failed write has put on the wire is not modelled.
- ConnectionActor.Connection.RunActor: the reply to a shutdown request and closing the socket are not modelled; a run may be cut after any turn.
- Actor.ExpireSessionsKeeps: the order in which a hash map yields expired sessions is arbitrary.
- Discovery.HomeAssistantDiscovery.Publications: the order among legacy topics is arbitrary; the results hold for every order.
- Nodes.ReconcileIsExact: functional positions and aliases, and the signedness of product group and type, are dropped; actuator types are their codes.
- Topics.RenderIsInjective: command topics, which are not retained, and the parsing of commands.
- MqttConnection, TLS, certificates, TCP, signals, command-line parsing, logging and the tokio runtime: input and output.
- `BeaconSet`, `validate_priority_settings` and the fixed-offset request encoders and response decoders not named above: each is one branch.
