# Verified models of deepstream's state machines

This project models the in-memory state machines of the deepstream server in Dafny and proves
properties of every run of them. Messages, store answers and timers are separate steps that come in
any order.

Each component has up to three kinds of files. One holds its state as a datatype and each of its
operations as a function (`Transition`, `StateRegistry`, `Locks`, `Listener`, `Rpc`, `TextProtocol`,
`RuleApplication`, `Subscriptions`, `SocketBuffer`, `RuleCache`, `JsonPath`), with the laws proved in
it or beside it. One holds the classes that do the same by updating fields (`RecordHandler`,
`StateRegistries`, `ClusterRegistries`, `ListenerRegistries`, `RpcHandler`, `TextParser`,
`RuleApplications`, `SubscriptionRegistries`, `SocketWrappers`, `RuleCaches`): each method's contract
says that the object's `Model()` afterwards is the function of its `Model()` before. `Common` and
`Strings` are shared vocabulary. A run is a sequence of events; everything observable is kept in a
history inside the state, so properties over time are predicates on it.

- **Record writes.** `RecordTransition` queues writes while a record loads, checks versions twice,
  applies patches and counts acknowledgements. Proved for every interleaving: which versions and data
  are written, what becomes of each step and what its sender is told, who is told of failures, and how
  transitions of one record follow each other.
- **Cluster state.** A replicated set of names with per-server ownership: convergence over FIFO
  channels, events that match the state, check sums, and the comparison with the single registry.
- **Locks, leader, provider discovery.** Mutual exclusion of the leader-based lock protocol with
  timeouts and late answers, when a request is granted, election by score, and the search that uses the
  locks: whom it asks, how it ends, and who provides a name for how long.
- **RPC routing.** Exactly which replies a requestor gets, told from the events of its call; the cyclic
  scan for candidates, termination.
- **Subscriptions.** Two indexes and a reference count that agree, with each other and with the calls; and
  what each call is answered.
- **Text protocol.** Builder and parser undo each other, with the exact exceptions.
- **Valve.** The bounded evaluation of a rule, the answer it gives and the data it saw, and the cached
  search for a rule.
- **Socket buffering.** Batched writing is a FIFO, and holds back exactly what may wait.
- **Json path.** Lens laws of `setValue` and `getValue`, and the tokenizer.

Where a property that one would expect is false of the code, the code is modelled as it is, and a
lemma says exactly when the property holds or shows the run that breaks it:

- A write accepted into an empty queue while a cache write is in flight takes over `currentStep`, and
  the write in flight is never broadcast (`WindowMeansNoBroadcast`, `WindowOccurs`).
- In calm runs two things stop the queue for good, and nothing else does (`CalmRunsFinishIff`): a first
  explicit version that is too far ahead of the loaded one (`HaltsIff`, `GapWedges`), and a message
  without a path that puts null in the record's place (`NullWedges`, `NullOccurs`).
- A message without a path that puts a falsy value in the record's place (null, if the name is excluded
  from storage) makes the next transition that may create the record begin anew at version 0, so that
  versions are won twice; nothing else does (`BeginsAnewIff`, `VersionsRiseIff`, `FalsyPatchWinsTwice`).
- A falsy value that is loaded while an answer VERSION_EXISTS waits hangs the process (`FalsyLoadHangs`).
- In the window the acknowledgement of the write in flight is lost if the senders differ
  (`AckInWindowIff`).
- A check sum that matches after two that differed leaves one reconciliation request scheduled
  (`MatchClearsIff`).
- An explicit version -2 lets -1 follow it (`MinusTwoSticks`).
- A server that adds a name again which it released while others held it loses count; no other server
  does (`CountsIff`; `RemoteHolderLeaksName` is a run).
- A lock hold timer that fires while somebody has a claim can lead to two owners, and only then
  (`HoldTimeoutHarmlessIff`); scores without an outright winner can lead to two leaders, and only then
  (`TieSplitsLeadership`).
- An update whose payload reads like the acknowledgement flag, and VERSION_EXISTS with that flag, are
  read differently from what was built (`FrameRoundTripIff`).
- A failed load is reported again after the answer, and a run goes on after an error: after a payload
  that does not parse, a reference that is no text, or a patch on a record that does not exist
  (`ExactlyOneAnswer`, `ErrorAnswersTwiceIff`, `PatchOnMissingRecordAnswersTwice`,
  `TwoFailuresAnswerTwice`).
- A call that is rejected after it was accepted ends with a timeout unless its answer comes first, since the
  next accept is refused as a second one and does not stop the timer (`AcceptTimerIsOffIff`).
- A buffer of empty messages counts as no buffer and is overtaken (`OvertakesIff`).

## Model

| member | source | states |
|---|---|---|
| `TransitionLaws.WritesAreTheFold` | src/handlers/record/record-transition.ts:231-303 | for any interleaving of adds, load, store answers and destroy, the k-th cache write has version v0 + k of the loaded v0 and the data that the first k written messages make of the loaded data; storage gets the same writes unless the name is excluded |
| `TransitionLaws.OneFate` | src/handlers/record/record-transition.ts:80-303 | a step that came in once is in exactly one place: queued, kept for a later VERSION_EXISTS, answered with an error, or written; one that was answered is never written, and none is written twice |
| `TransitionLaws.AcceptedVersionsShape` | src/handlers/record/record-transition.ts:137-171 | the accepted versions are -1s followed by consecutive explicit ones, if and only if nothing was accepted after an explicit -2 |
| `TransitionLaws.MinusTwoSticks` | src/handlers/record/record-transition.ts:141-156 | the exception occurs: -2, -1, -1 are all accepted |
| `TransitionAnswers.VersionExistsTellsTheRecord` | src/handlers/record/record-transition.ts:80-105 | in every run a VERSION_EXISTS carries the version and the data that the record has at that moment, from the loaded snapshot and the writes so far, and goes to the sender of a step that came in, with the id, flag and correlation id of that step |
| `TransitionAnswers.EveryAnswerIsRight` | src/handlers/record/record-transition.ts:80-454 | in every run each refusal, acceptance, write, broadcast, acknowledgement and error names a step that came in: INVALID_DATA its bad payload, INVALID_VERSION its own version on arrival and the record's when its turn has come, errors only senders on this server |
| `TransitionAnswers.FateOnArrival` | src/handlers/record/record-transition.ts:114-176 | after every run a step on arrival is INVALID_DATA exactly if its payload is bad, else INVALID_VERSION exactly if it is more than one ahead of the last explicit version let in, else VERSION_EXISTS exactly if it is not the next one (now if the record is loaded and truthy, kept for later if not), and let in exactly otherwise |
| `TransitionAnswers.RefusedIsAnswered` | src/handlers/record/record-transition.ts:207-221 | in every run no step is kept for a later VERSION_EXISTS once the record is loaded, as long as what is loaded and written is truthy |
| `TransitionErrors.FailuresAreTold` | src/handlers/record/record-transition.ts:350-454 | in every run the handler is told once if and only if the transition is over; a store error, a missing record or a failed load ends it, and only then errors are sent: once for each step queued at that moment whose sender is local (not if the load failed), and one round for the acknowledgements outstanding |
| `TransitionAcks.CalmRunsAreTidy` | src/handlers/record/record-transition.ts:231-412 | under the assumptions written in `Calm` the store calls, their answers, acknowledgements and broadcasts form whole blocks, one per applied write in version order, and the opened part of one more |
| `TransitionGaps.HaltsIff` | src/handlers/record/record-transition.ts:137-303 | over calm runs that come to rest, `next` stood before a version gap at some moment if and only if the first explicit version let in exceeds the loaded version plus the number of -1s let in before it plus 1, and no message before it put null in the record's place |
| `TransitionGaps.CalmRunsFinishIff` | src/handlers/record/record-transition.ts:181-303 | at the end of a calm run with nothing outstanding every written step was stored, acknowledged after its stores answered if it asked for it, and broadcast once; the transition is destroyed with an empty queue if the first explicit version was not too far ahead and no message that is taken (version -1, or the next one) puts null in the record's place; and for records with a version of -3 or more only then |
| `TransitionNulls.NullWedges` | src/handlers/record/record-transition.ts:236-238 | once null is in the record's place no further write is applied and the transition never ends, unless it is stopped |
| `TransitionNulls.NullOccurs` | src/handlers/record/record-transition.ts:236-275 | one patch without a path and with the payload null is enough, for any record, whether or not its name is excluded from storage |
| `TransitionAcks.WindowLosesBroadcast` | src/handlers/record/record-transition.ts:173-175 | a write accepted into an empty queue while a cache write is in flight costs the write in flight any further broadcast, whatever happens later |
| `TransitionWindow.WindowMeansNoBroadcast` | src/handlers/record/record-transition.ts:173-175 | if the steps written before were other ones, that is: any broadcast at all |
| `TransitionWindow.WindowOccurs` | src/handlers/record/record-transition.ts:173-175 | two updates from any senders, the second sent while the first is with the cache, reach that state from the beginning: the first is written and never broadcast |
| `TransitionAcks.GapWedges` | src/handlers/record/record-transition.ts:254-261 | after INVALID_VERSION in `next` no further write is applied and the transition never ends, unless it is stopped |
| `TransitionAcks.GapOccurs` | src/handlers/record/record-transition.ts:137-171 | for any loaded version of -2 or more, one explicit version too far ahead that comes in before the load leads to that |
| `TransitionLostAcks.AckInWindowIff` | src/handlers/record/record-transition.ts:281-303 | a write is accepted in the window while only the cache's answer to the write in flight is outstanding: if that answer comes next, the acknowledgement of the write in flight is sent if and only if both have the same sender; otherwise none with its id is sent, to anybody, unless the id is used again |
| `RecordWrites.AtMostOneTransition` | src/handlers/record/record-handler.ts:501-545 | over whole runs of updates through successive transitions at most one is not destroyed, and it is the one in the `transitions` map |
| `RecordUpdates.UpdateMeetsOne` | src/handlers/record/record-handler.ts:501-529 | in every run an update meets one transition, the live one or else a new one, and no other; it is VERSION_EXISTS without a look at its payload exactly if its version is explicit and not ahead of the last one let in there, and otherwise has the fate of a step on arrival |
| `RecordUpdates.LoadBegins` | src/handlers/record/record-transition.ts:207-221 | in every run the answer of the load makes the record what was found; a missing one begins as an empty object at version 0 if the first submission let in allows to create it, and otherwise the transition fails |
| `RecordUpdates.LoadFindsIff` | src/handlers/record/record-request.ts:28-105 | a load finds data exactly if the cache has truthy data, or storage has for names not excluded; the cache's is preferred |
| `RecordWrites.VersionsRiseIff` | src/handlers/record/record-handler.ts:501-545 | over whole runs of updates through successive transitions, each write follows the one before it, or begins anew at version 1 after a load was answered that the record is missing; the versions rise by one throughout, so that no two senders win the same version, if and only if no write begins anew (for a record whose first version is not negative) |
| `RecordRestarts.BeginsAnewIff` | src/handlers/record/record-request.ts:28-105 | the answer to a load makes a written record begin anew if and only if the load may create the record, and the last message written has no path and a falsy payload, or null if the name is excluded from storage |
| `RecordRestarts.RunForgotten` | src/handlers/record/record-request.ts:28-105 | in every run whatever began anew did so after such a message |
| `RecordRestarts.VersionsRiseByOne` | src/handlers/record/record-handler.ts:501-545 | over the same runs without such messages the k-th cache write raises the version by exactly one; the data is the fold of the winning messages; the cache holds the last write |
| `RecordRestarts.FalsyPatchWinsTwice` | src/handlers/record/record-transition.ts:207-275 | a patch without a path and payload, then any plain message: the second write has version 1 again |
| `RecordRestarts.FalsyLoadHangs` | src/handlers/record/record-transition.ts:80-105 | a falsy value loaded while an answer VERSION_EXISTS waits: the loop that sends the waiting answers never ends |
| `RecordPatches.SetValueYieldsNodes` | src/utils/json-path.ts:28-50 | a patch with a path leaves a container, so that only messages without a path can leave anything else |
| `RecordPatches.PatchesAreLocal` | src/handlers/record/record-transition.ts:269-275 | in every run of a transition whose patches are applied by `setValue`, each written patch leaves its value at its path and every diverging path as it was, but for the exception of `JsonPath.Frame` |
| `RecordHandling.RecordTransition.Add` | src/handlers/record/record-transition.ts:114-176 | the method has the effect of the specification function on fields, queue and trace |
| `RecordHandling.RecordTransition.OnRecord` | src/handlers/record/record-transition.ts:207-221 | same, for the answer to the load |
| `RecordHandling.RecordTransition.Next` | src/handlers/record/record-transition.ts:231-303 | same, for taking the next step |
| `RecordHandling.RecordTransition.OnCacheSetResponse` | src/handlers/record/record-transition.ts:362-395 | same, for the answer of the cache |
| `RecordHandling.RecordTransition.OnStorageSetResponse` | src/handlers/record/record-transition.ts:400-412 | same, for the answer of storage |
| `RecordHandling.RecordTransition.HandleWriteAcknowledgement` | src/handlers/record/record-transition.ts:326-348 | same, for the counters of outstanding acknowledgements |
| `RecordHandling.RecordTransition.Destroy` | src/handlers/record/record-transition.ts:181-202 | same, and the handler's entry for the record is gone |
| `RecordHandling.RecordHandler.Update` | src/handlers/record/record-handler.ts:501-529 | the method has the effect of the specification: an update meets the mapped transition or a new one, which is mapped before it is added to (its answer: `RecordUpdates.UpdateMeetsOne`) |
| `RecordHandling.RecordHandler.TransitionComplete` | src/handlers/record/record-handler.ts:543-545 | the entry is removed, and no other |
| `JsonPath.SetSucceedsIff` | src/utils/json-path.ts:28-50 | a value can be written exactly if the root is a container and no null stands on the way |
| `JsonPath.PutGet` | src/utils/json-path.ts:7-50 | what was written is read at the path, and below it the written value is seen |
| `JsonPath.PutPut` | src/utils/json-path.ts:28-50 | the second of two writes to one path wins, also over containers that the first one created, and also for deletion |
| `JsonPath.GetPut` | src/utils/json-path.ts:28-50 | writing what is there changes nothing |
| `JsonPath.CreatedKinds` | src/utils/json-path.ts:28-50 | containers on the way keep their kind, and one that a write has to create is an array exactly if the next token was written as an index |
| `JsonPath.Frame` | src/utils/json-path.ts:28-50 | a write changes nothing that a diverging path reads, except exactly when a primitive on the common part was replaced: then the reader threw before and finds undefined now |
| `JsonPath.WritesCommute` | src/utils/json-path.ts:28-50 | writes to two diverging paths below containers that exist can be exchanged |
| `JsonPathText.TokenizeInvertsIff` | src/utils/json-path.ts:56-86 | tokenizing a printed path gives its tokens exactly if no segment is blank or has outer spaces |
| `JsonPathText.TokenizeLoop` | src/utils/json-path.ts:56-86 | the loops compute the token function |
| `JsonPathText.GetValue` | src/utils/json-path.ts:7-21 | the loop computes the value at the path, or that it throws |
| `JsonPathText.SetThenGet` | src/utils/json-path.ts:7-50 | after a successful write by textual path the path reads as the written value |
| `StateRegistry.EventsAlternate` | src/services/cluster-state/distributed-state-registry.ts:72-197 | on any server, with any local calls, remote messages and leaving servers, an entry exists exactly when some server holds the name, and its add and remove events alternate, beginning with an add |
| `RegistryEvents.ServerEventsTell` | src/services/cluster-state/distributed-state-registry.ts:148-197 | in every run a server is taken to hold a name exactly if the last of the events server-added and server-removed about the two is server-added |
| `StateRegistry.CheckSumLaw` | src/services/cluster-state/distributed-state-registry.ts:251-261 | the check sum is congruent modulo 2^32 to the base-31 polynomial of the character codes, and bounded, hence exact in doubles up to 4194176 code units |
| `StateRegistry.EqualViewsEqualTotals` | src/services/cluster-state/distributed-state-registry.ts:224-244 | two registries with the same names for a server compute the same total, whatever the order of their maps |
| `StateCluster.Converges` | src/services/cluster-state/distributed-state-registry.ts:80-406 | for every sender and receiver: replaying the messages in flight on the receiver's view never yields a name that the sender does not hold, and yields exactly those it holds once a full state is in flight or was delivered since the names were last dropped; so a drained channel means agreement. Both for the code as written and for a replacing full state |
| `SingleStateRegistry.AloneRefinesSingle` | src/services/cluster-state/single-state-registry.ts:32-54 | alone and with balanced calls the distributed registry has the same names and the same sequence of add and remove events as the plain one, and both count additions less removals |
| `SingleStateRegistry.AgreeIffBalanced` | src/services/cluster-state/single-state-registry.ts:46-54 | the two have the same names at every moment if and only if no name is removed more often than added |
| `ReferenceCounts.AddCountsIff` | src/services/cluster-state/distributed-state-registry.ts:80-88 | a local addition is counted exactly if the name is unknown, this server holds it, or the entry still has the count that it was created with |
| `ReferenceCounts.CountsIff` | src/services/cluster-state/distributed-state-registry.ts:80-197 | with any other servers and balanced local calls, the count of a name is local additions less removals at every moment if and only if this server never adds a name again that it released while others held it and that they hold still |
| `ReferenceCounts.ReturnGoesWrong` | src/services/cluster-state/distributed-state-registry.ts:80-103 | after such a return one removal leaves the name held with a count of -1; and two additions and one removal release it |
| `StateRegistries.DistributedStateRegistry.Add` | src/services/cluster-state/distributed-state-registry.ts:80-88 | the method has the effect of the specification function, and sends what it sends |
| `StateRegistries.DistributedStateRegistry.Remove` | src/services/cluster-state/distributed-state-registry.ts:94-103 | same |
| `StateRegistries.DistributedStateRegistry.AddToServer` | src/services/cluster-state/distributed-state-registry.ts:181-197 | same |
| `StateRegistries.DistributedStateRegistry.RemoveFromServer` | src/services/cluster-state/distributed-state-registry.ts:160-175 | same |
| `StateRegistries.DistributedStateRegistry.ApplyFullState` | src/services/cluster-state/distributed-state-registry.ts:339-360 | same, for the code as written |
| `StateRegistries.DistributedStateRegistry.OnServerRemoved` | src/services/cluster-state/distributed-state-registry.ts:120-126 | every name that the server held is taken from it |
| `StateRegistries.DistributedStateRegistry.CreateCheckSum` | src/services/cluster-state/distributed-state-registry.ts:251-261 | the loop computes the check sum |
| `StateRegistries.DistributedStateRegistry.CompareWith` | src/services/cluster-state/distributed-state-registry.ts:274-290 | registries that agree on a server's names never schedule a reconciliation for it |
| `StateRegistries.DistributedStateRegistry.VerifyCheckSum` | src/services/cluster-state/distributed-state-registry.ts:274-290 | a differing check sum arms a timer and keeps it in place of the one kept before, which goes on; a matching one clears the timer that is kept |
| `StateRegistries.TwoDifferencesLeaveOne` | src/services/cluster-state/distributed-state-registry.ts:274-290 | after two differing check sums and a matching one the first request is still scheduled, and no timer is kept to clear it by |
| `StateRegistries.MatchClearsIff` | src/services/cluster-state/distributed-state-registry.ts:274-290 | a matching check sum leaves no request for the server under way if and only if no timer but the latest was running |
| `Locks.MutualExclusion` | src/services/lock/distributed-lock-registry.ts:39-189 | with a fixed leader and no hold timer firing: owners told true, true answers in flight and releases in flight are at most one together per lock name, and none unless the leader has it locked, though requests time out and answers come late, reordered or never |
| `LockAnswers.TakenIffGuarded` | src/services/lock/distributed-lock-registry.ts:147-183 | in every run a lock is taken exactly if the last of the requests and releases that reached the leader, and of its hold timers, is a request, and exactly then its hold timer is armed |
| `LockAnswers.GrantedIffFree` | src/services/lock/distributed-lock-registry.ts:126-160 | in every run a request is granted exactly if the lock is free when it reaches the leader, and the answer goes to the server that asked |
| `LockAnswers.FollowerIsToldOnce` | src/services/lock/distributed-lock-registry.ts:39-145 | in every run another server asks the leader exactly if it does not wait for that lock, and its owner is told once: what the first answer says, or false when the request timer fires; later answers are dropped |
| `LockAnswers.GivingBackFrees` | src/services/lock/distributed-lock-registry.ts:52-61 | in every run a lock given back is free on the leader at once, and for another server when its release arrives |
| `LockTimeouts.HoldTimeoutHarmlessIff` | src/services/lock/distributed-lock-registry.ts:147-180 | after any run without hold timeouts, a hold timer that fires can lead to two owners told true at once, with no other one firing, if and only if at that moment an owner has the lock, or an answer true or a release is in flight |
| `LockTimeouts.NoSecondGrant` | src/services/lock/distributed-lock-registry.ts:126-158 | a server that was told true and has not released is not granted the lock again, whatever happens next; provider discovery relies on it |
| `Locks.HoldTimeoutDoublesClaim` | src/services/lock/distributed-lock-registry.ts:147-180 | otherwise the leader's next request makes a second claim |
| `Locks.OneLeader` | src/services/cluster-registry/distributed-cluster-registry.ts:74-93 | servers that share a map of scores with an outright winner all elect it, whatever their map order, so exactly one takes itself for the leader |
| `Locks.DistinctScoresHaveWinner` | src/services/cluster-registry/distributed-cluster-registry.ts:74-93 | distinct positive scores have an outright winner |
| `Locks.TieSplitsLeadership` | src/services/cluster-registry/distributed-cluster-registry.ts:74-93 | of several servers that share a map of scores, two may each take themselves for the leader, for some orders of their maps, if and only if no score is positive and above all others |
| `Locks.NoScoreNoLeader` | src/services/cluster-registry/distributed-cluster-registry.ts:81-93 | with scores of zero every server elects itself |
| `ClusterRegistries.DistributedLockRegistry.Get` | src/services/lock/distributed-lock-registry.ts:39-79 | the method has the effect of the specification function for one node |
| `ClusterRegistries.DistributedLockRegistry.OnPrivateMessage` | src/services/lock/distributed-lock-registry.ts:98-142 | same |
| `ClusterRegistries.DistributedLockRegistry.GetLock` | src/services/lock/distributed-lock-registry.ts:147-158 | same |
| `ClusterRegistries.DistributedClusterRegistry.GetLeader` | src/services/cluster-registry/distributed-cluster-registry.ts:81-93 | the loop elects the server that the specification elects |
| `ClusterRegistries.DistributedClusterRegistry.CheckNodes` | src/services/cluster-registry/distributed-cluster-registry.ts:119-130 | unless there is only one node, exactly the nodes that were silent for too long are removed |
| `Listener.DiscoveryIsSound` | src/listen/listener-registry.ts:149-415 | in every run no name is both searched for and provided here; the names searched for are those whose lock this server holds; each acquisition is released once before the next; a name provided here is provided in the cluster by this server |
| `ListenerOutcomes.ProviderIsLastAccepted` | src/listen/listener-registry.ts:149-220 | in every run a name's provider is the one whose acceptance of a search under way is the last of the acceptances and departures, and this server holds the name in the cluster exactly then |
| `ListenerOutcomes.ProvidedIsHeld` | src/listen/listener-registry.ts:206-300 | in every run the names held in the cluster are exactly those provided here, counted once: discovery never adds a name again that others still hold, which is where the registry's count goes wrong |
| `ListenerOutcomes.AcceptedProvides` | src/listen/listener-registry.ts:206-220 | in every run an acceptance of a search makes its sender the provider, adds the name to the cluster, ends the search, its lock and timer, and reports nothing as unsuccessful |
| `ListenerOutcomes.SearchBeginsIff` | src/listen/listener-registry.ts:303-382 | in every run a search begins exactly with a granted lock, candidates, and no provider in the cluster, and asks the first candidate |
| `ListenerOutcomes.SearchEndsIff` | src/listen/listener-registry.ts:341-415 | in every run a search ends exactly with an acceptance, a rejection or timeout with nobody left, or the departure of a listener that is none of those left; the lock is released, and the search is reported as unsuccessful exactly if nobody provides the name then |
| `ListenerOutcomes.InTurnIsAskedLast` | src/listen/listener-registry.ts:341-382 | in every run the candidate whose answer is awaited is the one asked last |
| `ListenerOutcomes.LeavingSearchesAgain` | src/listen/listener-registry.ts:275-297 | in every run the departure of a provider gives up the name, and a new search begins exactly if no other server holds it and a lock is granted |
| `ListenerOutcomes.LastSubscriberEndsIt` | src/listen/listener-registry.ts:183-194 | in every run the last subscriber's departure is told to the provider that accepted last, which provides no longer; without a provider nothing happens |
| `ListenerOutcomes.RemoteGoneSearches` | src/listen/listener-registry.ts:427-441 | in every run a search begins after another server's provider is gone exactly if no holder is left, there are subscribers, and a lock is granted |
| `ListenerOrder.AskedInOrder` | src/listen/listener-registry.ts:244-268 | in every run without departures from the search: those asked and those left are the first candidates and then the new listeners, in order, nobody twice |
| `Listener.NegativeShortens` | src/listen/listener-registry.ts:341-415 | each reject or timeout ends the search or takes the next of the remaining providers |
| `Listener.StepShortens` | src/listen/listener-registry.ts:149-473 | whatever happens but a new listener for the name, a search that stays has no more candidates left than before, and one less after a reject or timeout |
| `Listener.SearchTerminates` | src/listen/listener-registry.ts:149-473 | in any run without new listeners for the name, with anything else in between, a search that stays sees no more rejects and timeouts than it had candidates left |
| `Listener.SearchCanGoOn` | src/listen/listener-registry.ts:341-382 | in every run a search has its response timer armed, so a reject or timeout can always move it on |
| `ListenerRegistries.ListenerRegistry.StartProviderSearch` | src/listen/listener-registry.ts:303-322 | the method has the effect of the specification function |
| `ListenerRegistries.ListenerRegistry.TriggerNextProvider` | src/listen/listener-registry.ts:341-382 | same |
| `ListenerRegistries.ListenerRegistry.Accept` | src/listen/listener-registry.ts:206-220 | the method has the effect of the specification function, of which `ListenerOutcomes.AcceptedProvides` says that the sender provides the name from then on |
| `ListenerRegistries.ListenerRegistry.StopProviderSearch` | src/listen/listener-registry.ts:388-415 | same |
| `ListenerRegistries.ListenerRegistry.RemoveListenerIfActive` | src/listen/listener-registry.ts:275-297 | same, for one name |
| `Rpc.OneReply` | src/handlers/rpc/rpc.ts:59-181 | with distinct correlation ids a request gets at most one ACCEPT and at most one final reply, with nothing after it, all to its requestor; a live call has its response timer armed; one that lives no more had its final reply |
| `RpcReplies.RepliesAreTold` | src/handlers/rpc/rpc.ts:59-183 | in every run the requestor is sent ACCEPT if a provider accepted while the call lived, and then what the first event that ends the call calls for: RESPONSE, REQUEST_ERROR, the timeout of the timer that fired, or NO_RPC_PROVIDER if nobody can take the request or nobody is left after a rejection; and nothing else |
| `RpcReplies.RequestIsGivenIff` | src/handlers/rpc/rpc-handler.ts:154-232 | in every run a request is given to a provider exactly if a local client offers itself, or a server does and the requestor is a client: to the one drawn, clients first |
| `RpcReplies.RejectionMoves` | src/handlers/rpc/rpc-handler.ts:111-146 | in every run a rejection moves the call exactly if somebody is left who was not asked, told by whom it was given to before |
| `RpcReplies.AcceptTimerIsOffIff` | src/handlers/rpc/rpc.ts:99-129 | in every run the accept timer of a live call is off exactly if it was accepted and not given to somebody else since; a second accept is refused and does not stop the timer |
| `Rpc.NeverForwardedTwice` | src/handlers/rpc/rpc-handler.ts:111-231 | a request that came from another server is only given to local clients; no provider is asked twice, but possibly the first server |
| `Rpc.AlternativeIsComplete` | src/handlers/rpc/rpc-handler.ts:111-146 | a candidate is found exactly if an untried local client or, for local requests, an untried server exists; clients are preferred; a recorded one is never returned |
| `Rpc.ScanIsComplete` | src/handlers/rpc/rpc-handler.ts:120-128 | the cyclic scan from any start finds an untried entry exactly if there is one |
| `Rpc.RerouteShortens` | src/handlers/rpc/rpc.ts:138-153 | for fixed candidates each reroute uses one up, or the call ends with NO_RPC_PROVIDER |
| `Rpc.ReroutingTerminates` | src/handlers/rpc/rpc.ts:138-153 | hence rerouting terminates |
| `RpcBounds.AskedIsBounded` | src/handlers/rpc/rpc-handler.ts:111-231 | in every run, if all candidates ever offered are among some clients and servers, a call is given to providers at most once for each of them and once more |
| `RpcHandling.RpcHandler.MakeRpc` | src/handlers/rpc/rpc-handler.ts:154-231 | the method has the effect of the specification function |
| `RpcHandling.RpcHandler.GetAlternativeProvider` | src/handlers/rpc/rpc-handler.ts:111-146 | the index loops find what the specification finds, and record it |
| `RpcHandling.RpcHandler.OnAnswer` | src/handlers/rpc/rpc-handler.ts:54-69 | an answer reaches the call with its correlation id; an unknown id changes nothing |
| `RpcHandling.RpcObject.Handle` | src/handlers/rpc/rpc.ts:59-78 | the method has the effect of the specification function, of which `RpcReplies.RepliesAreTold` says which reply goes out |
| `RpcHandling.RpcObject.Reroute` | src/handlers/rpc/rpc.ts:138-153 | same |
| `Subscriptions.IndexesAgree` | src/services/subscription-registry/default-subscription-registry.ts:173-361 | after any subscribes, unsubscribes, bulk calls and closes: the two indexes are the same relation without empty sets; the close callback is registered exactly for sockets with subscriptions; the state registry counts the subscribers; first and last subscriptions are announced exactly at 0 to 1 and 1 to 0, next to the call that makes them so |
| `SubscriptionCalls.SubscribersAreTheCallers` | src/services/subscription-registry/default-subscription-registry.ts:173-361 | in every run a socket is a subscriber exactly if the last call about it and the name, bulk calls and closes included, is a subscription; and the listener was told so last |
| `SubscriptionCalls.CallsAreAnswered` | src/services/subscription-registry/default-subscription-registry.ts:173-276 | in every run the sockets are sent exactly this, in order: MULTIPLE_SUBSCRIPTIONS for each subscription that is there (silent or not, also inside a bulk call), NOT_SUBSCRIBED for an unsubscription of nothing that is not silent, and one acknowledgement for each other call that is not silent |
| `Subscriptions.CloseKeeps` | src/services/subscription-registry/default-subscription-registry.ts:346-361 | a closed socket keeps no subscription, and the others keep theirs |
| `SubscriptionRegistries.SubscriptionRegistry.Subscribe` | src/services/subscription-registry/default-subscription-registry.ts:206-239 | the method has the effect of the specification function, of which `SubscriptionCalls` says who is subscribed and what is answered |
| `SubscriptionRegistries.SubscriptionRegistry.Unsubscribe` | src/services/subscription-registry/default-subscription-registry.ts:244-276 | same |
| `SubscriptionRegistries.SubscriptionRegistry.RemoveSocket` | src/services/subscription-registry/default-subscription-registry.ts:320-341 | same |
| `SubscriptionRegistries.SubscriptionRegistry.OnSocketClose` | src/services/subscription-registry/default-subscription-registry.ts:346-361 | same, walking the socket's names in some order |
| `TextRoundTrip.RoundTrip` | src/connection-endpoint/websocket/text/text-protocol/message-parser.ts:46-291 | parsing the concatenation of built frames gives the messages in order, each as `Received` and registered in its turn, if text fields contain no separator and no frame is ambiguous |
| `TextRoundTrip.FrameRoundTripIff` | src/connection-endpoint/websocket/text/text-protocol/message-parser.ts:107-157 | a complete message arrives as sent if and only if it is not ambiguous: an update without acknowledgement whose payload is the acknowledgement flag, or a VERSION_EXISTS with the flag, arrives with the flag turned over |
| `TextRoundTrip.SameMessages` | src/connection-endpoint/websocket/text/text-protocol/message-builder.ts:37-241 | a message with only the fields its frame carries, and with agreeing payload text and value, arrives field by field as it is, but for the unique id that stands in for a missing correlation id |
| `TextRoundTrip.TypedConverts` | src/connection-endpoint/websocket/text/text-protocol/message-parser.ts:332-376 | `convertTyped` undoes `typed` for every value whose JSON or number text survives |
| `TextRoundTrip.AcknowledgementsMatch` | src/connection-endpoint/websocket/text/text-protocol/message-builder.ts:72-127 | however many frames were parsed since, the acknowledgement of a write prints the version of that write, and that of a subscription the name, if unique ids are distinct |
| `TextActions.FrameIsUnderstoodIff` | src/connection-endpoint/websocket/text/text-protocol/constants.ts:70-173 | a frame of a topic, an action text and a name is understood exactly if the text is declared for the topic, and as the declared action |
| `TextActions.ErrorIsUnderstoodIff` | src/connection-endpoint/websocket/text/text-protocol/message-parser.ts:73-157 | an error frame is understood except for events with an undeclared text, and as the action of its text: one of three record errors, a failed call, or the declared action |
| `TextActions.TypedFailsIff` | src/connection-endpoint/websocket/text/text-protocol/message-parser.ts:332-376 | a typed payload is an error exactly if it is empty, has no type letter in front, or is an object that does not parse |
| `Strings.SplitOfJoin` | src/connection-endpoint/websocket/text/text-protocol/message-parser.ts:55 | text without the separator comes apart where it was joined |
| `Strings.ValueOfPrint` | src/connection-endpoint/websocket/text/text-protocol/message-parser.ts:131 | an integer's text reads as that integer |
| `TextParsing.TextParser.Parse` | src/connection-endpoint/websocket/text/text-protocol/message-parser.ts:46-291 | the loop over frames, with the maps it writes, computes the parse function |
| `TextParsing.TextParser.ReadRecord` | src/connection-endpoint/websocket/text/text-protocol/message-parser.ts:107-157 | the moving index computes the record message |
| `RuleApplication.AlwaysAnswered` | src/services/permission/valve/rule-application.ts:72-161 | whatever the rule does and however loads end: at most `maxRuleIterations` evaluations, and once nothing is under way the sender was answered |
| `RuleApplication.ExactlyOneAnswer` | src/services/permission/valve/rule-application.ts:72-161 | for every run, once nothing is under way the sender was answered once plus the surplus: one for each load failure reported after the end, one for each load that fails at once after the application ended in the middle of a run, and one for each such run that returns with nothing under way; so exactly once if and only if none of these occurs. A first answer that is a verdict comes from a run that saw the loaded data of all that it referenced |
| `RuleVerdicts.FirstAnswerIsFirstCause` | src/services/permission/valve/rule-application.ts:72-145 | in every run the sender is told first what the first cause calls for: the verdict that the rule function returned while nothing was loading and no run scheduled; a rule error for a throw at such a moment, a run beyond the limit or an act that is an error; a load error for a failed load |
| `RuleVerdicts.VerdictsAreReturned` | src/services/permission/valve/rule-application.ts:72-105 | in every run no verdict is sent that no evaluation returned, also among later answers |
| `RuleData.SeenIsLoaded` | src/services/permission/valve/rule-application.ts:126-133 | in every run data that the rule sees under a name was given by a load of that record |
| `RuleData.LoadedOnce` | src/services/permission/valve/rule-application.ts:331-349 | in every run of an application not answered yet, an awaited record is being loaded once, and no other one is |
| `RuleApplication.ErrorAnswersTwiceIff` | src/services/permission/valve/rule-application.ts:72-238 | an error anywhere in a run, be it a payload that does not parse, a reference that is no text, a patch on a missing record or a load that fails at once: a second answer exactly if the rule returns and no reference follows |
| `RuleApplication.PatchOnMissingRecordAnswersTwice` | src/services/permission/valve/rule-application.ts:210-238 | a patch on a record that does not exist is answered with an error and then with the verdict of the rule |
| `RuleLoads.GoodEventsAnswerOnce` | src/services/permission/valve/rule-application.ts:72-161 | if all loads succeed, the payload parses, references are text and a patched record is not found missing, the sender is answered exactly once, in whatever order loads end |
| `RuleApplication.TwoFailuresAnswerTwice` | src/services/permission/valve/rule-application.ts:139-145 | two references whose loads fail give two answers |
| `RuleApplications.RuleApplication.Run` | src/services/permission/valve/rule-application.ts:72-105 | the method has the effect of the specification function, of which `RuleVerdicts` says what is answered |
| `RuleApplications.RuleApplication.OnLoadComplete` | src/services/permission/valve/rule-application.ts:126-133 | same |
| `RuleApplications.RuleApplication.LoadRecord` | src/services/permission/valve/rule-application.ts:331-349 | same |
| `RuleApplications.RuleApplication.IsReady` | src/services/permission/valve/rule-application.ts:311-323 | the loop decides whether nothing is loading and no run scheduled |
| `RuleCache.ScanFindsBest` | src/services/permission/valve/config-permission.ts:135-149 | the scan finds a rule exactly if one applies, and then that with the longest path, the last among those |
| `RuleCache.CachedIsUncached` | src/services/permission/valve/config-permission.ts:129-156 | after any lookups, purges and configuration changes a lookup gives what the scan of the present configuration gives |
| `RuleCacheRuns.CacheKeepsWhatIsUsed` | src/services/permission/valve/rule-cache.ts:40-77 | in every run a lookup gives what the last complete configuration gives, and a rule is cached exactly if it was found since the last purge but one, with no complete configuration since |
| `RuleCache.ToKeyIsInjective` | src/services/permission/valve/rule-cache.ts:83-85 | keys of different lookups differ, because sections and types contain no underscore |
| `RuleCaches.ConfigPermission.GetCompiledRulesForName` | src/services/permission/valve/config-permission.ts:129-156 | the scan loop and the cache compute the specification's result and state |
| `RuleCaches.RuleCache.Purge` | src/services/permission/valve/rule-cache.ts:69-77 | exactly the entries not used since the last purge go |
| `SocketBuffer.BufferIsFifo` | src/connection-endpoint/base/socket-wrapper.ts:116-133 | for every run and socket: what was written followed by the buffer is what was sent, byte by byte, and message by message if none is empty; the counter is right and within the limit; an open socket with bytes buffered is scheduled with the timer pending |
| `SocketBuffer.TimerWritesAll` | src/connection-endpoint/base/connection-endpoint.ts:102-108 | when the timer has fired everything sent to an open socket is written |
| `SocketSends.WaitsNoLonger` | src/connection-endpoint/base/socket-wrapper.ts:116-133 | in every run a socket has sent exactly what it was given while open, and what waits is exactly what came since the last message that could not wait, the last overflow, and the last firing of the timer |
| `SocketBuffer.OvertakesIff` | src/connection-endpoint/base/socket-wrapper.ts:47-53 | a send breaks the order of messages exactly if it cannot wait, is not empty, and meets a buffer of empty messages only |
| `SocketWrappers.SocketWrapper.SendBuiltMessage` | src/connection-endpoint/base/socket-wrapper.ts:116-133 | the method has the effect of the specification function, and schedules a flush exactly when that does |
| `SocketWrappers.SocketWrapper.Flush` | src/connection-endpoint/base/socket-wrapper.ts:47-53 | same |
| `SocketWrappers.ConnectionEndpoint.FlushSockets` | src/connection-endpoint/base/connection-endpoint.ts:102-108 | every scheduled socket is flushed, nothing stays scheduled |

## Left out

General:

- Servers, TLS, HTTP, MQTT and WebSocket transport, configuration loading, plugins, authentication,
  monitoring, logging and the start/stop table.
- The wall clock: a timer is a step that may happen whenever it is armed.
- JavaScript's special property names (`length`, `__proto__`, names of built-in methods used as keys)
  and the limits of doubles for versions and array indices.
- JSON conversion, `Number` on text that is no integer, regular expressions, random numbers and unique
  ids are parameters.

Record writes:

- Load and store answers are later events: a store that answers inside the call is not modelled.
- Data is an immutable value: sharing between transition, cache and message is not modelled. The
  partial change that `setValue` could leave when it throws does not exist, since it only throws at a
  null that was there before.
- An exception that `setValue` throws inside `next` is not caught by the source; it ends the modelled
  run as `crashed`.
- Record creation, deletion and its coordination, forced hot-path writes, promotion to the cache,
  read paths and the timeouts of `record-request`, which is one answer with data, absence or an error.
- A version that is no number, and the order in which acknowledgement errors are sent.
- RecordWrites.VersionsRiseIff: both stores hold what was set in them last, from the call on; a store that
  loses entries or sets them later is not covered.
- TransitionLostAcks.AckInWindowIff: speaks of the answer that comes before any other event; with storage's
  answer outstanding as well, each of the two is counted for the sender that is current when it comes.
- TransitionAcks.CalmRunsAreTidy: assumes stores without errors, storage before cache, a record that
  exists or may be created, no deletion, writes to live transitions, and no write accepted in the
  window described above.

Cluster:

- StateRegistries.DistributedStateRegistry.ApplyFullState: the list of servers whose state is awaited
  at the start, and the readiness that ends it, are not modelled.
- Requests for full state and check-sum messages and their timers: a full state may be sent at any
  time, and the comparison of totals is a method of its own.
- A server that stops and starts again under the same name.
- StateCluster.Converges: states agreement for channels that are FIFO and lose nothing.
- Locks.MutualExclusion: states safety for one fixed leader and owners that release once per true
  answer; a change of leader is not modelled.
- Locks.OneLeader: the servers share one map of scores; its distribution is not modelled.

Provider discovery:

- ListenerRegistries.ListenerRegistry.RemoveListenerIfActive: handles one name; the source's loop over
  the provided names is one event per name.
- Pattern matching: the candidates of a search are given. Loops over names are one event per name.
- The cool-down of unsuccessful searches, the rematch interval, has-provider messages to subscribers
  and close listeners on provider sockets.
- Listener.SearchTerminates: counts rejects and timeouts; that the armed timer fires at last is the
  environment's part.
- Listener.DiscoveryIsSound: that a server is not granted a lock which it has is assumed of the lock
  service; LockTimeouts.NoSecondGrant proves it of the protocol.

RPC:

- Rpc.OneReply: assumes that correlation ids are not used twice, as the source does.
- RpcHandling.RpcHandler.OnAnswer: the INVALID_RPC_CORRELATION_ID reply to an unknown id is not
  modelled, nor are payloads and the requestor's name and data.
- Rpc.ReroutingTerminates: rejections of one call one after the other, for fixed candidates;
  RpcBounds.AskedIsBounded bounds every run.

Text protocol:

- TextParsing.TextParser.Parse: frames of the connection, authentication and presence topics are passed
  through unread.
- The builders of those topics; error frames but VERSION_EXISTS; the read and
  head responses, which the parser does not read back.
- Payload numbers that are no number, and fractional versions.
- TextRoundTrip.RoundTrip: excludes RPC frames with an empty correlation id, which the parser replaces,
  and needs each payload value to survive JavaScript's own conversions.

Valve:

- What a rule says: a run is any sequence of references with any outcome. A patch whose application
  throws while arguments are prepared, and record data that is the text of the source's own loading
  marker.
- Rule parsing and path variables; the validator beyond the presence of all sections.

Subscriptions:

- Broadcasting, the sanity timer, and the listener-pattern registries, which do not answer
  NOT_SUBSCRIBED.
- SubscriptionRegistries.SubscriptionRegistry.Subscribe: the `Subscription` objects that the two
  indexes share are modelled by their names.
- Subscriptions.IndexesAgree: the server is alone and its state registry is the single one.

Json path:

- JsonPath.PutGet: `setValue` is a function on values; the in-place assignment along the walk is not
  captured. A root that is no object or array is refused.
- Arrays: the `length` property, and that a hole becomes null when the record is stored as JSON.

Socket buffering:

- SocketBuffer.BufferIsFifo: what a closing socket had buffered stays unwritten, as in the source.
  The size of a message is its length in UTF-16 code units, as the source computes it.
