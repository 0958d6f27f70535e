# Verified model of the klights control plane's admission, install and teardown logic

The project models five parts of klights and proves what they promise.

* **Priority and fairness** (`PriorityLevel*.dfy`, `FlowSchemas.dfy`): one priority level of the
  `flowcontrol.apiserver.k8s.io/v1` scheme. `PriorityLevelSpec` gives each locked operation as a
  function on a value `Level<R>`. `PriorityLevel` is the level and its queued requests as heap
  objects whose methods and loops are proved against those functions. `PriorityLevelRuns` is the
  interleaving semantics built from the same functions: a step is one locked section or one
  unlocked access to a request's flags or wake handle, so `acquire` is two steps and a drop up to
  three. `Ring` tells whom a whole refill admits from the level before it. `Safety`, `Service`,
  `Liveness`, `Order` and `Work` state what holds of every run, and `Examples` holds the short runs
  in which a level does what it should not. A level is reconfigured on every admitted
  request, so all of these range over runs with reconfigurations in between.
* **Admission** (`AdmissionSpec.dfy`, `Admission.dfy`): the webhook engine and its pipeline. A run is
  the sequence of turns its webhooks took; matching, callout, verdict and patch are given by a
  `World`, so every statement holds for every behaviour of the webhooks.
* **Credential install** (`CredentialStore.dfy`): the file-system protocol behind a certificate or
  key, on a disk that records every state it passes through, with every call able to fail.
* **Mount teardown** (`MountTeardown.dfy`): which mounts a volume cleanup unmounts, in which order,
  and when it goes on to remove the directory.
* **Request resolution** (`RequestInfo.dfy`): URL paths to authorization attributes, against a
  canonical printer.

`StableSort.dfy` and `Strings.dfy` hold the stable sort, string order, split and join that these share.

## Where the code falls short of the obvious promise

Each of these is stated exactly, with a run or a condition, not assumed away.

* *A seat may stay free while somebody waits.* `NextWorkConserving` and `WorkConservation` give the
  exact condition, checkable before each step. `ReleaseBetweenHalves`, `RaisedSeats` and
  `CancelledHead` are three short runs that violate it: a release between the two locked halves of
  `acquire`; a reconfiguration that raises the seats, which wakes nobody; a cancelled head that uses
  up its queue's turn of the pop scan. `WellBehavedRunsAreBusy` proves the promise for all runs
  without those.
* *A seat may leak.* A waiter dropped after it was admitted and before it woke keeps its seat, and so
  does one that a release admits between the two flag accesses of its drop. `NextLeaks` gives the
  exact condition on the state before a step, `NoLeaks` that on a whole run; `LeakedForever` says
  that the seat never comes back, and `DeadOnceAllLeaked` that a level whose seats have all leaked
  never seats anybody again while its seats are not raised. `LateDropLeaksSeat` and
  `OvertakenDropLeaksSeat` are runs that do it.
* *A waiter may be lost.* Changing a level from Queue to Reject drops its queues without waking
  anybody, as in the run `QueueingOffLosesWaiter`. `NextLoses` proves that this is the only way and
  `NoLosses` that for whole runs; `LostForever` says that nothing admits or re-queues such a waiter
  later.
* *A queue may be left unserved.* Only a permit's release wakes anybody. `ServedIffServiceable` proves
  that the callers already here can get a queued request admitted, without its own caller giving up
  and without a reconfiguration, if and only if somebody holds or is promised a seat and not all
  seats have leaked. `StalledWithWaiter` and `LeakedWithWaiter` are runs that end in a level failing
  the one and the other.
* *A flow is served in order only with a hand of one.* `FlowFifo` proves it for those;
  `WiderHandOvertakes` is a run with a hand of two in which a later request of a flow overtakes.
* *Two families of resource paths read as something else.* `RoundTrip` proves that printing and
  resolving gives back the attributes if and only if they are not `Ambiguous`: the namespaced
  collections called `status` or `finalize`, and any other subresource of a namespace object. It also
  says what those resolve to; `StatusCollectionReadsAsNamespaceStatus` is an instance.
* *An install that fails may delete a foreign file* that appeared at the temporary path after the
  look for a free name. The contracts say exactly when such a file survives (`TempAfterError`), and
  `ForeignFileIsDeleted` reaches the deletion. The file is synced before its permissions are set, so
  a power cut may leave the installed file with fewer permissions, never more (`SurvivesPowerCut`).
* *Only webhooks that answered are reinvoked.* A reinvocable webhook whose call failed under a
  tolerant failure policy is not tracked. With distinct keys, `ReinvokesAllInvoked` proves that the
  queue is all reinvocable webhooks called before the last change if and only if none of them was
  called in vain; `FailedCallIsNotRetried` is a run in which one was.

On the grain of the steps: a release is one step, although it reads cancelled flags one at a time
while their owners may be setting them. It reads each flag at most once, so a flag set meanwhile acts
as if it had been set just before or just after the release.

## Model

| member | source | states |
|---|---|---|
| `PriorityLevelSpec.ChooseIsLeastOfHand` | crates/k8s-native-service/src/priority_fairness.rs:579-604 | The chosen queue is the one queue of the flow's hand that is least by length, then index; nothing else is (if and only if). |
| `PriorityLevelSpec.ChooseHandOne` | crates/k8s-native-service/src/priority_fairness.rs:589-595 | With a hand of one the choice ignores the queues and is the hash's own queue. |
| `PriorityLevelHands.InHandExactly` | crates/k8s-native-service/src/priority_fairness.rs:590-596 | A queue is in the hand exactly when its distance from the hash's own queue, around the ring, is below the hand size, taken as at least one and at most all. |
| `PriorityLevelHands.HandHolds` | crates/k8s-native-service/src/priority_fairness.rs:590-595 | The hand holds exactly that many queues. |
| `PriorityLevelHands.ChooseExactly` | crates/k8s-native-service/src/priority_fairness.rs:579-604 | The chosen queue lies in that range, and every other queue of the range is longer, or as long and later. |
| `PriorityLevelHands.DealExactly` | crates/k8s-native-service/src/priority_fairness.rs:554-569 | The k-th request dealt joins the back of the queue of its range that is least, by length, then index, after the first k; its back-pointer names it. |
| `PriorityLevelHands.ConcatAt` | crates/k8s-native-service/src/priority_fairness.rs:546-551 | Draining puts the queues one after the other, each from its head. |
| `PriorityLevelLaws.InitialIsWellFormed` | crates/k8s-native-service/src/priority_fairness.rs:441-454 | A new level is well formed: count, queue number, cursor and back-pointers agree. |
| `PriorityLevelLaws.InitialExactly` | crates/k8s-native-service/src/priority_fairness.rs:441-454 | A new level has the configured seats and limit, nobody seated, and at least one empty queue. |
| `PriorityLevelLaws.QueueFullIffHandFull` | crates/k8s-native-service/src/priority_fairness.rs:494-538 | An enqueue is rejected exactly in Reject mode; in Queue mode it is refused as full exactly when every queue of the flow's range is at or over the length limit. |
| `PriorityLevelLaws.EnqueueKeeps` | crates/k8s-native-service/src/priority_fairness.rs:494-538 | Enqueueing a new request keeps the level well formed, with its back-pointer at the queue it joined. |
| `PriorityLevelLaws.EnqueuePlaces` | crates/k8s-native-service/src/priority_fairness.rs:509-536 | An accepted request goes to the back of the least queue, by length, then index, of the flow's range, which was below the limit; nothing else changes but the count. |
| `PriorityLevelLaws.ScanKeeps` | crates/k8s-native-service/src/priority_fairness.rs:606-624 | Any number of scan turns keeps the level well formed. |
| `PriorityLevelLaws.ScanSuffixes` | crates/k8s-native-service/src/priority_fairness.rs:610-620 | The scan only ever takes heads: each queue is left a suffix of what it was. |
| `PriorityLevelLaws.ReleaseKeeps` | crates/k8s-native-service/src/priority_fairness.rs:355-379 | A release keeps the level well formed, takes only heads, and whoever left the queues was either admitted, once, or cancelled. |
| `PriorityLevelLaws.RemoveKeeps` | crates/k8s-native-service/src/priority_fairness.rs:381-394 | A cancel removes exactly that request, lowers the count by one, and changes nothing when the request is no longer queued. |
| `PriorityLevelLaws.DealCounts` | crates/k8s-native-service/src/priority_fairness.rs:554-569 | Dealing requests into fresh queues keeps their multiset and their number. |
| `PriorityLevelLaws.DealLaws` | crates/k8s-native-service/src/priority_fairness.rs:554-569 | Each dealt request lies in exactly one queue, the one its new back-pointer names, and in its hand. |
| `PriorityLevelLaws.DealKeepsOrder` | crates/k8s-native-service/src/priority_fairness.rs:554-569 | Requests dealt to one queue stand in the order in which they were dealt. |
| `PriorityLevelLaws.RedealLaws` | crates/k8s-native-service/src/priority_fairness.rs:540-570 | A re-deal loses and duplicates nothing: the same multiset, the same count, the same executing. |
| `PriorityLevelLaws.RedealLands` | crates/k8s-native-service/src/priority_fairness.rs:554-569 | After a re-deal each request lies in its flow's range for the new queue count and hand size, where its back-pointer points, so a later cancel finds it. |
| `PriorityLevelLaws.RedealKeepsOrder` | crates/k8s-native-service/src/priority_fairness.rs:546-569 | Two requests of one old queue that meet again in one new queue keep their order. |
| `PriorityLevelLaws.RedealExactly` | crates/k8s-native-service/src/priority_fairness.rs:540-577 | A re-deal deals everybody, queue by queue from the head, with the configured hand and number of queues. |
| `PriorityLevelLaws.ReconfigureKeeps` | crates/k8s-native-service/src/priority_fairness.rs:456-492 | Reconfiguring keeps the level well formed and invents no request; unless queueing is switched on or off it loses none. |
| `PriorityLevelLaws.ReconfigureExactly` | crates/k8s-native-service/src/priority_fairness.rs:456-492 | What each change of mode and queue count does to queues, cursor and count, case by case. |
| `PriorityLevelProgress.ScanFindsNone` | crates/k8s-native-service/src/priority_fairness.rs:610-623 | k turns find nobody exactly when none of the k queues they reach has a live head. |
| `PriorityLevelProgress.ScanFindsFirst` | crates/k8s-native-service/src/priority_fairness.rs:610-621 | Otherwise they find the head of the first queue in ring order with a live one, and the cursor stands just past it. |
| `PriorityLevelProgress.PopFindsNone` | crates/k8s-native-service/src/priority_fairness.rs:606-624 | The pop returns nobody exactly when no queue has a live head, even with live requests behind cancelled ones; then every queue lost its head. |
| `PriorityLevelProgress.PopFindsFirst` | crates/k8s-native-service/src/priority_fairness.rs:606-624 | The pop returns the first live head in ring order from the cursor. |
| `PriorityLevelProgress.ProbeCountsDown` | crates/k8s-native-service/src/priority_fairness.rs:611-620 | p * n + ((i - cursor) mod n) is the exact number of turns before the request at place p of queue i is taken: a turn takes it at zero and else lowers it by one. |
| `PriorityLevelProgress.TurnsExactly` | crates/k8s-native-service/src/priority_fairness.rs:611-612 | The measure is p * n + ((i - cursor) mod n). |
| `PriorityLevelProgress.RefillCountsDown` | crates/k8s-native-service/src/priority_fairness.rs:364-372 | Over a whole refill that measure falls by at least the number of pops, for every request that stays queued. |
| `PriorityLevelProgress.ReleaseWorkConserving` | crates/k8s-native-service/src/priority_fairness.rs:355-379 | From a level that keeps its seats busy, a release keeps them busy exactly under a stated condition on the heads and lengths of the queues. |
| `PriorityLevelProgress.ReleaseWorkConservingWithoutCancelled` | crates/k8s-native-service/src/priority_fairness.rs:355-379 | In particular whenever no cancelled request is still queued. |
| `PriorityLevelRing.AtTurns` | crates/k8s-native-service/src/priority_fairness.rs:610-620 | Turn p * n + ((i - cursor) mod n) of an endless scan takes the request at place p of queue i. |
| `PriorityLevelRing.RefillAdmits` | crates/k8s-native-service/src/priority_fairness.rs:364-372 | A refill admits a queued request exactly when it is live, fewer live requests come before its turn than seats are free, and no lap of n turns before it is without a live one; its place in the list is the number of live ones before it. |
| `PriorityLevelRing.OneSeatAdmits` | crates/k8s-native-service/src/priority_fairness.rs:364-372 | With one free seat that is exactly the first live head in ring order. |
| `PriorityLevelSafety.ReleaseAdmits` | crates/k8s-native-service/src/priority_fairness.rs:355-379 | Over every reachable state, whom a release will admit is told by that condition on the state before it. |
| `PriorityLevelRuns.NextKeepsInvariant` | crates/k8s-native-service/src/priority_fairness.rs:259-379 | Every step of every caller keeps the queues, the request flags, the pending wakes and the seat ledger consistent. |
| `PriorityLevelRuns.RunKeepsInvariant` | crates/k8s-native-service/src/priority_fairness.rs:259-379 | So does every finite interleaving of steps. |
| `PriorityLevelRuns.ExecutingAfter` | crates/k8s-native-service/src/priority_fairness.rs:301-311 | Outside a release the executing count changes only by an immediate acquire that found a free seat. |
| `PriorityLevelSafety.SeatLedger` | crates/k8s-native-service/src/priority_fairness.rs:259-379 | In every interleaving, executing = live permits + admitted waiters yet to resume + admitted waiters dropped before resuming; every permit drop finds executing at least 1. |
| `PriorityLevelSafety.QueueWellFormedness` | crates/k8s-native-service/src/priority_fairness.rs:381-624 | In every interleaving: the cached count is the sum of lengths, each request is queued once under its own back-pointer and is not admitted, queue number and cursor are in range, Reject mode has nothing queued; so no saturating subtraction saturates. |
| `PriorityLevelSafety.WokenMeansAdmitted` | crates/k8s-native-service/src/priority_fairness.rs:345-351 | A woken waiter is always admitted, so `acquire` never goes around its loop; every admitted waiter has its wake or one on the way. |
| `PriorityLevelSafety.SeatingStaysWithinSeats` | crates/k8s-native-service/src/priority_fairness.rs:301-372 | A step that raises executing ends with 1 <= executing <= the seats configured at that moment. |
| `PriorityLevelSafety.SeatBound` | crates/k8s-native-service/src/priority_fairness.rs:293-372 | Over every run executing stays within the largest seat count configured so far. |
| `PriorityLevelSafety.NobodyAdmittedOverSeats` | crates/k8s-native-service/src/priority_fairness.rs:355-372 | While executing is over the seats, as after a shrink, no step seats or admits anybody. |
| `PriorityLevelSafety.QueueLengthBound` | crates/k8s-native-service/src/priority_fairness.rs:494-570 | Until the queues are re-dealt or cleared, and through every other reconfiguration, each queue stays within the larger of the largest length limit configured and its length at the start. |
| `PriorityLevelSafety.TotalQueuedBound` | crates/k8s-native-service/src/priority_fairness.rs:494-538 | Over such runs from an empty level the total queued stays within queues times the largest length limit. |
| `PriorityLevelSafety.NextNeverRequeues` | crates/k8s-native-service/src/priority_fairness.rs:540-624 | A request that left the queues never returns to them. |
| `PriorityLevelSafety.NextLoses` | crates/k8s-native-service/src/priority_fairness.rs:479-483 | A step loses a waiter, neither admitted nor queued, exactly when it turns queueing off while that waiter is queued. |
| `PriorityLevelSafety.NoLosses` | crates/k8s-native-service/src/priority_fairness.rs:456-492 | No waiter is lost at any point of a run exactly when none of its steps turns queueing off over one. |
| `PriorityLevelSafety.LostForever` | crates/k8s-native-service/src/priority_fairness.rs:313-379 | No continuation admits, resumes or re-queues such a waiter. |
| `PriorityLevelSafety.NextLeaks` | crates/k8s-native-service/src/priority_fairness.rs:259-268 | A step leaks a seat exactly when it drops an admitted waiter, or is a release whose turn it is to admit a waiter that has found itself unadmitted and not yet flagged itself; both told from the state before the step. |
| `PriorityLevelSafety.NoLeaks` | crates/k8s-native-service/src/priority_fairness.rs:259-379 | A run leaks no seat exactly when none of its steps meets that condition. |
| `PriorityLevelSafety.LedgerWithoutLeaks` | crates/k8s-native-service/src/priority_fairness.rs:259-379 | From the start, executing is exactly the seats held or promised in exactly the runs that leak none. |
| `PriorityLevelSafety.LeakedForever` | crates/k8s-native-service/src/priority_fairness.rs:259-379 | Leaked seats are never given back: executing stays at least the live permits plus those seats, over every continuation. |
| `PriorityLevelSafety.DeadOnceAllLeaked` | crates/k8s-native-service/src/priority_fairness.rs:301-379 | Once all seats have leaked, no continuation within that many seats seats or admits anybody. |
| `PriorityLevelService.NextCountsDown` | crates/k8s-native-service/src/priority_fairness.rs:355-394 | One step of anybody brings a request that stays queued closer by at least the pops that step made. |
| `PriorityLevelService.NoStarvation` | crates/k8s-native-service/src/priority_fairness.rs:606-624 | A request still queued after a run has seen at most p * n + ((i - cursor) mod n) pops, whatever the others did, unless the queues were re-dealt or cleared. |
| `PriorityLevelService.LeavesOnlyAdmitted` | crates/k8s-native-service/src/priority_fairness.rs:355-394 | A live request leaves the queues only by being admitted. |
| `PriorityLevelService.ServedInTime` | crates/k8s-native-service/src/priority_fairness.rs:355-379 | Bounded waiting: a live request whose caller does not give up is admitted by the time the pop has been called p * n + ((i - cursor) mod n) + 1 times. |
| `PriorityLevelService.ReleasePops` | crates/k8s-native-service/src/priority_fairness.rs:355-372 | A release calls the pop exactly when it finds executing within the seats. |
| `PriorityLevelService.ServedInReleases` | crates/k8s-native-service/src/priority_fairness.rs:355-379 | The same bound counted in releases that find executing within the seats. |
| `PriorityLevelService.StalledForever` | crates/k8s-native-service/src/priority_fairness.rs:355-379 | With no live permit and no admitted waiter, and until a new caller comes, every queued request whose caller does not give up stays queued, through any reconfiguration that leaves queueing on. |
| `PriorityLevelService.StalledExactly` | crates/k8s-native-service/src/priority_fairness.rs:259-379 | A level has no live permit and no admitted waiter exactly when every seat counted as executing has leaked. |
| `PriorityLevelService.StallNeedsLostSeat` | crates/k8s-native-service/src/priority_fairness.rs:313-379 | So with seats, somebody queued, no idle seat and no leaked seat it is not so stalled. |
| `PriorityLevelLiveness.NeverServed` | crates/k8s-native-service/src/priority_fairness.rs:355-379 | With nobody holding or promised a seat, or with all seats leaked, no run of the callers already here admits a request. |
| `PriorityLevelLiveness.Serve` | crates/k8s-native-service/src/priority_fairness.rs:259-379 | Otherwise one does: finish the drops, resume the promised waiters, release; the run is constructed, with a measure that falls at every step. |
| `PriorityLevelLiveness.ServedIffServiceable` | crates/k8s-native-service/src/priority_fairness.rs:259-379 | The callers already here can get a queued request admitted, without its caller giving up and without a reconfiguration, if and only if somebody holds or is promised a seat and not all seats have leaked. |
| `PriorityLevelOrder.ReconfigureOrder` | crates/k8s-native-service/src/priority_fairness.rs:456-570 | With hands of one, a reconfiguration leaves each flow in one queue, in arrival order. |
| `PriorityLevelOrder.NextKeepsOrder` | crates/k8s-native-service/src/priority_fairness.rs:494-624 | With hands of one, so does every step. |
| `PriorityLevelOrder.RefillInOrder` | crates/k8s-native-service/src/priority_fairness.rs:364-378 | The list of one release, which is notified in order, has the requests of a flow in arrival order. |
| `PriorityLevelOrder.RunAdmitsInOrder` | crates/k8s-native-service/src/priority_fairness.rs:355-379 | So has the concatenation of those lists over a whole run. |
| `PriorityLevelOrder.FlowFifo` | crates/k8s-native-service/src/priority_fairness.rs:494-624 | Per-flow FIFO over every run with hands of one: queued requests of a flow share a queue in arrival order, none is admitted while an earlier one is queued, and the sequence of all admissions of the run has each flow in arrival order. |
| `PriorityLevelWork.NextWorkConserving` | crates/k8s-native-service/src/priority_fairness.rs:313-492 | A step keeps every seat busy while somebody waits if and only if a condition on the state before it holds. |
| `PriorityLevelWork.WorkConservation` | crates/k8s-native-service/src/priority_fairness.rs:313-492 | A run keeps the seats busy throughout if and only if each of its steps meets that condition. |
| `PriorityLevelWork.WellBehavedRunsAreBusy` | crates/k8s-native-service/src/priority_fairness.rs:313-379 | It does in every run where the halves of `acquire` are adjacent, flagging and removing a cancelled request are adjacent, and seats are never raised. |
| `PriorityLevelExamples.ReleaseBetweenHalves` | crates/k8s-native-service/src/priority_fairness.rs:320-338 | A run that leaves a request queued beside a free seat: a release between the halves of `acquire`. |
| `PriorityLevelExamples.RaisedSeats` | crates/k8s-native-service/src/priority_fairness.rs:456-457 | Another: raising the seats wakes nobody. |
| `PriorityLevelExamples.CancelledHead` | crates/k8s-native-service/src/priority_fairness.rs:611-619 | Another: a cancelled head uses up its queue's turn, and the live request behind it stays. |
| `PriorityLevelExamples.LateDropLeaksSeat` | crates/k8s-native-service/src/priority_fairness.rs:259-263 | A five-step run after which the only seat is taken and nobody holds it. |
| `PriorityLevelExamples.OvertakenDropLeaksSeat` | crates/k8s-native-service/src/priority_fairness.rs:261-266 | Another that leaks it: a release between the two flag accesses of a drop. |
| `PriorityLevelExamples.QueueingOffLosesWaiter` | crates/k8s-native-service/src/priority_fairness.rs:479-483 | A run after which a waiter is neither admitted nor queued. |
| `PriorityLevelExamples.StalledWithWaiter` | crates/k8s-native-service/src/priority_fairness.rs:320-338 | A run after which a request is queued, the one seat is free, and nobody already here can get it served. |
| `PriorityLevelExamples.LeakedWithWaiter` | crates/k8s-native-service/src/priority_fairness.rs:259-379 | A run after which a permit is live and the queued request still cannot be served: the one seat has leaked. |
| `PriorityLevelExamples.WiderHandOvertakes` | crates/k8s-native-service/src/priority_fairness.rs:579-624 | A run with two queues and a hand of two in which a later request of a flow is admitted while an earlier one is queued. |
| `PriorityLevel.PriorityLevelState.constructor` | crates/k8s-native-service/src/priority_fairness.rs:441-454 | The new level object is valid and is the initial level of its configuration, with its seats and limit. |
| `PriorityLevel.PriorityLevelState.TryAcquireImmediate` | crates/k8s-native-service/src/priority_fairness.rs:301-311 | Takes a seat exactly when one is free, and changes nothing else. |
| `PriorityLevel.PriorityLevelState.ChooseQueueIndex` | crates/k8s-native-service/src/priority_fairness.rs:579-604 | The loop over the hand finds the chosen queue, whose meaning `ChooseIsLeastOfHand` gives; 0 without queues. |
| `PriorityLevel.PriorityLevelState.TryEnqueue` | crates/k8s-native-service/src/priority_fairness.rs:494-538 | The verdict and the new level are those of the specification; an accepted request is a fresh object pointing at its queue. |
| `PriorityLevel.PriorityLevelState.TakeTurn` | crates/k8s-native-service/src/priority_fairness.rs:611-616 | One scan turn on the object is one turn of the specification. |
| `PriorityLevel.PriorityLevelState.PopNextQueuedForWakeup` | crates/k8s-native-service/src/priority_fairness.rs:606-624 | The scan loop returns the specified head and level; the head was queued and no longer is; the object stays valid. |
| `PriorityLevel.PriorityLevelState.RefillSeats` | crates/k8s-native-service/src/priority_fairness.rs:364-372 | The refill loop admits exactly the specified requests, in order, and sets the flag of exactly those. |
| `PriorityLevel.PriorityLevelState.Release` | crates/k8s-native-service/src/priority_fairness.rs:355-379 | A release is the specified one: the level after it, whom to notify, and whose admitted flag is set. |
| `PriorityLevel.PriorityLevelState.RemoveQueuedRequest` | crates/k8s-native-service/src/priority_fairness.rs:381-394 | Exactly that request leaves the queues, found by identity under its back-pointer, and is flagged if it was there. |
| `PriorityLevel.PriorityLevelState.DrainQueues` | crates/k8s-native-service/src/priority_fairness.rs:546-551 | The nested loop empties the queues, front to back, into one list. |
| `PriorityLevel.PriorityLevelState.DealQueues` | crates/k8s-native-service/src/priority_fairness.rs:553-569 | The dealing loop builds the specified queues and stores every request's new index in the request. |
| `PriorityLevel.PriorityLevelState.RebuildQueues` | crates/k8s-native-service/src/priority_fairness.rs:540-570 | Re-deals everybody, or does nothing when the queue count is already right. |
| `PriorityLevel.PriorityLevelState.Reconfigure` | crates/k8s-native-service/src/priority_fairness.rs:456-492 | The specified level, with the index of exactly the re-dealt requests rewritten; the object stays valid. |
| `FlowSchemas.SelectsLeast` | crates/k8s-native-service/src/priority_fairness.rs:726-769 | Nothing is selected exactly when nothing matches; otherwise a match that is least by precedence, then name. |
| `FlowSchemas.SelectsLowest` | crates/k8s-native-service/src/priority_fairness.rs:744-768 | Against every match the selected schema has the lower precedence number, 2^63 - 1 standing in for an absent one, or as low a one and lexicographically no later a name. |
| `FlowSchemas.SelectsFirst` | crates/k8s-native-service/src/priority_fairness.rs:739-768 | Of equally preferred matches the one listed first is selected. |
| `FlowSchemas.SelectForgetsOrder` | crates/k8s-native-service/src/priority_fairness.rs:739-768 | With distinct names any permutation of the list selects the same schema. |
| `StableSort.SortSorts` | crates/k8s-native-service/src/priority_fairness.rs:744-767 | The sort is sorted and a permutation. |
| `StableSort.SortStable` | crates/k8s-native-service/src/admission.rs:213-227 | Interchangeable elements keep their order. |
| `StableSort.SortForgetsOrder` | crates/k8s-native-service/src/admission.rs:213-227 | Without interchangeable elements the result does not depend on the input order. |
| `StableSort.StringLeExactly` | crates/k8s-native-service/src/admission.rs:226-226 | The order on names is lexicographic: a prefix first, otherwise by the first character that differs. |
| `AdmissionSpec.TakeIsSound` | crates/k8s-native-service/src/admission.rs:272-334 | A turn is not fatal exactly when the webhook did not match, allowed the object, or failed under a tolerant policy. |
| `AdmissionLaws.TakeExactly` | crates/k8s-native-service/src/admission.rs:272-334 | The outcome of a turn in every case, over the fields of the webhook; only a failure policy given and other than "Fail" tolerates a failed call. |
| `AdmissionSpec.PassUnique` | crates/k8s-native-service/src/admission.rs:246-337 | The webhooks' behaviour and the starting object determine a pass. |
| `AdmissionSpec.PassFolds` | crates/k8s-native-service/src/admission.rs:300-303 | The object a mutating pass leaves is the fold of the answers' patches in call order. |
| `AdmissionLaws.PatchedFirst` | crates/k8s-native-service/src/admission.rs:300-303 | The fold applies the first answer's patch first. |
| `AdmissionLaws.AnswersFirst` | crates/k8s-native-service/src/admission.rs:297-303 | The answers are listed in call order. |
| `AdmissionSpec.ValidationSeesOne` | crates/k8s-native-service/src/admission.rs:322-327 | A validating pass shows every webhook the same object. |
| `AdmissionSpec.ScheduleForgetsOrder` | crates/k8s-native-service/src/admission.rs:213-227 | The order in which distinctly named configurations are listed does not matter. |
| `AdmissionLaws.ScheduleExactly` | crates/k8s-native-service/src/admission.rs:213-269 | The schedule goes through the listed configurations in ascending order of their names and through the webhooks of each in their own order, every one once, keyed by configuration name, slash, webhook name. |
| `AdmissionLaws.RunInNameOrder` | crates/k8s-native-service/src/admission.rs:246-337 | Of any two turns of a mutating run's main pass, the earlier is of a configuration whose name is lexicographically no later. |
| `AdmissionSpec.LastChangeIsLast` | crates/k8s-native-service/src/admission.rs:303-313 | The turn used by the closed form is the last that changed the object. |
| `AdmissionSpec.FirstByKeyLaws` | crates/k8s-native-service/src/admission.rs:304-312 | De-duplication keeps every key, once, and adds nothing. |
| `AdmissionSpec.FirstByKeyKeeps` | crates/k8s-native-service/src/admission.rs:304-312 | What it keeps are the items at the first positions of their keys, in order. |
| `AdmissionSpec.FirstPositionsLaws` | crates/k8s-native-service/src/admission.rs:304-312 | Those positions increase. |
| `AdmissionSpec.FirstPositionsComplete` | crates/k8s-native-service/src/admission.rs:304-312 | They are exactly the positions with no earlier item of the same key. |
| `AdmissionSpec.ReinvocationsBounded` | crates/k8s-native-service/src/admission.rs:304-321 | Only reinvocable webhooks of the main pass are queued, each key once, never more than there were turns. |
| `AdmissionLaws.ReinvocationsExactly` | crates/k8s-native-service/src/admission.rs:303-321 | A key is reinvoked exactly when a webhook whose policy is "IfNeeded" answered under it before the last change. |
| `AdmissionSpec.ReinvokesAllInvoked` | crates/k8s-native-service/src/admission.rs:297-334 | With distinct keys the queue is all reinvocable webhooks called before the last change, answered or not, exactly when none of them failed under a tolerant policy. |
| `Admission.QueueMissing` | crates/k8s-native-service/src/admission.rs:304-312 | The inner loop that skips queued keys computes the first-occurrence de-duplication. |
| `Admission.ConfigPass` | crates/k8s-native-service/src/admission.rs:271-336 | The loop over one configuration's webhooks extends the pass turn by turn, keeping the closed form of what is remembered, and stops at a fatal turn. |
| `Admission.MainPass` | crates/k8s-native-service/src/admission.rs:229-337 | The two nested loops perform one pass over the schedule, whose order `ScheduleExactly` gives, and the queue they build turn by turn is the closed form: reinvocable webhooks that answered strictly before the last change, each key once, in call order. |
| `Admission.ReinvocationPass` | crates/k8s-native-service/src/admission.rs:339-377 | The second loop is one pass over that queue; a change there queues nothing. |
| `Admission.RunMutating` | crates/k8s-native-service/src/admission.rs:186-385 | A mutating run is those two passes, stopping at the first fatal turn with its error. |
| `Admission.RunValidating` | crates/k8s-native-service/src/admission.rs:186-385 | A validating run is one pass, then the policies on the same object. |
| `Admission.MutatingRunIsSound` | crates/k8s-native-service/src/admission.rs:246-377 | A mutating run succeeds exactly when no turn was fatal; then every turn of both passes was sound and the result is the fold of all mutations. |
| `AdmissionLaws.RunFailsWithLast` | crates/k8s-native-service/src/admission.rs:246-377 | A mutating run that fails does so with the failure of its last turn. |
| `Admission.ReinvocationIsBounded` | crates/k8s-native-service/src/admission.rs:304-377 | At most one extra call per reinvocable key of the main pass, and at most two calls per scheduled webhook. |
| `Admission.Execute` | crates/k8s-native-service/src/admission.rs:390-408 | The pipeline is the mutating run followed, if that succeeded, by validation of what it returned; each failure ends it. |
| `Admission.PipelineIsSound` | crates/k8s-native-service/src/admission.rs:390-408 | An object the pipeline returns is the fold of the mutations in call order, is exactly what all validators and policies saw, and no matching webhook of any pass refused it or failed closed. |
| `AdmissionLaws.PipelineAdmitsExactly` | crates/k8s-native-service/src/admission.rs:390-408 | After the mutating run, exactly when the pipeline returns its object, and otherwise with which error. |
| `Admission.RunForgetsListing` | crates/k8s-native-service/src/admission.rs:209-227 | A mutating run's calls and result do not depend on the order in which configurations were listed. |
| `Admission.PipelineForgetsListing` | crates/k8s-native-service/src/admission.rs:390-408 | Neither the calls nor the result of the whole pipeline depend on the order of either listing. |
| `Admission.FailedCallIsNotRetried` | crates/k8s-native-service/src/admission.rs:316-334 | A mutating run in which a reinvocable webhook's call fails, the object then changes, and the webhook is not called again. |
| `CredentialStore.TempNamesDiffer` | src/bootstrap/credential_store.rs:154-178 | A temporary name is never the destination's, and distinguishes process, clock reading and attempt. |
| `CredentialStore.TempNameSpelled` | src/bootstrap/credential_store.rs:167-169 | An instance of the temporary name, spelled out. |
| `CredentialStore.Disk.CreateTempFilePath` | src/bootstrap/credential_store.rs:166-178 | The first of the 64 candidates that is free; fails only when all are taken. |
| `CredentialStore.Disk.WriteAll` | src/bootstrap/credential_store.rs:133-134 | However writes are cut up and wherever they fail, every intermediate content is a beginning of the bytes. |
| `CredentialStore.Disk.Fill` | src/bootstrap/credential_store.rs:127-138 | Create, write, sync and chmod: at every moment only the temporary file differs, a beginning of the bytes with no more than the requested permissions; at the end it has all bytes, synced, and the requested mode whatever the umask; each failing call gives its own error. |
| `CredentialStore.Disk.Publish` | src/bootstrap/credential_store.rs:126-145 | After the rename the destination is the complete new file and nothing else differs; every state on the way was safe. |
| `CredentialStore.Disk.InstallVia` | src/bootstrap/credential_store.rs:124-151 | With cleanup: an error leaves the tree as it was except for the temporary path; our own file stays there exactly when its removal failed, a foreign one survives, unaltered, exactly when removal failed or it is a directory. |
| `CredentialStore.Disk.AtomicWriteWithMode` | src/bootstrap/credential_store.rs:118-152 | At every moment of every run, with any call failing, the destination is its old self or a synced file with all the bytes and the requested mode, and nothing but the temporary path differs; an error, named after the call that failed, means the destination is unchanged and says exactly what is at the temporary path; without faults the file is installed. |
| `CredentialStore.Disk.AtomicInstall` | src/bootstrap/credential_store.rs:92-116 | An installed key has mode 0600 and an installed certificate 0644, with all bytes, and nothing else has changed. |
| `CredentialStore.ForeignFileIsDeleted` | src/bootstrap/credential_store.rs:147-149 | A failing install that deletes a file which another process put at the temporary path. |
| `CredentialStore.KeyIsNeverExposed` | src/bootstrap/credential_store.rs:92-97 | While the CA key is being installed its temporary file never grants group or others anything. |
| `CredentialStore.SurvivesPowerCut` | src/bootstrap/credential_store.rs:133-141 | A power cut at any moment leaves at the destination what it could leave of the old file, or all new bytes with the requested mode or that mode less the umask, never a wider one. |
| `CredentialStore.ModeSurvivesPowerCut` | src/bootstrap/credential_store.rs:135-138 | The requested mode is guaranteed to survive exactly when the umask takes nothing from it. |
| `MountTeardown.RenderReadsBack` | src/shutdown.rs:224-229 | A mount whose source and point hold no space is read back from its line of `mount` output. |
| `MountTeardown.TrimSlashes` | src/shutdown.rs:214-228 | The longest beginning that does not end in a slash; what is cut off is slashes. |
| `MountTeardown.LinesExactly` | src/shutdown.rs:224-226 | A line ends at a line feed, less one carriage return before it, or with the text. |
| `MountTeardown.TableReadsBack` | src/shutdown.rs:224-229 | Of a whole table of mounts without spaces or line feeds exactly the mount points are reported. |
| `MountTeardown.UnderRootIsByComponent` | src/shutdown.rs:230-232 | The string test holds exactly when the root's path components begin the mount point's. |
| `MountTeardown.FindMountPointsUnderRoots` | src/shutdown.rs:210-244 | The loops with the seen-set and the sort compute the collected mounts, longest first. |
| `MountTeardown.TeardownListIsRight` | src/shutdown.rs:210-244 | That list is exactly the reported mounts at or below a root by path component, each once, every strict descendant before its ancestor. |
| `MountTeardown.TeardownOfTable` | src/shutdown.rs:210-244 | For such a table, exactly its mount points at or below a root are taken down. |
| `MountTeardown.TeardownOfPlainTable` | src/shutdown.rs:210-244 | For paths that do not end in a slash: exactly the table's mount points that are a root or begin with a root and a slash. |
| `MountTeardown.UnmountMountPoints` | src/shutdown.rs:254-302 | Every entry is attempted, in order, even after failures; it succeeds exactly when all did, and reports exactly those that failed. |
| `MountTeardown.CleanupVolumeRoot` | src/shutdown.rs:556-585 | It goes on to remove the directory exactly when the mount table was read and every unmount succeeded; an absent root is success. |
| `MountTeardown.RemovalIsSafe` | src/shutdown.rs:556-585 | When it does, every reported mount at or below the root, under its own or its canonical name, was unmounted, and after everything strictly below it. |
| `MountTeardown.PlainRemovalIsSafe` | src/shutdown.rs:556-585 | The same for such paths: every mount of the table that is the root or begins with it and a slash was unmounted, after everything that begins with it and a slash. |
| `RequestInfo.RoundTrip` | crates/k8s-native-service/src/request_info.rs:126-251 | For every method, query and well-formed attributes, resolving the canonical path gives the expected answer if and only if the attributes are not ambiguous; ambiguous ones share their path with, and resolve to, the namespace's own subresource or a collection inside that namespace. |
| `RequestInfo.StatusCollectionReadsAsNamespaceStatus` | crates/k8s-native-service/src/request_info.rs:186-202 | A list of the collection `status` in a namespace is resolved as a get of the namespace's status. |
| `RequestInfo.AnswersAreCanonical` | crates/k8s-native-service/src/request_info.rs:126-251 | Whatever path arrives, a resource answer carries well-formed, unambiguous attributes, and printing and resolving those gives the same answer. |
| `RequestInfo.ReachableAttributes` | crates/k8s-native-service/src/request_info.rs:126-219 | Some path resolves to given attributes exactly when they are not ambiguous. |
| `RequestInfo.SelectorsExactlyOnCollections` | crates/k8s-native-service/src/request_info.rs:112-120 | Selectors of the query reach the authorizer with exactly the requests that read, watch or delete a whole collection; a watch is exactly a watching read of one. |
| `RequestInfo.ResourceExactly` | crates/k8s-native-service/src/request_info.rs:131-156 | A path names a resource exactly when something follows its API prefix. |
| `RequestInfo.GroupAndVersion` | crates/k8s-native-service/src/request_info.rs:131-149 | Group and version are those of the prefix, the core group being none. |
| `RequestInfo.AttributesExactly` | crates/k8s-native-service/src/request_info.rs:158-251 | Which segments become namespace, resource, name and subresource, for paths of any length. |
| `RequestInfo.ResourceVerbs` | crates/k8s-native-service/src/request_info.rs:43-67 | The verb of every answer without a subresource, by method, name and watch. |
| `RequestInfo.SubresourceVerbs` | crates/k8s-native-service/src/request_info.rs:70-87 | The verb of every answer with a subresource, by subresource and method. |
| `RequestInfo.NonResourceAnswers` | crates/k8s-native-service/src/request_info.rs:30-40 | Any other answer carries the path itself and the verb of its method. |
| `RequestInfo.ParamExactly` | crates/k8s-native-service/src/request_info.rs:88-102 | A parameter is what follows `key=` in the first part of the query that begins so, decoded; absent when none does. |
| `RequestInfo.WatchesExactly` | crates/k8s-native-service/src/request_info.rs:104-108 | A request watches exactly when its watch parameter is true or 1. |
| `RequestInfo.PrintIsJoin` | crates/k8s-native-service/src/request_info.rs:126-127 | The canonical path is a slash and the segments joined by slashes. |
| `RequestInfo.PrintedPaths` | crates/k8s-native-service/src/request_info.rs:126-149 | Two canonical paths, one of the core group and one of a named group, spelled out. |

## Left out

- ChooseQueueIndex: `stable_hash` is an arbitrary function, and counters are unbounded naturals; the `usize::MAX` start value of the hand search is modelled as "no queue seen yet".
- The async runtime, `Notify` internals and memory ordering: a wake is a flag that enables a resume step, and flag accesses are sequentially consistent steps.
- NextKeepsInvariant: a release hands its wakes to a set from which they go out in any order, so the runs include, and are not limited to, those that notify each list in order.
- Reading the level and schema objects, the `parse_*` functions, and the subject, rule and URL matchers: the parsed configuration and an arbitrary match predicate are inputs.
- HTTP middleware, error bodies, tracing and the test-only accessors.
- Webhook networking, timeouts, JSON Patch, selectors, CEL conditions, namespace labels and the validating policies: arbitrary functions of the `World`; a webhook may answer differently at each turn.
- Percent-decoding of query values: an arbitrary function.
- FindMountPointsUnderRoots: mount points with spaces are read as the code reads them, up to the first space; `RenderReadsBack` therefore excludes them. Lengths count characters, where the code counts UTF-8 bytes.
- CleanupVolumeRoot: `umount` and directory removal are oracles for success; what a lazy unmount leaves mounted, and mounts stacked on one point, are not modelled.
- AtomicWriteWithMode: creating missing parent directories has no effect on the modelled tree beyond failing or not, and the final sync of the parent directory, whose result is discarded, is not modelled; neither are symbolic links at the temporary path.
- The other mount filters of shutdown (`find_shm_mount_points`, `find_overlay_rootfs_mount_points`), containerd and CRI cleanup.
- Continuation tokens, response tables, authentication headers, certificates, command line, bootstrap composition and the Raft-backed stores.
