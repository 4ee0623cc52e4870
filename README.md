# Throttle, subnet subscriptions and the early state-transition driver, in Dafny

This project models three small stateful components of a beacon-chain client and proves what each promises.

- **ThrottlingEth1Provider** (`throttling.dfy`, module `Throttling`) sits in front of an Eth1 data provider. It queues requests and keeps at most `maximumConcurrentRequests` delegate calls in flight. The class keeps the queue as a `seq`, the in-flight counter as an `int` and the settled futures as a `map`. Each queued request gets a natural-number identifier in submission order; the identifier stands for the future that `queueRequest` returns. Ghost fields record every submitted request, every started request in start order, and which started requests are still running or have completed. The drain loop `processQueuedRequests` is a `while` loop proved against the recursive function `Drain`, which admits one request at a time. `Drain`'s own contract and the lemmas about it state the properties: nothing lost or duplicated, FIFO admission, the exact number admitted, the capacity bound, and that draining twice admits nothing more. The class invariant states the rest. The in-flight count equals the number started minus the number completed. Every started request is either running or completed. Every future settles at most once. Between calls, either the queue is empty or every slot is taken. The settling of a delegate call is the explicit method `DelegateCompleted`. It covers both `propagateTo` and the `always(requestComplete)` callback.
- **AttestationTopicSubscriber** (`attestation_topic_subscriber.dfy`, module `AttestationSubnets`) keeps `unsubscriptionSlotBySubnetId` as a `map<int, nat>` field. The class records its network calls in a ghost log of `Subscribe(id)` and `Unsubscribe(id)` events. `subscribeToCommittee` is specified by the function `WithSubscription` and the predicate `NeedsNetworkSubscribe`. `onSlot` iterates over the keys in an unspecified order, like the `HashMap` iterator. It is specified by `Pruned` and `Expired`: it emits exactly one unsubscribe per expired subnet and makes no other call. The class invariant says that the map has an entry for exactly the subnets that the event log leaves subscribed.
- **StateTransition** (`state_transition.dfy`, module `StateTransitions`) drives the per-slot, per-block and per-epoch phases. `BeaconState` and `BeaconBlock` are classes. A state's contents other than its slot are the sequence of utility updates applied to it. An oracle `utilityThrows` decides whether a utility call throws, given the update and the state's contents. The recent-block-hash update carries whether a block was passed, so its outcome may depend on the block being absent. A throwing utility leaves its state unchanged. The recursive function `RunSteps` applies a list of utility updates until the first one throws. `initiate` returns the list of phases it entered, so that phase order can be stated. In the source it returns nothing. `slotProcessor` also returns the copy it worked on, so that the copy's contents can be stated.

The proofs show what the source does. `slotProcessor` increments and updates only a deep copy, which it then drops. So after `initiate` the caller's state has the same slot. A state at a slot that is a multiple of `EPOCH_LENGTH` therefore runs epoch processing again on every call whose slot processing completes. The block gets the caller's slot, not the copy's incremented one. The scenario method `EpochBoundaryTwice` shows both.

`initiate` catches every exception and discards it, so no error reaches its caller. The driver mutates `BeaconState` and `BeaconBlock` objects in place.

`EPOCH_LENGTH` is 64, the slots-per-epoch value of the protocol at the time. The `Constants` class is not part of this model.

## Model

| member | source | states |
|---|---|---|
| Throttling.Drain | pow/src/main/java/tech/pegasys/teku/pow/ThrottlingEth1Provider.java:89-94 | the reference definition of the drain loop: the requests a drain starts, followed by the queue it leaves, are exactly the queue it began with, so nothing is dropped or duplicated and the started ones are the oldest (FIFO); with no free slot nothing starts |
| Throttling.DrainCount | pow/src/main/java/tech/pegasys/teku/pow/ThrottlingEth1Provider.java:89-94 | a drain starts exactly min(queued, limit − in-flight) requests, or none when no slot is free; each step adds one to the count and starts one request |
| Throttling.DrainRespectsCapacity | pow/src/main/java/tech/pegasys/teku/pow/ThrottlingEth1Provider.java:90-91 | a drain never pushes the in-flight count past the limit, and it stops only when the queue is empty or all slots are taken |
| Throttling.DrainIdempotent | pow/src/main/java/tech/pegasys/teku/pow/ThrottlingEth1Provider.java:89-94 | a second drain with nothing completed in between starts nothing and leaves the queue as it is |
| Throttling.ThrottlingEth1Provider.constructor | pow/src/main/java/tech/pegasys/teku/pow/ThrottlingEth1Provider.java:27-34 | a new gate has an empty queue, an in-flight count of 0 and nothing started; the invariant holds |
| Throttling.ThrottlingEth1Provider.QueueRequest | pow/src/main/java/tech/pegasys/teku/pow/ThrottlingEth1Provider.java:72-82 | returns a new, unsettled future identifier; adds it to the end of the submitted requests; then drains exactly as `Drain` does; keeps the invariant (capacity bound, started plus queue equals submitted, in-flight equals started minus completed) |
| Throttling.ThrottlingEth1Provider.DelegateCompleted | pow/src/main/java/tech/pegasys/teku/pow/ThrottlingEth1Provider.java:76-87 | requires a started, uncompleted request; settles that request's future once, with the delegate's outcome; frees one slot; drains again; if requests were waiting, exactly the oldest one starts and the count is unchanged, otherwise the count drops by one |
| Throttling.ThrottlingEth1Provider.ProcessQueuedRequests | pow/src/main/java/tech/pegasys/teku/pow/ThrottlingEth1Provider.java:89-94 | the loop starts the requests `Drain` admits, in queue order; afterwards the queue is empty or the count has reached the limit |
| Throttling.ThrottlingEth1Provider.StartOldest | pow/src/main/java/tech/pegasys/teku/pow/ThrottlingEth1Provider.java:91-92 | one loop step: the count goes up by one and exactly the head of the queue is removed and started |
| AttestationSubnets.CurrentUnsubscriptionSlot | networking/eth2/src/main/java/tech/pegasys/teku/networking/eth2/gossip/AttestationTopicSubscriber.java:39-40 | the stored slot when the subnet has an entry; 0 exactly when there is no entry or the stored slot is 0 |
| AttestationSubnets.NeedsNetworkSubscribe | networking/eth2/src/main/java/tech/pegasys/teku/networking/eth2/gossip/AttestationTopicSubscriber.java:39-41 | a network subscribe is due exactly when the subnet has no entry or its stored slot is 0 |
| AttestationSubnets.WithSubscription | networking/eth2/src/main/java/tech/pegasys/teku/networking/eth2/gossip/AttestationTopicSubscriber.java:38-44 | after a request, the subnet's slot is the larger of its previous slot (0 if absent) and the aggregation slot; every other entry is unchanged |
| AttestationSubnets.LaterRequestNeverShortens | networking/eth2/src/main/java/tech/pegasys/teku/networking/eth2/gossip/AttestationTopicSubscriber.java:44 | two requests for one subnet leave the maximum of the slots whatever their order (10 then 5 leaves 10) |
| AttestationSubnets.LiveSubscriptionNotRepeated | networking/eth2/src/main/java/tech/pegasys/teku/networking/eth2/gossip/AttestationTopicSubscriber.java:39-44 | once a subnet holds a non-zero slot, another request does not subscribe on the network again |
| AttestationSubnets.ZeroSlotResubscribes | networking/eth2/src/main/java/tech/pegasys/teku/networking/eth2/gossip/AttestationTopicSubscriber.java:40-44 | a subnet stored with slot 0 counts as not subscribed: the entry exists but the next request subscribes on the network again |
| AttestationSubnets.Expired | networking/eth2/src/main/java/tech/pegasys/teku/networking/eth2/gossip/AttestationTopicSubscriber.java:53 | the expired subnets are exactly the map's entries whose slot is strictly below the current slot |
| AttestationSubnets.Pruned | networking/eth2/src/main/java/tech/pegasys/teku/networking/eth2/gossip/AttestationTopicSubscriber.java:48-58 | `onSlot` keeps exactly the entries whose slot is not below the current slot, with their slots unchanged |
| AttestationSubnets.ExpiredSubnetResubscribes | networking/eth2/src/main/java/tech/pegasys/teku/networking/eth2/gossip/AttestationTopicSubscriber.java:40-54 | a subnet dropped by `onSlot` is gone from the map, so the next request for it subscribes on the network again |
| AttestationSubnets.NothingExpiredIsNoOp | networking/eth2/src/main/java/tech/pegasys/teku/networking/eth2/gossip/AttestationTopicSubscriber.java:48-58 | with no expired entry, `onSlot` leaves the map unchanged |
| AttestationSubnets.OnSlotIdempotent | networking/eth2/src/main/java/tech/pegasys/teku/networking/eth2/gossip/AttestationTopicSubscriber.java:48-58 | a second `onSlot` with the same slot finds nothing expired and changes nothing |
| AttestationSubnets.SubscribedSubnetsAppend | networking/eth2/src/main/java/tech/pegasys/teku/networking/eth2/gossip/AttestationTopicSubscriber.java:42 | one more network call adds its subnet to the subscribed set (subscribe) or removes it (unsubscribe) |
| AttestationSubnets.SubscribedAfterUnsubscribes | networking/eth2/src/main/java/tech/pegasys/teku/networking/eth2/gossip/AttestationTopicSubscriber.java:53-56 | a run of unsubscribes removes exactly those subnets from the subscribed set |
| AttestationSubnets.UnsubscribesOnceEach | networking/eth2/src/main/java/tech/pegasys/teku/networking/eth2/gossip/AttestationTopicSubscriber.java:53-56 | unsubscribing along a repetition-free listing of the expired subnets appends exactly one unsubscribe for each of them and no other event |
| AttestationSubnets.SweepStep | networking/eth2/src/main/java/tech/pegasys/teku/networking/eth2/gossip/AttestationTopicSubscriber.java:51-57 | one iteration of the `onSlot` loop keeps the loop's bookkeeping: an expired entry is removed and unsubscribed once; a live one is kept |
| AttestationSubnets.SweepDone | networking/eth2/src/main/java/tech/pegasys/teku/networking/eth2/gossip/AttestationTopicSubscriber.java:48-58 | at the end of the loop: the map is the pruned map, exactly one unsubscribe has been appended per expired subnet, and the subscribed set has lost exactly those subnets |
| AttestationSubnets.AttestationTopicSubscriber.constructor | networking/eth2/src/main/java/tech/pegasys/teku/networking/eth2/gossip/AttestationTopicSubscriber.java:29-34 | a new subscriber has an empty map and has made no network call |
| AttestationSubnets.AttestationTopicSubscriber.SubscribeToCommittee | networking/eth2/src/main/java/tech/pegasys/teku/networking/eth2/gossip/AttestationTopicSubscriber.java:36-45 | the map becomes `WithSubscription` for the committee's subnet; a network subscribe is logged exactly when the stored slot was absent or zero; the map's keys remain exactly the subscribed subnets |
| AttestationSubnets.AttestationTopicSubscriber.OnSlot | networking/eth2/src/main/java/tech/pegasys/teku/networking/eth2/gossip/AttestationTopicSubscriber.java:48-59 | the map becomes `Pruned`; the log grows by one unsubscribe per expired subnet, with no repeats and no other calls, in unspecified order; the earlier log is kept; the invariant holds |
| AttestationSubnets.AttestationTopicSubscriber.UnsubscribeIfExpired | networking/eth2/src/main/java/tech/pegasys/teku/networking/eth2/gossip/AttestationTopicSubscriber.java:52-57 | the loop body: removes the entry and logs one unsubscribe exactly when its slot is strictly below the current slot; otherwise changes nothing |
| StateTransitions.RunSteps | ethereum/beaconchain/src/main/java/tech/pegasys/artemis/state/StateTransition.java:54-58 | the reference definition of a run of utility calls: it keeps the slot, adds at most one update per step, and on completion has applied every step in order |
| StateTransitions.RunStepsAppliesPrefix | ethereum/beaconchain/src/main/java/tech/pegasys/artemis/state/StateTransition.java:49-78 | utility steps apply in their order; a run keeps the slot and applies a prefix of the steps; it completes exactly when all are applied; otherwise it stops at a step that throws on the state reached |
| StateTransitions.RunStepsWithoutFailure | ethereum/beaconchain/src/main/java/tech/pegasys/artemis/state/StateTransition.java:72-78 | when no utility throws, every step is applied, in order, and the run completes |
| StateTransitions.EpochStepsInOrder | ethereum/beaconchain/src/main/java/tech/pegasys/artemis/state/StateTransition.java:74-77 | epoch processing applies a prefix of justification, finalization, crosslinks and bookkeeping, in that order; a throw stops the rest |
| StateTransitions.SlotOutcomeMayDependOnBlock | ethereum/beaconchain/src/main/java/tech/pegasys/artemis/state/StateTransition.java:58 | whether slot processing completes may depend on the block: there is a utility behaviour under which one state completes it with a block and fails without one |
| StateTransitions.Phases | ethereum/beaconchain/src/main/java/tech/pegasys/artemis/state/StateTransition.java:29-47 | the phases entered: slot processing first; block processing iff slot processing completed and a block is given; epoch processing iff slot processing completed and slot mod EPOCH_LENGTH is 0; phases in strictly increasing order |
| StateTransitions.StateTransition.Initiate | ethereum/beaconchain/src/main/java/tech/pegasys/artemis/state/StateTransition.java:29-47 | returns normally on every input (no error result); the phase list is `Phases`; the state's slot is unchanged; the state gets the epoch updates only when epoch processing ran; the block gets the state's slot only when slot processing completed |
| StateTransitions.StateTransition.SlotProcessor | ethereum/beaconchain/src/main/java/tech/pegasys/artemis/state/StateTransition.java:49-59 | changes no existing object (no modifies clause); a fresh copy gets slot + 1, then randao-mix update twice and recent-block-hash update, stopping at the first throw |
| StateTransitions.StateTransition.BlockProcessor | ethereum/beaconchain/src/main/java/tech/pegasys/artemis/state/StateTransition.java:61-70 | the block's slot becomes the state's slot; only the block changes; it cannot fail |
| StateTransitions.StateTransition.EpochProcessor | ethereum/beaconchain/src/main/java/tech/pegasys/artemis/state/StateTransition.java:72-78 | the caller's state gets justification, finalization, crosslinks and bookkeeping, in that order, stopping at the first throw |
| StateTransitions.StateTransition.constructor | ethereum/beaconchain/src/main/java/tech/pegasys/artemis/state/StateTransition.java:27 | a driver holds no state of its own beyond the given behaviour of the utilities |
| StateTransitions.StateTransition.ApplyUtility | ethereum/beaconchain/src/main/java/tech/pegasys/artemis/state/StateTransition.java:74-77 | one utility call: it throws as the oracle says and then leaves the state unchanged; otherwise it records its update |
| StateTransitions.BeaconState.DeepCopy | ethereum/beaconchain/src/main/java/tech/pegasys/artemis/state/StateTransition.java:51 | the copy is a new object with the same slot and contents |
| StateTransitions.BeaconState.IncrementSlot | ethereum/beaconchain/src/main/java/tech/pegasys/artemis/state/StateTransition.java:52 | the slot goes up by one and nothing else changes |
| StateTransitions.BeaconBlock.SetSlot | ethereum/beaconchain/src/main/java/tech/pegasys/artemis/state/StateTransition.java:62 | the block's slot becomes the given slot |

## Left out

- The futures machinery of the throttle is not modelled: `SafeFuture`, `propagateTo`, `always`, `ConcurrentLinkedQueue` and `synchronized`. Each public method is one atomic step. A delegate call settling is the explicit call `DelegateCompleted`, never a reentrant call from inside a drain.
- Throttling.ThrottlingEth1Provider.StartOldest: starting a request is assumed never to throw. In the source, `inflightRequestCount` is incremented and the request removed from the queue before the delegate is called. If the delegate throws synchronously instead of returning a failed future, `always(requestComplete)` is never attached. The slot is then never freed and the request's future never settles. The exception escapes `processQueuedRequests` into the caller of `queueRequest` or into the completion callback, and the drain stops with slots left free. After that, "queue empty or all slots taken" no longer holds.
- The six delegating request methods of the throttle (ThrottlingEth1Provider.java:41-70) are not modelled separately. Each only wraps one delegate call in `queueRequest`, which is `QueueRequest` here. The delegate and the data its calls return are not modelled; the outcome a future carries is a parameter of `DelegateCompleted`.
- `getLatestBlockFlowable` (ThrottlingEth1Provider.java:36-39) is left out: it passes straight through to the delegate without throttling.
- ThrottlingEth1Provider.constructor: the delegate argument is not modelled. A negative `maximumConcurrentRequests` is accepted as in the source; nothing is ever admitted then, and the capacity bound reads "count ≤ limit, or count = 0".
- AttestationSubnets.AttestationTopicSubscriber.constructor: `committeeIndexToSubnetId` is a function passed in at construction. `CommitteeUtil` is not part of this model. The `Eth2Network` transport is not modelled; its calls appear only as ghost events.
- AttestationSubnets.AttestationTopicSubscriber.OnSlot: the order of the unsubscribe calls is not stated, because `HashMap` iteration order is unspecified.
- `UnsignedLong` slot arithmetic is modelled with unbounded `nat`; overflow is not modelled.
- StateTransitions.StateTransition.ApplyUtility: the internals of `SlotProcessorUtil` and `EpochProcessorUtil` are not modelled. A utility that throws is assumed to leave its state unchanged; the source does not say what a half-finished utility leaves behind.
- StateTransitions.BeaconState.DeepCopy: `deepCopy` and `incrementSlot` are assumed never to throw. The contents of `BeaconState` other than the slot are abstracted to the list of updates applied, and `BeaconBlock` is abstracted to its slot.
- StateTransitions.StateTransition.SlotProcessor: the block passed to `updateRecentBlockHashes` enters only as whether it is null. Its contents are not recorded, and the throw decision sees only its presence.
- Logging is not modelled. Signature, randao and attestation processing in `blockProcessor` are commented out in the source.
- BlockFactory, ValidatorClientService and Eth2NetworkBuilder are not part of this model. They are delegation, service wiring and builder code around collaborators that are not shown.
