// A model of AttestationTopicSubscriber: which attestation subnets this node
// is subscribed to on the gossip network, and until which slot.
//
// The map from subnet id to unsubscription slot is the class's field; the calls
// made to the network are recorded in a ghost log of events. The mapping from
// committee index to subnet id is supplied at construction.

module AttestationSubnets {

  /** A call made to the network. */
  datatype NetworkEvent = Subscribe(subnetId: int) | Unsubscribe(subnetId: int)

  function Max(a: nat, b: nat): nat { if a >= b then a else b }

  /** The stored unsubscription slot, with 0 standing for "no entry". */
  function CurrentUnsubscriptionSlot(slots: map<int, nat>, subnetId: int): (r: nat)
    ensures subnetId in slots ==> r == slots[subnetId]
    ensures r == 0 <==> subnetId !in slots || slots[subnetId] == 0
  {
    if subnetId in slots then slots[subnetId] else 0
  }

  /** A subscription is issued on the network exactly when the stored slot is absent or zero. */
  predicate NeedsNetworkSubscribe(slots: map<int, nat>, subnetId: int)
    ensures NeedsNetworkSubscribe(slots, subnetId) <==> subnetId !in slots || slots[subnetId] == 0
  {
    CurrentUnsubscriptionSlot(slots, subnetId) == 0
  }

  /**
   * The map after a subscription request: only the requested subnet's entry
   * changes, and its slot becomes the larger of the previous one and the
   * aggregation slot, so no request shortens a subscription.
   */
  function WithSubscription(slots: map<int, nat>, subnetId: int, aggregationSlot: nat): (r: map<int, nat>)
    ensures r.Keys == slots.Keys + {subnetId}
    ensures r[subnetId] >= aggregationSlot && r[subnetId] >= CurrentUnsubscriptionSlot(slots, subnetId)
    ensures r[subnetId] == aggregationSlot || r[subnetId] == CurrentUnsubscriptionSlot(slots, subnetId)
    ensures forall k :: k in slots && k != subnetId ==> r[k] == slots[k]
  {
    slots[subnetId := Max(CurrentUnsubscriptionSlot(slots, subnetId), aggregationSlot)]
  }

  /** The subnets whose unsubscription slot lies strictly before `slot`. */
  function Expired(slots: map<int, nat>, slot: nat): (r: set<int>)
    ensures r <= slots.Keys
    ensures forall k :: k in slots ==> (k in r <==> slots[k] < slot)
  {
    set k | k in slots && slots[k] < slot
  }

  /** The map after `onSlot(slot)`: the expired entries are gone, the rest keep their slots. */
  function Pruned(slots: map<int, nat>, slot: nat): (r: map<int, nat>)
    ensures r.Keys == slots.Keys - Expired(slots, slot)
    ensures forall k :: k in r ==> r[k] == slots[k] && slot <= r[k]
  {
    map k | k in slots && slots[k] >= slot :: slots[k]
  }

  /** The effect of one network call on the set of subscribed subnets. */
  function AfterEvent(subscribed: set<int>, e: NetworkEvent): set<int>
  {
    if e.Subscribe? then subscribed + {e.subnetId} else subscribed - {e.subnetId}
  }

  /** The subnets the network is subscribed to after the calls in `log`, starting from none. */
  ghost function SubscribedSubnets(log: seq<NetworkEvent>): set<int>
    decreases |log|
  {
    if log == [] then {} else AfterEvent(SubscribedSubnets(log[..|log| - 1]), log[|log| - 1])
  }

  lemma SubscribedSubnetsAppend(log: seq<NetworkEvent>, e: NetworkEvent)
    ensures SubscribedSubnets(log + [e]) == AfterEvent(SubscribedSubnets(log), e)
  {
    assert (log + [e])[..|log|] == log;
  }

  /** Two requests for one subnet leave the later expiry, whatever order they come in: 10 then 5 leaves 10. */
  lemma LaterRequestNeverShortens(slots: map<int, nat>, subnetId: int, first: nat, second: nat)
    ensures WithSubscription(WithSubscription(slots, subnetId, first), subnetId, second)[subnetId]
         == Max(CurrentUnsubscriptionSlot(slots, subnetId), Max(first, second))
  {
  }

  /** Once a subnet holds a non-zero slot, a further request does not subscribe on the network again. */
  lemma LiveSubscriptionNotRepeated(slots: map<int, nat>, subnetId: int, aggregationSlot: nat)
    requires aggregationSlot > 0 || CurrentUnsubscriptionSlot(slots, subnetId) > 0
    ensures !NeedsNetworkSubscribe(WithSubscription(slots, subnetId, aggregationSlot), subnetId)
  {
  }

  /** An entry stored with slot 0 counts as no subscription: the next request subscribes on the network again. */
  lemma ZeroSlotResubscribes(slots: map<int, nat>, subnetId: int)
    requires NeedsNetworkSubscribe(slots, subnetId)
    ensures subnetId in WithSubscription(slots, subnetId, 0)
    ensures NeedsNetworkSubscribe(WithSubscription(slots, subnetId, 0), subnetId)
  {
  }

  /** A subnet dropped by `onSlot` is subscribed on the network again by the next request for it. */
  lemma ExpiredSubnetResubscribes(slots: map<int, nat>, slot: nat, subnetId: int)
    requires subnetId in Expired(slots, slot)
    ensures subnetId !in Pruned(slots, slot)
    ensures NeedsNetworkSubscribe(Pruned(slots, slot), subnetId)
  {
  }

  /** With nothing expired, `onSlot` leaves the map as it is. */
  lemma NothingExpiredIsNoOp(slots: map<int, nat>, slot: nat)
    requires Expired(slots, slot) == {}
    ensures Pruned(slots, slot) == slots
  {
    assert forall k :: k in slots ==> k !in Expired(slots, slot);
  }

  /** A second `onSlot` for the same slot finds nothing expired and changes nothing. */
  lemma OnSlotIdempotent(slots: map<int, nat>, slot: nat)
    ensures Expired(Pruned(slots, slot), slot) == {}
    ensures Pruned(Pruned(slots, slot), slot) == Pruned(slots, slot)
  {
    NothingExpiredIsNoOp(Pruned(slots, slot), slot);
  }

  /**
   * One network unsubscribe for each id, in order. A proof aid for stating the
   * events `onSlot` appends; its contract spells out the elements for the prover.
   */
  function Unsubscribes(ids: seq<int>): (r: seq<NetworkEvent>)
    ensures |r| == |ids|
    ensures forall i {:trigger r[i]} :: 0 <= i < |ids| ==> r[i] == Unsubscribe(ids[i])
  {
    seq(|ids|, i requires 0 <= i < |ids| => Unsubscribe(ids[i]))
  }

  lemma UnsubscribesAppend(ids: seq<int>, id: int)
    ensures Unsubscribes(ids + [id]) == Unsubscribes(ids) + [Unsubscribe(id)]
  {
    assert forall i :: 0 <= i < |ids| ==> (ids + [id])[i] == ids[i];
  }

  /**
   * Appending one unsubscribe per id of `removed`, a duplicate-free listing of
   * `ids`, appends exactly one unsubscribe for each member of `ids` and nothing else.
   */
  lemma UnsubscribesOnceEach(log: seq<NetworkEvent>, removed: seq<int>, ids: set<int>)
    requires forall i :: 0 <= i < |removed| ==> removed[i] in ids
    requires forall k :: k in ids ==> k in removed
    requires |removed| == |ids|
    ensures var events := log + Unsubscribes(removed);
      && |events| == |log| + |ids|
      && events[..|log|] == log
      && (forall i :: |log| <= i < |events| ==> events[i].Unsubscribe? && events[i].subnetId in ids)
      && (forall i, j :: |log| <= i < j < |events| ==> events[i] != events[j])
      && (forall k :: k in ids ==> Unsubscribe(k) in events[|log|..])
  {
    assert forall k :: k in (set x | x in removed) <==> k in ids;
    assert (set x | x in removed) == ids;
    DistinctByCount(removed);
    var events := log + Unsubscribes(removed);
    assert events[|log|..] == Unsubscribes(removed);
    forall k | k in ids
      ensures Unsubscribe(k) in events[|log|..]
    {
      var i :| 0 <= i < |removed| && removed[i] == k;
      assert events[|log|..][i] == Unsubscribe(k);
    }
  }

  /** A sequence has at most as many distinct members as entries, and exactly as many only when it repeats none. */
  lemma {:induction false} DistinctByCount(s: seq<int>)
    ensures |set x | x in s| <= |s|
    ensures |set x | x in s| == |s| ==> forall i, j :: 0 <= i < j < |s| ==> s[i] != s[j]
    decreases |s|
  {
    if s != [] {
      var init, last := s[..|s| - 1], s[|s| - 1];
      DistinctByCount(init);
      assert s == init + [last];
      assert (set x | x in s) == (set x | x in init) + {last};
      if last !in init && |set x | x in s| == |s| {
        forall i, j | 0 <= i < j < |s|
          ensures s[i] != s[j]
        {
          if j < |s| - 1 {
            assert s[i] == init[i] && s[j] == init[j];
          } else {
            assert s[i] == init[i];
          }
        }
      }
    }
  }

  /** Unsubscribing from the ids in `ids` removes exactly those ids from the subscribed subnets. */
  lemma {:induction false} SubscribedAfterUnsubscribes(log: seq<NetworkEvent>, ids: seq<int>)
    ensures SubscribedSubnets(log + Unsubscribes(ids)) == SubscribedSubnets(log) - set k | k in ids
    decreases |ids|
  {
    if ids != [] {
      var init, last := ids[..|ids| - 1], ids[|ids| - 1];
      assert ids == init + [last];
      UnsubscribesAppend(init, last);
      SubscribedAfterUnsubscribes(log, init);
      assert log + Unsubscribes(ids) == (log + Unsubscribes(init)) + [Unsubscribe(last)];
      SubscribedSubnetsAppend(log + Unsubscribes(init), Unsubscribe(last));
      assert (set k | k in ids) == (set k | k in init) + {last};
    } else {
      assert log + Unsubscribes(ids) == log;
    }
  }

  /** The entries found expired one by one, over all keys, are the expired set. */
  lemma ExpiredSetComplete(slots: map<int, nat>, slot: nat, found: set<int>)
    requires found <= slots.Keys
    requires forall k :: k in slots ==> (k in found <==> slots[k] < slot)
    ensures found == Expired(slots, slot)
  {
    assert forall k :: k in found <==> k in Expired(slots, slot);
  }

  /** A map that keeps exactly the unexpired entries, with their slots, is the pruned map. */
  lemma PrunedByEntries(before: map<int, nat>, slot: nat, after: map<int, nat>)
    requires after.Keys == before.Keys - Expired(before, slot)
    requires forall k :: k in after ==> after[k] == before[k]
    ensures after == Pruned(before, slot)
  {
    var pruned := Pruned(before, slot);
    assert after.Keys == pruned.Keys;
    assert forall k :: k in pruned ==> after[k] == pruned[k];
  }

  /** A set with no member is the empty set: a proof aid that lets `onSlot` pick a key with `:|`. */
  lemma EmptyOrHasMember(s: set<int>)
    ensures s == {} || exists k :: k in s
  {
    if forall k :: k !in s {
      assert s == {};
    }
  }

  /**
   * Part way through `onSlot`: the subnets in `visited` have been looked at, the
   * expired ones among them (`gone`) have been dropped from `current` and
   * unsubscribed, in the order `removed`, and `log` is `log0` plus those calls.
   */
  ghost predicate Sweeping(before: map<int, nat>, slot: nat, remaining: set<int>, visited: set<int>, gone: set<int>,
                           removed: seq<int>, current: map<int, nat>, log0: seq<NetworkEvent>, log: seq<NetworkEvent>)
  {
    && remaining + visited == before.Keys && remaining !! visited
    && gone <= visited
    && (forall k :: k in visited ==> (k in gone <==> before[k] < slot))
    && current.Keys == before.Keys - gone
    && (forall k :: k in current ==> current[k] == before[k])
    && log == log0 + Unsubscribes(removed)
    && (forall i :: 0 <= i < |removed| ==> removed[i] in gone)
    && (forall k :: k in gone ==> k in removed)
    && |removed| == |gone|
  }

  /** Looking at one more subnet keeps `Sweeping`, whether it has expired or not. */
  lemma SweepStep(before: map<int, nat>, slot: nat, remaining: set<int>, visited: set<int>, gone: set<int>,
                  removed: seq<int>, current: map<int, nat>, log0: seq<NetworkEvent>, log: seq<NetworkEvent>, subnetId: int)
    requires Sweeping(before, slot, remaining, visited, gone, removed, current, log0, log)
    requires subnetId in remaining
    ensures subnetId in current && current[subnetId] == before[subnetId]
    ensures before[subnetId] < slot ==>
      Sweeping(before, slot, remaining - {subnetId}, visited + {subnetId}, gone + {subnetId},
               removed + [subnetId], current - {subnetId}, log0, log + [Unsubscribe(subnetId)])
    ensures before[subnetId] >= slot ==>
      Sweeping(before, slot, remaining - {subnetId}, visited + {subnetId}, gone, removed, current, log0, log)
  {
    if before[subnetId] < slot {
      UnsubscribesAppend(removed, subnetId);
      assert subnetId !in gone;
      assert (current - {subnetId}).Keys == before.Keys - (gone + {subnetId});
      assert log + [Unsubscribe(subnetId)] == log0 + Unsubscribes(removed + [subnetId]);
    }
  }

  /** When every subnet has been looked at, `onSlot` has done exactly what its contract says. */
  lemma SweepDone(before: map<int, nat>, slot: nat, visited: set<int>, gone: set<int>,
                  removed: seq<int>, current: map<int, nat>, log0: seq<NetworkEvent>, log: seq<NetworkEvent>)
    requires Sweeping(before, slot, {}, visited, gone, removed, current, log0, log)
    ensures current == Pruned(before, slot)
    ensures |log| == |log0| + |Expired(before, slot)|
    ensures log[..|log0|] == log0
    ensures forall i :: |log0| <= i < |log| ==> log[i].Unsubscribe? && log[i].subnetId in Expired(before, slot)
    ensures forall i, j :: |log0| <= i < j < |log| ==> log[i] != log[j]
    ensures forall k :: k in Expired(before, slot) ==> Unsubscribe(k) in log[|log0|..]
    ensures SubscribedSubnets(log) == SubscribedSubnets(log0) - Expired(before, slot)
  {
    ExpiredSetComplete(before, slot, gone);
    PrunedByEntries(before, slot, current);
    UnsubscribesOnceEach(log0, removed, gone);
    SubscribedAfterUnsubscribes(log0, removed);
    assert forall k :: k in (set x | x in removed) <==> k in gone;
  }

  class AttestationTopicSubscriber {
    var unsubscriptionSlotBySubnetId: map<int, nat>
    const committeeIndexToSubnetId: int -> int
    /** The calls made to the network so far. */
    ghost var events: seq<NetworkEvent>

    /** The map holds an entry for exactly the subnets the network is subscribed to. */
    ghost predicate Valid()
      reads this
    {
      unsubscriptionSlotBySubnetId.Keys == SubscribedSubnets(events)
    }

    constructor (committeeIndexToSubnetId: int -> int)
      ensures Valid()
      ensures this.committeeIndexToSubnetId == committeeIndexToSubnetId
      ensures unsubscriptionSlotBySubnetId == map[] && events == []
    {
      this.committeeIndexToSubnetId := committeeIndexToSubnetId;
      unsubscriptionSlotBySubnetId := map[];
      events := [];
    }

    /**
     * Subscribes on the network when the committee's subnet has no live entry,
     * then raises the subnet's unsubscription slot to at least `aggregationSlot`.
     */
    method SubscribeToCommittee(committeeIndex: int, aggregationSlot: nat)
      requires Valid()
      modifies this
      ensures Valid()
      ensures var subnetId := committeeIndexToSubnetId(committeeIndex);
        && unsubscriptionSlotBySubnetId == WithSubscription(old(unsubscriptionSlotBySubnetId), subnetId, aggregationSlot)
        && events == old(events)
                     + if NeedsNetworkSubscribe(old(unsubscriptionSlotBySubnetId), subnetId) then [Subscribe(subnetId)] else []
    {
      var subnetId := committeeIndexToSubnetId(committeeIndex);
      var currentUnsubscriptionSlot := CurrentUnsubscriptionSlot(unsubscriptionSlotBySubnetId, subnetId);
      if currentUnsubscriptionSlot == 0 {
        SubscribedSubnetsAppend(events, Subscribe(subnetId));
        events := events + [Subscribe(subnetId)];
      }
      unsubscriptionSlotBySubnetId := unsubscriptionSlotBySubnetId[subnetId := Max(currentUnsubscriptionSlot, aggregationSlot)];
    }

    /**
     * Drops every subnet whose unsubscription slot is before `slot`, with one
     * network unsubscribe for each, in no particular order, and no other call.
     */
    method OnSlot(slot: nat)
      requires Valid()
      modifies this
      ensures Valid()
      ensures unsubscriptionSlotBySubnetId == Pruned(old(unsubscriptionSlotBySubnetId), slot)
      ensures |events| == |old(events)| + |Expired(old(unsubscriptionSlotBySubnetId), slot)|
      ensures events[..|old(events)|] == old(events)
      ensures forall i :: |old(events)| <= i < |events| ==>
        events[i].Unsubscribe? && events[i].subnetId in Expired(old(unsubscriptionSlotBySubnetId), slot)
      ensures forall i, j :: |old(events)| <= i < j < |events| ==> events[i] != events[j]
      ensures forall k :: k in Expired(old(unsubscriptionSlotBySubnetId), slot) ==>
        Unsubscribe(k) in events[|old(events)|..]
    {
      ghost var before := unsubscriptionSlotBySubnetId;
      ghost var visited: set<int> := {};
      ghost var gone: set<int> := {};
      ghost var removed: seq<int> := [];
      var remaining := unsubscriptionSlotBySubnetId.Keys;
      while remaining != {}
        invariant Sweeping(before, slot, remaining, visited, gone, removed, unsubscriptionSlotBySubnetId, old(events), events)
        decreases remaining
      {
        EmptyOrHasMember(remaining);
        var subnetId :| subnetId in remaining;
        SweepStep(before, slot, remaining, visited, gone, removed, unsubscriptionSlotBySubnetId, old(events), events, subnetId);
        var expired := UnsubscribeIfExpired(subnetId, slot);
        if expired {
          removed := removed + [subnetId];
          gone := gone + {subnetId};
        }
        remaining := remaining - {subnetId};
        visited := visited + {subnetId};
      }
      SweepDone(before, slot, visited, gone, removed, unsubscriptionSlotBySubnetId, old(events), events);
    }

    /** The body of the `onSlot` loop for one entry: drops it, and unsubscribes from its subnet, when its slot is before `slot`. */
    method UnsubscribeIfExpired(subnetId: int, slot: nat) returns (expired: bool)
      requires subnetId in unsubscriptionSlotBySubnetId
      modifies this
      ensures expired == (old(unsubscriptionSlotBySubnetId)[subnetId] < slot)
      ensures unsubscriptionSlotBySubnetId
           == if expired then old(unsubscriptionSlotBySubnetId) - {subnetId} else old(unsubscriptionSlotBySubnetId)
      ensures events == if expired then old(events) + [Unsubscribe(subnetId)] else old(events)
    {
      expired := unsubscriptionSlotBySubnetId[subnetId] < slot;
      if expired {
        unsubscriptionSlotBySubnetId := unsubscriptionSlotBySubnetId - {subnetId};
        events := events + [Unsubscribe(subnetId)];
      }
    }
  }

  /** Subscribing with 10 and then 5 keeps 10, subscribes once, and `onSlot(11)` unsubscribes once. */
  method TenThenFiveThenSlotEleven(committeeIndexToSubnetId: int -> int, committeeIndex: int)
  {
    var subscriber := new AttestationTopicSubscriber(committeeIndexToSubnetId);
    var subnetId := committeeIndexToSubnetId(committeeIndex);
    subscriber.SubscribeToCommittee(committeeIndex, 10);
    subscriber.SubscribeToCommittee(committeeIndex, 5);
    assert subscriber.unsubscriptionSlotBySubnetId == map[subnetId := 10];
    assert subscriber.events == [Subscribe(subnetId)];
    subscriber.OnSlot(10);
    assert subscriber.unsubscriptionSlotBySubnetId == map[subnetId := 10];
    subscriber.OnSlot(11);
    assert Expired(map[subnetId := 10], 11) == {subnetId};
    assert subscriber.unsubscriptionSlotBySubnetId == map[];
    assert subscriber.events == [Subscribe(subnetId), Unsubscribe(subnetId)];
  }
}
