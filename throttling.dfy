// A model of ThrottlingEth1Provider: a gate in front of an Eth1 data provider
// that keeps at most `maximumConcurrentRequests` delegate calls in flight and
// admits the waiting ones in the order they were queued.
//
// Each queued request is identified by a natural number, handed out in
// submission order; that number stands for the future `queueRequest` returns.
// Starting a request stands for the delegate call; its settling (success or
// failure) is an explicit call to `DelegateCompleted`.

module Throttling {

  /** The value a settled future carries. */
  datatype Outcome<T> = Success(value: T) | Failure(reason: string)

  /** What one drain of the queue does: the requests it starts, in order, and the queue it leaves. */
  datatype DrainResult = DrainResult(admitted: seq<nat>, remaining: seq<nat>)

  function Min(a: int, b: int): int { if a <= b then a else b }

  /**
   * The drain loop, one admission at a time: while the in-flight count is below
   * the limit and the queue is not empty, count one more in flight and start the
   * head of the queue. Nothing is lost or duplicated, and admission is FIFO: the
   * started requests are a prefix of the queue and the rest stays queued.
   */
  function Drain(queue: seq<nat>, inflight: int, limit: int): (r: DrainResult)
    ensures r.admitted + r.remaining == queue
    ensures inflight >= limit ==> r.admitted == []
    decreases |queue|
  {
    if inflight < limit && queue != [] then
      var rest := Drain(queue[1..], inflight + 1, limit);
      assert [queue[0]] + rest.admitted + rest.remaining == [queue[0]] + queue[1..] == queue;
      DrainResult([queue[0]] + rest.admitted, rest.remaining)
    else
      DrainResult([], queue)
  }

  /** Exactly as many requests start as there are free slots, or as there are queued requests if fewer. */
  lemma {:induction false} DrainCount(queue: seq<nat>, inflight: int, limit: int)
    ensures |Drain(queue, inflight, limit).admitted|
         == if inflight >= limit then 0 else Min(|queue|, limit - inflight)
    decreases |queue|
  {
    if inflight < limit && queue != [] {
      DrainCount(queue[1..], inflight + 1, limit);
    }
  }

  /**
   * A drain never pushes the in-flight count past the limit, and it stops only
   * when the queue is empty or every slot is taken.
   */
  lemma DrainRespectsCapacity(queue: seq<nat>, inflight: int, limit: int)
    ensures var d := Drain(queue, inflight, limit);
      && (inflight <= limit ==> inflight + |d.admitted| <= limit)
      && (d.remaining == [] || inflight + |d.admitted| >= limit)
  {
    DrainCount(queue, inflight, limit);
  }

  /** Draining a second time, with nothing completed in between, starts nothing. */
  lemma DrainIdempotent(queue: seq<nat>, inflight: int, limit: int)
    ensures var d := Drain(queue, inflight, limit);
      Drain(d.remaining, inflight + |d.admitted|, limit) == DrainResult([], d.remaining)
  {
    DrainRespectsCapacity(queue, inflight, limit);
  }

  class ThrottlingEth1Provider<T> {
    const maximumConcurrentRequests: int
    var queuedRequests: seq<nat>
    var inflightRequestCount: int
    /** The futures that have settled so far, with their values. */
    var settled: map<nat, Outcome<T>>
    /** The identifier the next queued request will get. */
    var nextRequestId: nat

    /** Every request ever queued, in submission order. */
    ghost var submitted: seq<nat>
    /** Every request whose delegate call has been made, in the order the calls were made. */
    ghost var started: seq<nat>
    /** Started requests that have not completed. */
    ghost var running: set<nat>
    /** Started requests that have completed. */
    ghost var completed: set<nat>

    /** The bookkeeping that holds at every point, also in the middle of a drain. */
    ghost predicate Consistent()
      reads this
    {
      && 0 <= inflightRequestCount
      && (inflightRequestCount <= maximumConcurrentRequests || inflightRequestCount == 0)
      && |submitted| == nextRequestId
      && (forall i :: 0 <= i < |submitted| ==> submitted[i] == i)
      && submitted == started + queuedRequests
      && running !! completed
      && (forall id :: id in running ==> id < |started|)
      && (forall id :: id in completed ==> id < |started|)
      && (forall i :: 0 <= i < |started| ==> i in running || i in completed)
      && inflightRequestCount == |running|
      && |started| == |running| + |completed|
      && settled.Keys == completed
    }

    /** Between public calls the queue has also been drained as far as capacity allows. */
    ghost predicate Valid()
      reads this
    {
      && Consistent()
      && (queuedRequests == [] || inflightRequestCount >= maximumConcurrentRequests)
    }

    constructor (maximumConcurrentRequests: int)
      ensures Valid()
      ensures this.maximumConcurrentRequests == maximumConcurrentRequests
      ensures queuedRequests == [] && inflightRequestCount == 0 && settled == map[]
      ensures submitted == [] && started == [] && running == {} && completed == {}
    {
      this.maximumConcurrentRequests := maximumConcurrentRequests;
      queuedRequests := [];
      inflightRequestCount := 0;
      settled := map[];
      nextRequestId := 0;
      submitted := [];
      started := [];
      running := {};
      completed := {};
    }

    /**
     * Queues a request and drains. The returned identifier is new, its future has
     * not settled, and the queue is drained exactly as `Drain` says.
     */
    method QueueRequest() returns (id: nat)
      requires Valid()
      modifies this
      ensures Valid()
      ensures id == old(nextRequestId) && id !in settled
      ensures submitted == old(submitted) + [id]
      ensures var d := Drain(old(queuedRequests) + [id], old(inflightRequestCount), maximumConcurrentRequests);
        && started == old(started) + d.admitted
        && queuedRequests == d.remaining
        && inflightRequestCount == old(inflightRequestCount) + |d.admitted|
      ensures settled == old(settled) && completed == old(completed)
    {
      id := nextRequestId;
      nextRequestId := nextRequestId + 1;
      queuedRequests := queuedRequests + [id];
      submitted := submitted + [id];
      ProcessQueuedRequests();
    }

    /**
     * The delegate call of request `id` settled with `outcome`: the outcome goes
     * to the request's future, one in-flight slot is freed, and the queue is
     * drained again. When requests were waiting, exactly the oldest of them
     * takes the freed slot.
     */
    method DelegateCompleted(id: nat, outcome: Outcome<T>)
      requires Valid()
      requires id in running
      modifies this
      ensures Valid()
      ensures settled == old(settled)[id := outcome] && id !in old(settled)
      ensures completed == old(completed) + {id}
      ensures var d := Drain(old(queuedRequests), old(inflightRequestCount) - 1, maximumConcurrentRequests);
        && started == old(started) + d.admitted
        && queuedRequests == d.remaining
        && inflightRequestCount == old(inflightRequestCount) - 1 + |d.admitted|
      ensures old(queuedRequests) == [] ==> inflightRequestCount == old(inflightRequestCount) - 1
      ensures old(queuedRequests) != [] ==>
        && started == old(started) + [old(queuedRequests)[0]]
        && queuedRequests == old(queuedRequests)[1..]
        && inflightRequestCount == old(inflightRequestCount)
      ensures submitted == old(submitted)
    {
      settled := settled[id := outcome];
      running := running - {id};
      completed := completed + {id};
      inflightRequestCount := inflightRequestCount - 1;
      ghost var queue0, inflight0 := queuedRequests, inflightRequestCount;
      ProcessQueuedRequests();
      DrainCount(queue0, inflight0, maximumConcurrentRequests);
      if queue0 != [] {
        assert Drain(queue0, inflight0, maximumConcurrentRequests).admitted == [queue0[0]];
        assert queue0 == [queue0[0]] + queue0[1..];
      }
    }

    /** Starts queued requests, oldest first, while a slot is free. */
    method ProcessQueuedRequests()
      requires Consistent()
      modifies this
      ensures Valid()
      ensures var d := Drain(old(queuedRequests), old(inflightRequestCount), maximumConcurrentRequests);
        && started == old(started) + d.admitted
        && queuedRequests == d.remaining
        && inflightRequestCount == old(inflightRequestCount) + |d.admitted|
      ensures submitted == old(submitted) && completed == old(completed)
      ensures settled == old(settled) && nextRequestId == old(nextRequestId)
    {
      ghost var whole := Drain(queuedRequests, inflightRequestCount, maximumConcurrentRequests);
      ghost var admitted: seq<nat> := [];
      while inflightRequestCount < maximumConcurrentRequests && queuedRequests != []
        invariant Consistent()
        invariant whole.admitted == admitted + Drain(queuedRequests, inflightRequestCount, maximumConcurrentRequests).admitted
        invariant whole.remaining == Drain(queuedRequests, inflightRequestCount, maximumConcurrentRequests).remaining
        invariant started == old(started) + admitted
        invariant inflightRequestCount == old(inflightRequestCount) + |admitted|
        invariant submitted == old(submitted) && completed == old(completed)
        invariant settled == old(settled) && nextRequestId == old(nextRequestId)
        decreases |queuedRequests|
      {
        var id := StartOldest();
        admitted := admitted + [id];
      }
    }

    /** One step of the drain: counts one more request in flight and makes the delegate call for the head of the queue. */
    method StartOldest() returns (id: nat)
      requires Consistent()
      requires inflightRequestCount < maximumConcurrentRequests && queuedRequests != []
      modifies this
      ensures Consistent()
      ensures id == old(queuedRequests)[0] && queuedRequests == old(queuedRequests)[1..]
      ensures started == old(started) + [id] && running == old(running) + {id}
      ensures inflightRequestCount == old(inflightRequestCount) + 1
      ensures submitted == old(submitted) && completed == old(completed)
      ensures settled == old(settled) && nextRequestId == old(nextRequestId)
    {
      id := queuedRequests[0];
      assert submitted[|started|] == id;
      inflightRequestCount := inflightRequestCount + 1;
      queuedRequests := queuedRequests[1..];
      started := started + [id];
      running := running + {id};
      assert submitted == started + queuedRequests;
    }
  }

  /** With two slots and five requests: two run and the other three wait, oldest first. */
  method TwoSlotsFiveRequests()
  {
    var p := new ThrottlingEth1Provider<int>(2);
    var r0 := p.QueueRequest();
    assert [] + [r0] == [0];
    assert p.started == [0] && p.queuedRequests == [];
    var r1 := p.QueueRequest();
    assert [] + [r1] == [1];
    assert p.started == [0, 1] && p.queuedRequests == [];
    var r2 := p.QueueRequest();
    assert p.started == [0, 1] && p.queuedRequests == [2];
    var r3 := p.QueueRequest();
    assert p.started == [0, 1] && p.queuedRequests == [2, 3];
    var r4 := p.QueueRequest();
    assert p.started == [0, 1] && p.queuedRequests == [2, 3, 4];
    assert p.inflightRequestCount == 2 && p.completed == {};
    CompletionsAdmitOldestFirst(p);
  }

  /** Continuing from there: each completion, success or failure, lets exactly the oldest waiting request in. */
  method CompletionsAdmitOldestFirst(p: ThrottlingEth1Provider<int>)
    requires p.Valid() && p.maximumConcurrentRequests == 2
    requires p.started == [0, 1] && p.queuedRequests == [2, 3, 4] && p.completed == {}
    modifies p
  {
    assert 1 in p.running;
    p.DelegateCompleted(1, Failure("timeout"));
    assert p.started == [0, 1, 2] && p.queuedRequests == [3, 4];
    assert 0 in p.running;
    p.DelegateCompleted(0, Success(7));
    assert p.started == [0, 1, 2, 3] && p.queuedRequests == [4];
    assert 2 in p.running;
    p.DelegateCompleted(2, Success(8));
    assert p.started == [0, 1, 2, 3, 4] && p.queuedRequests == [];
    assert p.completed == {0, 1, 2} && p.inflightRequestCount == 2;
  }
}
