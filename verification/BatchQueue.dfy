/** The engine core's stepping with a queue of batches in flight. */
module BatchQueue {

  /** What the scheduler returns: which batch it is, how many tokens it schedules, and whether the
      batch still waits for structured-output tokens of an earlier step. */
  datatype Batch = Batch(id: nat, tokens: nat, pendingStructured: bool)

  datatype StepResult =
    | Nothing(executed: bool)
    | Output(batch: Batch, executed: bool)
    | QueueEmpty
    | ModelFailed(batch: Batch)

  function Reversed(s: seq<Batch>): (r: seq<Batch>)
    ensures |r| == |s|
  {
    if |s| == 0 then [] else [s[|s| - 1]] + Reversed(s[..|s| - 1])
  }

  lemma {:induction false} ReversedOfFront(x: Batch, s: seq<Batch>)
    ensures Reversed([x] + s) == Reversed(s) + [x]
  {
    var t := [x] + s;
    if |s| > 0 {
      assert t[..|t| - 1] == [x] + s[..|s| - 1];
      ReversedOfFront(x, s[..|s| - 1]);
    } else {
      assert t[..0] == [];
      assert Reversed(t) == [x];
    }
  }

  class EngineCore {
    /** Front: the newest batch; back: the oldest. */
    var queue: seq<Batch>
    const capacity: nat
    const isEcConsumer: bool
    const isPoolingModel: bool
    /** Every batch scheduled, every batch whose output has reached the scheduler, and every batch
        handed to the sampler, in order. */
    var scheduled: seq<Batch>
    var updated: seq<Batch>
    var sampled: seq<Batch>

    /** Nothing scheduled is lost or overtaken: what has been processed and what is in flight is
        what has been scheduled. */
    ghost predicate Valid()
      reads this
    {
      1 < capacity && |queue| < capacity && scheduled == updated + Reversed(queue)
    }

    constructor (capacity: nat, isEcConsumer: bool, isPoolingModel: bool)
      requires capacity > 1
      ensures Valid() && queue == scheduled == updated == sampled == []
      ensures this.capacity == capacity && this.isEcConsumer == isEcConsumer
      ensures this.isPoolingModel == isPoolingModel
    {
      this.capacity, this.isEcConsumer, this.isPoolingModel := capacity, isEcConsumer, isPoolingModel;
      queue, scheduled, updated, sampled := [], [], [], [];
    }

    /** A bounded deque makes room by dropping its back element without a word. */
    method AppendLeft(b: Batch)
      modifies this`queue
      ensures queue == if |old(queue)| < capacity then [b] + old(queue) else ([b] + old(queue))[..capacity]
    {
      var q := [b] + queue;
      queue := if |q| > capacity then q[..capacity] else q;
    }

    /** One call of step_with_batch_queue. `next` is what the scheduler returns if it has requests,
        `more` whether it has requests after that, and `completes` whether the batch that is waited
        for delivers a model output. */
    method StepWithBatchQueue(hasRequests: bool, next: Batch, more: bool, completes: bool)
      returns (res: StepResult)
      requires Valid()
      modifies this`queue, this`scheduled, this`updated, this`sampled
      ensures scheduled == old(scheduled) + if hasRequests then [next] else []
      // Without a failure nothing is lost, and the queue has room again.
      ensures !res.QueueEmpty? && !res.ModelFailed? ==> Valid()
      // At most one batch is processed, and it is the oldest one in flight.
      ensures updated == old(updated) + if res.Output? then [res.batch] else []
      ensures res.Output? || res.ModelFailed? ==>
                |old(updated)| < |scheduled| && res.batch == scheduled[|old(updated)|]
      // A batch with tokens runs the model; its sampling is deferred while structured output is pending. The
      // queue is popped empty exactly when that happens with nothing in flight.
      ensures res.QueueEmpty? <==>
                && hasRequests && isEcConsumer && next.tokens > 0 && !isPoolingModel && next.pendingStructured
                && old(queue) == []
      ensures res.ModelFailed? ==> !completes
      ensures res.Output? ==> completes
      // Something is processed unless the queue may still grow or there is nothing to wait for.
      ensures res.Nothing? <==>
                || (!hasRequests && old(queue) == [])
                || (hasRequests && !Defers(next) && |old(queue)| + 1 < capacity
                    && ((isEcConsumer && next.tokens > 0) || more))
      ensures res.Nothing? || res.Output? ==> res.executed == (hasRequests && isEcConsumer && next.tokens > 0)
      // It is sampled once, a deferred one only after an older one is processed.
      ensures sampled == old(sampled) +
                if hasRequests && isEcConsumer && next.tokens > 0 && !isPoolingModel
                   && (next.pendingStructured ==> res.Output?) then [next] else []
    {
      var early, executed, deferred := ScheduleNext(hasRequests, next, more);
      if early {
        return Nothing(executed);
      }
      res := FinishOldest(if deferred then [next] else [], executed, completes);
    }

    /** What has been processed, is in flight or waits to be sampled is what has been scheduled. */
    ghost predicate InOrder(deferred: seq<Batch>)
      reads this
    {
      scheduled == updated + Reversed(queue) + deferred
    }

    /** The first half: schedule a batch, and say whether the call returns at once. */
    method ScheduleNext(hasRequests: bool, next: Batch, more: bool)
      returns (early: bool, executed: bool, deferred: bool)
      requires Valid()
      modifies this`queue, this`scheduled, this`sampled
      ensures scheduled == old(scheduled) + if hasRequests then [next] else []
      ensures executed == (hasRequests && isEcConsumer && next.tokens > 0)
      ensures deferred == (executed && !isPoolingModel && next.pendingStructured)
      ensures InOrder(if deferred then [next] else [])
      ensures queue == if hasRequests && !deferred then [next] + old(queue) else old(queue)
      ensures |queue| <= capacity && (deferred || early ==> |queue| < capacity)
      ensures early <==>
                || (!hasRequests && old(queue) == [])
                || (hasRequests && !deferred && |old(queue)| + 1 < capacity && (executed || more))
      ensures sampled == old(sampled) +
                if executed && !isPoolingModel && !deferred then [next] else []
    {
      executed := false;
      deferred := false;
      early := false;
      if hasRequests {
        scheduled := scheduled + [next];
        if isEcConsumer {
          executed := next.tokens > 0;
        }
        if !(isPoolingModel || !executed) {
          if !next.pendingStructured {
            sampled := sampled + [next];
          } else {
            deferred := true;
          }
        }
        if !deferred {
          AppendLeft(next);
          ReversedOfFront(next, old(queue));
          if |queue| < capacity && (executed || more) {
            early := true;
          }
        }
      } else if queue == [] {
        early := true;
      }
    }

    /** The second half: wait for the oldest batch, process its output and sample the deferred one. */
    method FinishOldest(deferred: seq<Batch>, executed: bool, completes: bool) returns (res: StepResult)
      requires InOrder(deferred) && |deferred| <= 1 && |queue| <= capacity
      requires deferred != [] ==> |queue| < capacity
      requires capacity > 1
      modifies this`queue, this`updated, this`sampled
      ensures if old(queue) == [] then res == QueueEmpty
              else if completes then res == Output(old(queue)[|old(queue)| - 1], executed)
              else res == ModelFailed(old(queue)[|old(queue)| - 1])
      ensures updated == old(updated) + if res.Output? then [res.batch] else []
      ensures sampled == old(sampled) + if res.Output? then deferred else []
      ensures res.Output? ==> InOrder([]) && |queue| < capacity
      ensures res.Output? || res.ModelFailed? ==>
                |old(updated)| < |scheduled| && res.batch == scheduled[|old(updated)|]
    {
      if queue == [] {
        return QueueEmpty;
      }
      var batch := queue[|queue| - 1];
      ghost var waiting := queue;
      queue := queue[..|queue| - 1];
      assert Reversed(waiting) == [batch] + Reversed(queue);
      if !completes {
        return ModelFailed(batch);
      }
      updated := updated + [batch];
      assert updated + Reversed(queue) == old(updated) + Reversed(waiting);
      if deferred != [] {
        sampled := sampled + deferred;
        ghost var rest := queue;
        AppendLeft(deferred[0]);
        assert queue == [deferred[0]] + rest;
        ReversedOfFront(deferred[0], rest);
        assert deferred == [deferred[0]];
      }
      res := Output(batch, executed);
    }

    predicate Defers(b: Batch) {
      isEcConsumer && b.tokens > 0 && !isPoolingModel && b.pendingStructured
    }
  }

  datatype Call = Call(hasRequests: bool, next: Batch, more: bool, completes: bool)

  function Outputs(results: seq<StepResult>): seq<Batch> {
    if |results| == 0 then []
    else Outputs(results[..|results| - 1])
         + if results[|results| - 1].Output? then [results[|results| - 1].batch] else []
  }

  function Scheduled(calls: seq<Call>): seq<Batch> {
    if |calls| == 0 then []
    else Scheduled(calls[..|calls| - 1]) + if calls[|calls| - 1].hasRequests then [calls[|calls| - 1].next] else []
  }

  /** The batches that are to be sampled, in order. */
  function ToSample(calls: seq<Call>, isEcConsumer: bool, isPoolingModel: bool): seq<Batch> {
    if |calls| == 0 then []
    else
      var c := calls[|calls| - 1];
      ToSample(calls[..|calls| - 1], isEcConsumer, isPoolingModel)
      + if c.hasRequests && isEcConsumer && c.next.tokens > 0 && !isPoolingModel then [c.next] else []
  }

  /** Over any run, the batches reach the scheduler exactly once each and in the order in which they
      were scheduled, deferred ones included; the others are still in flight. Every batch with tokens is
      sampled once and in that order. The run ends early only by a failed model or by a deferred batch with
      nothing in flight. */
  method RunSteps(capacity: nat, isEcConsumer: bool, isPoolingModel: bool, calls: seq<Call>)
    returns (results: seq<StepResult>, inFlight: seq<Batch>, sampled: seq<Batch>)
    requires capacity > 1
    ensures |results| <= |calls| && |inFlight| < capacity
    ensures |results| == |calls| ==> Scheduled(calls) == Outputs(results) + Reversed(inFlight)
    ensures Outputs(results) <= Scheduled(calls[..|results|])
    ensures sampled == ToSample(calls[..|results|], isEcConsumer, isPoolingModel)
    ensures |results| < |calls| ==>
              var c := calls[|results|];
              || !c.completes
              || (c.hasRequests && isEcConsumer && c.next.tokens > 0 && !isPoolingModel && c.next.pendingStructured
                  && Outputs(results) == Scheduled(calls[..|results|]))
  {
    var core := new EngineCore(capacity, isEcConsumer, isPoolingModel);
    results, sampled := [], [];
    for i := 0 to |calls|
      invariant core.Valid() && core.capacity == capacity && |results| == i
      invariant core.isEcConsumer == isEcConsumer && core.isPoolingModel == isPoolingModel
      invariant core.scheduled == Scheduled(calls[..i]) && core.updated == Outputs(results)
      invariant sampled == core.sampled == ToSample(calls[..i], isEcConsumer, isPoolingModel)
    {
      var c := calls[i];
      ghost var queued := core.queue;
      var res := core.StepWithBatchQueue(c.hasRequests, c.next, c.more, c.completes);
      if res.QueueEmpty? || res.ModelFailed? {
        inFlight := [];
        assert Outputs(results) + Reversed(queued) == Scheduled(calls[..i]);
        return;
      }
      assert calls[..i + 1][..i] == calls[..i];
      assert (results + [res])[..i] == results;
      results := results + [res];
      sampled := core.sampled;
    }
    assert calls[..|calls|] == calls;
    inFlight := core.queue;
  }
}
