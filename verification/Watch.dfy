/**
 * `Watch`: one slow listener observing a changing JSON value, one call at a time.
 *
 * Whatever runs between two awaits of the source is one method here; any order of calls that meets the
 * preconditions interleaves source, listener and owner. The source promises only that a value's operations turn its
 * previous value into it, unless it failed in between. `seen` is what a consumer holds that applies each delivered
 * call's operations to what it held before.
 */
module Watch {
  import opened Delta
  import opened Pending

  /** A frame's context, and an error, are only passed on. */
  type Context = nat
  type Error = nat

  datatype Call = Value(value: Json, ops: seq<Op>, retired: bool) | Failed(error: Error)

  datatype End = Stopped | Aborted | Ended | ListenerError(error: Error) | SourceFailed(error: Error)

  /** What is pending for the listener of a JSON watch: the fields `Watch` adds to the lifecycle. */
  class WatchQueue {
    const ops: PendingOps
    /** The frame that waits when there is one only, as the source gave it. */
    var lone: Option<Call>
    var newestValue: Option<Json>
    var newestContext: Option<Context>
    var retired: bool
    var failure: Option<Error>
    /** The next value has to start over. */
    var replace: bool

    /** What a consumer of the operations handed over so far holds. */
    ghost var seen: Json
    /** The last value taken from the source, and whether a failure followed it. */
    ghost var source: Json
    ghost var sourceFails: bool
    /** What happened since the last value call. */
    ghost var retiredSince: bool
    ghost var failedSince: bool

    ghost predicate Valid()
      reads this, ops
    {
      && ops.Valid()
      && retired == retiredSince && replace == failedSince
      && if replace then AfterFailure() else Following()
    }

    /** No failure since the last value call: the pending operations lead to the source's value. */
    ghost predicate Following()
      reads this, ops
    {
      && !sourceFails && failure.None?
      && Run(seen, ops.received) == Some(source)
      && (newestContext.Some? <==> newestValue.Some?)
      && (newestContext.None? ==> ops.received == [] && lone.None? && !retired)
      && (newestValue.Some? ==> newestValue.value == source)
      && (lone.Some? ==> newestValue.Some? && lone.value == Value(source, ops.received, retired))
    }

    /** A failure since the last value call: nothing but it, or the newest value after it, is pending. */
    ghost predicate AfterFailure()
      reads this, ops
    {
      && lone.None? && ops.received == []
      && (newestContext.Some? <==> newestValue.Some? || failure.Some?)
      && !(newestValue.Some? && failure.Some?)
      && (newestValue.Some? ==> newestValue.value == source)
      && (sourceFails <==> newestValue.None?)
    }

    constructor (value: Json)
      ensures Valid() && fresh(ops)
      ensures seen == source == value && newestContext.None? && !sourceFails && !retiredSince && !failedSince
    {
      ops := new PendingOps();
      lone, newestValue, newestContext, retired, failure, replace := None, None, None, false, None, false;
      source, seen, sourceFails, retiredSince, failedSince := value, value, false, false, false;
    }

    /** Queue the source's frame. Its operations turn the source's previous value into it. */
    method Advance(call: Call, context: Context)
      requires Valid() && call.Value?
      requires !sourceFails ==> Run(source, call.ops) == Some(call.value)
      modifies this, ops
      ensures Valid() && newestContext == Some(context)
      ensures seen == old(seen) && source == call.value && !sourceFails
      ensures retiredSince == (old(retiredSince) || call.retired) && failedSince == old(failedSince)
      // A frame that waits alone is kept as the source gave it.
      ensures lone == if old(newestContext).None? && !old(replace) then Some(call) else None
    {
      assert !replace ==> !sourceFails;
      hide Run, Means, Indexed, PendingOps.Valid, WatchQueue.Valid;
      if replace {
        AdvanceReplacing(call, context);
      } else {
        AdvanceQueued(call, context);
      }
    }

    /** After a failure only the newest value counts. */
    method AdvanceReplacing(call: Call, context: Context)
      requires Valid() && call.Value? && replace
      modifies this
      ensures Valid() && newestContext == Some(context)
      ensures seen == old(seen) && source == call.value && !sourceFails
      ensures retiredSince == (old(retiredSince) || call.retired) && failedSince == old(failedSince)
      ensures lone.None?
    {
      hide Run, Means, Indexed, PendingOps.Valid;
      failure := None;
      Note(call, context);
    }

    method AdvanceQueued(call: Call, context: Context)
      requires Valid() && call.Value? && !replace && Run(source, call.ops) == Some(call.value)
      modifies this, ops
      ensures Valid() && newestContext == Some(context)
      ensures seen == old(seen) && source == call.value && !sourceFails
      ensures retiredSince == (old(retiredSince) || call.retired) && failedSince == old(failedSince)
      ensures lone == if old(newestContext).None? then Some(call) else None
    {
      hide Run, Means, Indexed, PendingOps.Valid;
      QueueOps(call);
      Note(call, context);
    }

    method Note(call: Call, context: Context)
      requires call.Value?
      modifies this`newestValue, this`newestContext, this`retired, this`source, this`sourceFails, this`retiredSince
      ensures newestValue == Some(call.value) && newestContext == Some(context)
      ensures retired == (old(retired) || call.retired) && retiredSince == (old(retiredSince) || call.retired)
      ensures source == call.value && !sourceFails
    {
      newestValue := Some(call.value);
      newestContext := Some(context);
      if call.retired {
        retired := true;
      }
      source, sourceFails, retiredSince := call.value, false, retiredSince || call.retired;
    }

    /** The operations wait; a call that is alone is kept as it is. */
    method QueueOps(call: Call)
      requires ops.Valid() && call.Value? && (newestContext.None? ==> ops.received == [])
      modifies this`lone, ops
      ensures ops.Valid() && ops.received == old(ops.received) + call.ops
      ensures forall v, w | Run(v, old(ops.received)) == Some(w) :: Run(v, ops.received) == Run(w, call.ops)
      ensures lone == if newestContext.None? then Some(call) else None
      ensures newestContext.None? ==> ops.received == call.ops
    {
      hide Run, Means, Indexed, PendingOps.Valid;
      forall v, w | Run(v, ops.received) == Some(w) ensures Run(v, ops.received + call.ops) == Run(w, call.ops) {
        RunConcat(v, ops.received, call.ops);
      }
      lone := if newestContext.None? then Some(call) else None;
      ops.Push(call.ops);
    }

    /** Remember a failure in place of the frames that wait; values may follow it. */
    method Fail(error: Error, context: Context)
      requires Valid()
      modifies this, ops
      ensures Valid() && newestContext == Some(context)
      ensures seen == old(seen) && source == old(source) && sourceFails && failure == Some(error)
      ensures retiredSince == old(retiredSince) && failedSince
    {
      hide Run, Means, Indexed, PendingOps.Valid;
      var dropped := ops.Take();
      lone := None;
      newestValue := None;
      failure := Some(error);
      newestContext := Some(context);
      replace := true;
      failedSince, sourceFails := true, true;
    }

    /** Take the next call. */
    method Next() returns (call: Call)
      requires Valid() && newestContext.Some?
      modifies this, ops
      ensures Valid() && newestContext.None? && source == old(source) && sourceFails == old(sourceFails)
      ensures Delivers(old(seen), call, old(failure), old(retiredSince), old(failedSince))
      ensures old(lone).Some? ==> call == old(lone).value
    {
      hide Run, Means, Indexed, PendingOps.Valid;
      if replace {
        call := NextAfterFailure();
      } else {
        call := NextOfQueue();
      }
    }

    /** `call` continues what a consumer held before it, `base`. */
    ghost predicate Delivers(base: Json, call: Call, failed: Option<Error>, gone: bool, interrupted: bool)
      reads this
    {
      match call
      case Failed(error) =>
        failed == Some(error) && seen == base && retiredSince == gone && failedSince == interrupted
      case Value(newest, changes, retired) =>
        && failed.None? && seen == newest == source
        && Run(base, changes) == Some(newest)
        // A retirement since the last value call is reported, and only then.
        && retired == gone && !retiredSince && !failedSince && !sourceFails
        // The first value after a failure is a root replacement.
        && (interrupted ==> changes == [Replace(newest)])
    }

    method NextOfQueue() returns (call: Call)
      requires Valid() && newestContext.Some? && !replace
      modifies this, ops
      ensures Valid() && newestContext.None? && source == old(source) && !sourceFails
      ensures Delivers(old(seen), call, None, old(retiredSince), false) && call.Value?
      ensures old(lone).Some? ==> call == old(lone).value
    {
      hide Run, Means, Indexed, PendingOps.Valid;
      var only := lone;
      var newest := newestValue.value;
      var batch := ops.Take();
      var gone := retired;
      lone, newestValue, newestContext, retired := None, None, None, false;
      if only.Some? {
        call := only.value;
      } else {
        call := Value(newest, if batch.Ops? then batch.ops else [Replace(newest)], gone);
      }
      RunReplace(seen, newest);
      RunNothing(newest);
      seen, retiredSince := newest, false;
    }

    /** The next call once a failure was queued. */
    method NextAfterFailure() returns (call: Call)
      requires Valid() && newestContext.Some? && replace
      modifies this
      ensures Valid() && newestContext.None? && source == old(source) && sourceFails == old(sourceFails)
      ensures Delivers(old(seen), call, old(failure), old(retiredSince), true)
    {
      hide Means, Indexed, PendingOps.Valid;
      newestContext := None;
      if failure.Some? {
        call := Failed(failure.value);
        failure := None;
        return;
      }
      var newest := newestValue.value;
      var gone := retired;
      newestValue, retired, replace := None, false, false;
      call := Value(newest, [Replace(newest)], gone);
      RunReplace(seen, newest);
      RunNothing(newest);
      seen, retiredSince, failedSince := newest, false, false;
    }

    /** Drop everything pending: the watch ended. */
    method Release()
      modifies this, ops
      requires Valid()
      ensures Released() && seen == old(seen) && source == old(source) && sourceFails == old(sourceFails)
    {
      hide Means, Indexed, PendingOps.Valid;
      var dropped := ops.Take();
      lone, newestValue, newestContext, retired, failure, replace := None, None, None, false, None, false;
    }

    ghost predicate Released()
      reads this, ops
    {
      && ops.received == [] && lone.None? && newestValue.None? && newestContext.None? && failure.None?
      && !retired && !replace
    }
  }

  /** What a consumer holds that applies each value call's operations; `None` when that is not the call's value. */
  function Consume(v: Json, calls: seq<Call>): Option<Json> {
    if calls == [] then Some(v) else
      match (Consume(v, calls[..|calls| - 1]), calls[|calls| - 1])
      case (None, _) => None
      case (before, Failed(_)) => before
      case (Some(before), Value(newest, changes, _)) =>
        if Run(before, changes) == Some(newest) then Some(newest) else None
  }

  lemma ConsumeMore(v: Json, calls: seq<Call>, call: Call, before: Json)
    requires Consume(v, calls) == Some(before)
    requires call.Value? ==> Run(before, call.ops) == Some(call.value)
    ensures Consume(v, calls + [call]) == Some(if call.Value? then call.value else before)
  {
    assert (calls + [call])[..|calls|] == calls;
  }

  /** What the listener is called with: the call, and the context of the newest frame it covers. */
  datatype Delivery = Delivery(call: Call, context: Context)

  /** The lifecycle: serialized delivery and termination. */
  class Watch {
    const queue: WatchQueue

    var attached: bool
    var value: Json
    var listening: bool
    var started: bool
    var scheduled: bool
    /** A listener call has started and not returned. */
    var running: bool
    var ending: bool
    var end: Option<End>

    /** The value at acquisition. */
    ghost const initial: Json
    /** Every call the listener got. */
    ghost var delivered: seq<Call>
    /** How often the source was detached, and what `closed` was settled with. */
    ghost var detached: nat
    ghost var closed: seq<End>

    ghost predicate Valid()
      reads this, queue, queue.ops
    {
      && Lifecycle()
      && (if end.Some? then queue.Released() else queue.Valid())
      && value == queue.seen
      && Consume(initial, delivered) == Some(value)
      // No wake-up is lost: what is pending is picked up, and an ending watch has something left to deliver.
      && (started && end.None? && queue.newestContext.Some? ==> scheduled || running)
      && (ending && end.None? ==> queue.newestContext.Some? || running)
    }

    ghost predicate Lifecycle()
      reads this
    {
      // The watch detaches and settles `closed` once, with its end.
      && (attached <==> end.None?)
      && detached == (if end.None? then 0 else 1)
      && closed == (match end case None => [] case Some(e) => [e])
      && (listening <==> started && end.None?)
      && (running ==> started)
    }

    predicate Open()
      reads this
    {
      end.None? && !ending
    }

    /**
     * Every step goes on from the one before: an end is kept, what `closed` was settled with and what the listener got
     * are not taken back, and a watch stays started and ending.
     */
    twostate predicate Onward()
      reads this
    {
      && (old(end).Some? ==> end == old(end) && detached == old(detached) && closed == old(closed))
      && old(detached) <= detached && old(closed) <= closed && old(delivered) <= delivered
      && (old(end).Some? ==> delivered == old(delivered))
      && (old(started) ==> started) && (old(ending) ==> ending)
    }

    /** What a step that is neither a delivery nor an end leaves alone. */
    twostate predicate Quiet()
      reads this
    {
      delivered == old(delivered) && end == old(end) && running == old(running) && value == old(value)
    }

    constructor (value: Json)
      ensures Valid() && fresh(queue) && fresh(queue.ops) && !scheduled && !running && queue.newestContext.None?
      ensures this.value == queue.source == value && delivered == [] && Open() && !started
    {
      queue := new WatchQueue(value);
      this.value, initial := value, value;
      attached, listening, started, scheduled, running, ending, end := true, false, false, false, false, false, None;
      delivered, detached, closed := [], 0, [];
    }

    /** Install the listener; false where the source throws. */
    method Start() returns (ok: bool)
      requires Valid()
      modifies this
      ensures Valid() && Onward() && Quiet() && ending == old(ending)
      ensures ok <==> !old(started) && end.None?
      ensures if ok then started && scheduled else started == old(started)
    {
      if started || end.Some? {
        return false;
      }
      started, listening := true, true;
      Schedule();
      return true;
    }

    method Schedule()
      modifies this`scheduled
      ensures scheduled == (old(scheduled) || (!running && end.None?))
    {
      if scheduled || running || end.Some? {
        return;
      }
      scheduled := true;
    }

    /** Schedule a drain if the listener is there and idle. */
    method NowPending()
      modifies this`scheduled
      ensures scheduled == (old(scheduled) || (started && !running && end.None?))
    {
      if started {
        Schedule();
      }
    }

    /** Queue the source's frame; a watch that ended, or whose source did, takes none. */
    method Advance(call: Call, context: Context)
      requires Valid() && call.Value?
      requires Open() && !queue.sourceFails ==> Run(queue.source, call.ops) == Some(call.value)
      modifies this`scheduled, queue, queue.ops
      ensures Valid() && Onward()
      ensures queue.source == if Open() then call.value else old(queue.source)
      ensures Open() ==> !queue.sourceFails && queue.newestContext == Some(context)
      ensures Open() ==> queue.retiredSince == (old(queue.retiredSince) || call.retired)
      ensures Open() ==> queue.failedSince == old(queue.failedSince)
      ensures Open() && old(queue.newestContext).None? && !old(queue.replace) ==> queue.lone == Some(call)
      ensures !Open() ==> unchanged(queue) && unchanged(queue.ops)
    {
      hide Run, Means, Indexed, PendingOps.Valid;
      if !Open() {
        return;
      }
      queue.Advance(call, context);
      NowPending();
    }

    /** The source failed for now: its listener is told. */
    method Fail(error: Error, context: Context)
      requires Valid()
      modifies this`scheduled, queue, queue.ops
      ensures Valid() && Onward()
      ensures Open() ==> queue.failure == Some(error) && queue.newestContext == Some(context)
      ensures Open() ==> queue.source == old(queue.source) && queue.sourceFails && queue.failedSince
      ensures Open() ==> queue.retiredSince == old(queue.retiredSince)
      ensures !Open() ==> unchanged(queue) && unchanged(queue.ops)
    {
      hide Run, Means, Indexed, PendingOps.Valid;
      if !Open() {
        return;
      }
      queue.Fail(error, context);
      NowPending();
    }

    /** The owner stops the watch, its context aborts, or its source closes or fails for good. */
    method Terminate(e: End)
      requires Lifecycle() && (end.Some? ==> queue.Released()) && (end.None? ==> queue.Valid()) && value == queue.seen
      requires Consume(initial, delivered) == Some(value)
      modifies this`attached, this`listening, this`end, this`detached, this`closed, queue, queue.ops
      ensures Valid() && Onward() && delivered == old(delivered)
      ensures end == if old(end).None? then Some(e) else old(end)
      ensures queue.source == old(queue.source) && queue.sourceFails == old(queue.sourceFails)
    {
      hide Run, Means, Indexed, PendingOps.Valid, WatchQueue.Valid;
      if end.Some? {
        return;
      }
      end := Some(e);
      attached, listening := false, false;
      queue.Release();
      detached := detached + 1;
      closed := closed + [e];
    }

    /** Nothing follows any more: the watch ends once what waits was delivered. */
    method EndAfterDelivery()
      requires Valid()
      modifies this`ending, this`attached, this`listening, this`end, this`detached, this`closed, queue, queue.ops
      ensures Valid() && Onward() && delivered == old(delivered)
      ensures ending == (old(ending) || old(end).None?)
      ensures end == if old(Open()) && !running && old(queue.newestContext).None? then Some(Ended) else old(end)
      ensures end == old(end) ==> unchanged(queue) && unchanged(queue.ops)
    {
      if end.Some? || ending {
        return;
      }
      ending := true;
      if !running && queue.newestContext.None? {
        Terminate(Ended);
      }
    }

    /** The scheduled microtask: start draining unless a call runs or the watch ended. */
    method Microtask() returns (next: Option<Delivery>)
      requires Valid() && scheduled
      modifies this, queue, queue.ops
      ensures Valid() && Onward() && Drains(next) && !scheduled && started == old(started) && ending == old(ending)
      ensures next.Some? <==> started && !old(running) && old(end).None? && old(queue.newestContext).Some?
      ensures running == (old(running) || next.Some?)
      ensures end == if started && ending && !old(running) && old(end).None? && old(queue.newestContext).None? then
                       Some(Ended)
                     else old(end)
    {
      scheduled := false;
      if running || end.Some? || !started {
        return None;
      }
      running := true;
      next := Drain();
    }

    /** The listener returned: deliver what arrived meanwhile. */
    method ListenerReturns() returns (next: Option<Delivery>)
      requires Valid() && running
      modifies this, queue, queue.ops
      ensures Valid() && Onward() && Drains(next)
      ensures scheduled == old(scheduled) && started == old(started) && ending == old(ending)
      ensures next.Some? <==> old(end).None? && old(queue.newestContext).Some?
      ensures running <==> next.Some?
      ensures end == if old(end).None? && old(queue.newestContext).None? && ending then Some(Ended) else old(end)
    {
      next := Drain();
    }

    /** The listener threw or rejected. */
    method ListenerThrows(error: Error)
      requires Valid() && running
      modifies this, queue, queue.ops
      ensures Valid() && Onward() && delivered == old(delivered) && value == old(value) && !running
      ensures scheduled == old(scheduled) && started == old(started) && ending == old(ending)
      ensures end == if old(end).None? then Some(ListenerError(error)) else old(end)
    {
      if end.None? {
        Terminate(ListenerError(error));
      }
      running := false;
    }

    /** At most one call starts; it continues what a consumer held. */
    twostate predicate Drains(new next: Option<Delivery>)
      reads this, queue
    {
      && queue.source == old(queue.source) && queue.sourceFails == old(queue.sourceFails)
      && match next
         case Some(d) =>
           && delivered == old(delivered) + [d.call] && old(queue.newestContext) == Some(d.context)
           && running && old(end).None? && end.None?
           && value == (if d.call.Value? then d.call.value else old(value))
           && queue.Delivers(old(queue.seen), d.call, old(queue.failure), old(queue.retiredSince),
                             old(queue.failedSince))
           && (old(queue.lone).Some? ==> d.call == old(queue.lone).value)
           && queue.newestContext.None?
         case None =>
           && delivered == old(delivered) && value == old(value)
           // A watch ends by itself only once it delivered everything.
           && (end == old(end) || (end == Some(Ended) && ending && old(queue.newestContext).None?))
    }

    /** One turn of the drain loop, up to the next listener call or out of the loop. */
    method Drain() returns (next: Option<Delivery>)
      requires Lifecycle() && (if end.Some? then queue.Released() else queue.Valid()) && value == queue.seen
      requires running && started && Consume(initial, delivered) == Some(value)
      modifies this, queue, queue.ops
      ensures Valid() && Onward() && Drains(next) && scheduled == old(scheduled) && ending == old(ending)
      ensures running <==> next.Some?
      ensures next.None? <==> old(end).Some? || old(queue.newestContext).None?
      ensures started
      ensures end == if old(end).None? && old(queue.newestContext).None? && ending then Some(Ended) else old(end)
    {
      hide Run, Means, Indexed, PendingOps.Valid, WatchQueue.Valid, Consume;
      if end.Some? || !listening {
        running := false;
        return None;
      }
      if queue.newestContext.None? {
        if ending {
          Terminate(Ended);
        }
        running := false;
        return None;
      }
      var context := queue.newestContext.value;
      var c := queue.Next();
      if c.Value? {
        value := c.value;
      }
      ConsumeMore(initial, delivered, c, old(value));
      delivered := delivered + [c];
      return Some(Delivery(c, context));
    }
  }

  lemma RunReplace(v: Json, value: Json)
    ensures Run(v, [Replace(value)]) == Some(value)
  {
    RunFirst(v, Replace(value), []);
    assert [Replace(value)] + [] == [Replace(value)];
  }

  lemma RunNothing(v: Json)
    ensures Run(v, []) == Some(v)
  {
  }
}
