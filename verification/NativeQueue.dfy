/**
 * The pending values of a `NativeWatch`: an array of values and contexts read from an index, which refines a plain
 * queue of at most 100 values that collapses to one on overflow.
 */
module NativeQueue {

  type Context = nat
  type Error = nat

  const MAX_PENDING: nat := 100

  datatype Option<+T> = None | Some(value: T)

  datatype Slot<+T> = Taken | Value(value: T) | Frame(context: Context)

  datatype Call<+T> = NewValue(value: T) | Failed(error: Error)

  /** Each value that waits has two slots, its context in the second. */
  ghost predicate Slots<T>(pending: seq<Slot<T>>, head: nat, waiting: seq<(T, Context)>)
    requires |pending| == head + 2 * |waiting|
  {
    forall i | 0 <= i < |waiting| :: SlotsOf(pending, head + 2 * i, waiting[i])
  }

  ghost predicate SlotsOf<T>(pending: seq<Slot<T>>, at: nat, w: (T, Context))
    requires at + 2 <= |pending|
  {
    pending[at] == Slot.Value(w.0) && pending[at + 1] == Frame(w.1)
  }

  lemma SlotsMore<T>(pending: seq<Slot<T>>, head: nat, waiting: seq<(T, Context)>, w: (T, Context))
    requires |pending| == head + 2 * |waiting| && Slots(pending, head, waiting)
    ensures Slots(pending + [Slot.Value(w.0), Frame(w.1)], head, waiting + [w])
  {
    var after := pending + [Slot.Value(w.0), Frame(w.1)];
    forall i | 0 <= i < |waiting| + 1 ensures SlotsOf(after, head + 2 * i, (waiting + [w])[i]) {
      assert i < |waiting| ==> SlotsOf(pending, head + 2 * i, waiting[i]);
    }
  }

  lemma SlotsNone<T>()
    ensures Slots<T>([], 0, [])
  {
  }

  /** The slots of the values after the first, read from another index */
  lemma SlotsLess<T>(pending: seq<Slot<T>>, head: nat, waiting: seq<(T, Context)>, after: seq<Slot<T>>, head': nat)
    requires |pending| == head + 2 * |waiting| && Slots(pending, head, waiting) && waiting != []
    requires |after| == head' + 2 * (|waiting| - 1) && after[head'..] == pending[head + 2..]
    ensures Slots(after, head', waiting[1..])
  {
    forall i | 0 <= i < |waiting| - 1 ensures SlotsOf(after, head' + 2 * i, waiting[1..][i]) {
      assert SlotsOf(pending, head + 2 * (i + 1), waiting[i + 1]);
      assert after[head' + 2 * i] == after[head'..][2 * i] == pending[head + 2..][2 * i];
      assert after[head' + 2 * i + 1] == after[head'..][2 * i + 1] == pending[head + 2..][2 * i + 1];
    }
  }

  class NativeQueue<T> {
    var pending: seq<Slot<T>>
    var head: nat
    var failure: Option<Error>
    var failureContext: Option<Context>

    /** The values waiting, each with its frame's context. */
    ghost var waiting: seq<(T, Context)>

    ghost predicate Valid()
      reads this
    {
      && |waiting| <= MAX_PENDING
      && |pending| == head + 2 * |waiting|
      && |pending| < 4 * MAX_PENDING
      && (waiting == [] ==> head == 0)
      && head <= 2 * MAX_PENDING - 2 && head % 2 == 0
      && (forall i | 0 <= i < head :: pending[i] == Taken)
      && Slots(pending, head, waiting)
      && (failure.Some? <==> failureContext.Some?)
      // Nothing but a failure is pending next to it.
      && (failure.Some? ==> waiting == [])
    }

    constructor ()
      ensures Valid() && waiting == [] && failure.None?
    {
      pending, head, failure, failureContext, waiting := [], 0, None, None, [];
    }

    /** Queue `value`; `replacement` is what the watch's own replacement callback gives, if it has one. */
    method Advance(value: T, context: Context, replacement: Option<T>)
      requires Valid()
      modifies this
      ensures Valid() && failure.None?
      ensures waiting ==
              if |old(waiting)| < 100 then old(waiting) + [(value, context)]
              else [(if replacement.Some? then replacement.value else value, context)]
      ensures |pending| < 400
    {
      hide Slots;
      failure := None;
      failureContext := None;
      SlotsMore(pending, head, waiting, (value, context));
      SlotsNone<T>();
      if |pending| - head < 2 * MAX_PENDING {
        pending := pending + [Slot.Value(value), Frame(context)];
        waiting := waiting + [(value, context)];
      } else {
        var kept := if replacement.None? then value else replacement.value;
        pending := [];
        head := 0;
        SlotsMore(pending, head, [], (kept, context));
        pending := pending + [Slot.Value(kept), Frame(context)];
        waiting := [] + [(kept, context)];
      }
    }

    /** Queue a failure; the pending values are dropped. */
    method Fail(error: Error, context: Context)
      requires Valid()
      modifies this
      ensures Valid() && waiting == [] && failure == Some(error) && failureContext == Some(context)
    {
      pending := [];
      head := 0;
      failure, failureContext := Some(error), Some(context);
      waiting := [];
    }

    /** The context of the next call, or none when nothing is pending. */
    function PendingContext(): (context: Option<Context>)
      requires Valid()
      reads this
      ensures context.None? <==> failure.None? && waiting == []
      ensures failure.None? && waiting != [] ==> context == Some(waiting[0].1)
      ensures failure.Some? ==> context == failureContext
    {
      if failureContext.Some? then failureContext
      else if head + 1 < |pending| then Some(Waiting(0).context)
      else None
    }

    function Waiting(i: nat): (slot: Slot<T>)
      requires Valid() && head + 2 * i + 1 < |pending|
      reads this
      ensures i < |waiting| && slot == Frame(waiting[i].1)
    {
      assert SlotsOf(pending, head + 2 * i, waiting[i]);
      pending[head + 2 * i + 1]
    }

    /** Take the next call: the failure, or the oldest value. */
    method Next() returns (call: Call<T>)
      requires Valid() && (failure.Some? || waiting != [])
      modifies this
      ensures Valid() && failure.None?
      ensures if old(failure).Some? then call == Failed(old(failure).value) && waiting == []
              else call == NewValue(old(waiting)[0].0) && waiting == old(waiting)[1..]
    {
      if failure.Some? {
        call := Failed(failure.value);
        failure, failureContext := None, None;
        return;
      }
      assert SlotsOf(pending, head + 2 * 0, waiting[0]);
      call := NewValue(pending[head].value);
      DropFirst();
    }

    /** The oldest value is taken. */
    method DropFirst()
      requires Valid() && failure.None? && waiting != []
      modifies this`pending, this`head, this`waiting
      ensures Valid() && waiting == old(waiting)[1..]
    {
      hide Slots;
      ghost var before, head0 := pending, head;
      if head + 2 == |pending| {
        pending := [];
        head := 0;
      } else if head + 2 >= 2 * MAX_PENDING {
        // Half of the array or more was taken already: cut it off.
        pending := pending[head + 2..];
        head := 0;
      } else {
        pending := pending[head := Taken][head + 1 := Taken];
        head := head + 2;
      }
      SlotsLess(before, head0, waiting, pending, head);
      waiting := waiting[1..];
    }

    /** The watch ended: nothing is pending any more. */
    method Release()
      modifies this
      ensures Valid() && waiting == [] && failure.None?
    {
      pending, head, failure, failureContext, waiting := [], 0, None, None, [];
    }
  }
}
