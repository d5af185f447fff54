/**
 * `Progress`: commits of a changing value, paced by the bytes each one wrote.
 *
 * Every callback of the source is one method: the write promise settling, its `finally`, the timer firing, `stop`
 * resuming. Any order of calls that meets their preconditions is a run; `Valid` holds throughout every run.
 * Times are milliseconds of a clock that never goes back.
 */
module Progress {

  const BYTES_PER_SECOND: nat := 100 * 1024

  /** A waiter of `markAndWait`, named by a number of its own. */
  type Waiter = nat

  datatype Outcome = Running | Written(bytes: nat) | Failed

  /** One started commit. */
  datatype Write = Write(started: real, outcome: Outcome)

  /** What became of a waiter. */
  datatype Fate = Waiting | Carried(write: nat) | Settled(write: nat, resolved: bool) | HandedBack

  datatype InFlight = Idle | Writing(started: real, waiters: seq<Waiter>, settled: bool)

  /** The time `bytes` take at the paced rate. */
  function Transfer(bytes: nat): real {
    bytes as real * 1000.0 / BYTES_PER_SECOND as real
  }

  /** How long a commit holds back the next one. */
  function Pause(outcome: Outcome, minInterval: real): real {
    match outcome
    case Running => 0.0
    case Written(bytes) => if minInterval > Transfer(bytes) then minInterval else Transfer(bytes)
    case Failed => minInterval
  }

  /** Commits do not overlap and keep their distance. */
  ghost predicate Paced(writes: seq<Write>, minInterval: real) {
    forall i | 0 <= i < |writes| - 1 ::
      && !writes[i].outcome.Running?
      && writes[i].started <= writes[i + 1].started
      && writes[i].started + Pause(writes[i].outcome, minInterval) <= writes[i + 1].started
  }

  function BytesWritten(writes: seq<Write>): nat {
    if writes == [] then 0 else
      BytesWritten(writes[..|writes| - 1]) +
      match writes[|writes| - 1].outcome case Written(bytes) => bytes case _ => 0
  }

  /** What all commits but the newest wrote fits the rate over the time up to its start. */
  lemma {:induction false} RateBound(writes: seq<Write>, minInterval: real)
    requires writes != [] && Paced(writes, minInterval)
    ensures Transfer(BytesWritten(writes[..|writes| - 1])) <= writes[|writes| - 1].started - writes[0].started
  {
    hide Transfer;
    var before := writes[..|writes| - 1];
    TransferNone();
    if before != [] {
      RateBound(before, minInterval);
      var last := before[|before| - 1];
      assert last == writes[|writes| - 2];
      var bytes := match last.outcome case Written(bytes) => bytes case _ => 0;
      assert BytesWritten(before) == BytesWritten(before[..|before| - 1]) + bytes;
      TransferAdds(BytesWritten(before[..|before| - 1]), bytes);
      assert last.started + Transfer(bytes) <= writes[|writes| - 1].started;
    }
  }

  /** The same in numbers: 102400 bytes a second. */
  lemma RateBoundInBytes(writes: seq<Write>, minInterval: real)
    requires writes != [] && Paced(writes, minInterval)
    ensures BytesWritten(writes[..|writes| - 1]) as real * 1000.0 <=
            (writes[|writes| - 1].started - writes[0].started) * 102400.0
  {
    RateBound(writes, minInterval);
  }

  /** Each commit is over when the next one starts, and holds it back for the interval and for what it wrote. */
  lemma KeepsDistance(writes: seq<Write>, minInterval: real, i: nat)
    requires Paced(writes, minInterval) && i + 1 < |writes|
    ensures var gap, outcome := writes[i + 1].started - writes[i].started, writes[i].outcome;
            && !outcome.Running? && 0.0 <= gap && minInterval <= gap
            && (outcome.Written? ==> outcome.bytes as real * 1000.0 <= gap * 102400.0)
  {
    assert writes[i].started + Pause(writes[i].outcome, minInterval) <= writes[i + 1].started;
  }

  /** A commit may start once the one before it is over and its pause too. */
  lemma PacedMore(writes: seq<Write>, t: real, minInterval: real)
    requires Paced(writes, minInterval)
    requires writes != [] ==>
               var last := writes[|writes| - 1];
               !last.outcome.Running? && last.started <= t && last.started + Pause(last.outcome, minInterval) <= t
    ensures Paced(writes + [Write(t, Running)], minInterval)
  {
    hide Pause;
  }

  lemma TransferNone()
    ensures Transfer(0) == 0.0
  {
  }

  lemma TransferAdds(a: nat, b: nat)
    ensures Transfer(a + b) == Transfer(a) + Transfer(b)
  {
  }

  /** Where waiter `w`, registered after `born` commits had started, stands. */
  predicate Placed(w: Waiter, fate: Fate, born: nat, waiters: seq<Waiter>, inFlight: InFlight, writes: seq<Write>,
                   stopped: bool) {
    match fate
    case Waiting => w in waiters
    // The commit that settles a waiter started after its change.
    case Carried(k) => inFlight.Writing? && !inFlight.settled && w in inFlight.waiters && born <= k == |writes| - 1
    case Settled(k, resolved) =>
      born <= k < |writes| && if resolved then writes[k].outcome.Written? else writes[k].outcome.Failed?
    case HandedBack => stopped
  }

  class Progress {
    const minInterval: real

    var waiters: seq<Waiter>
    var timer: bool
    var inFlight: InFlight
    var nextAt: real
    var dirty: bool
    var stopped: bool

    /** How many waiters were ever registered; the next one's number. */
    var issued: nat
    /** The newest reading of the clock. */
    ghost var now: real
    /** Every commit started so far. */
    ghost var writes: seq<Write>
    /** Every waiter ever registered; its number is its index. */
    ghost var fates: seq<Fate>
    /** How many commits had started when each waiter was registered. */
    ghost var born: seq<nat>

    ghost predicate Valid()
      reads this
    {
      && Pacing()
      && Fates()
      // No change is forgotten: until stopped, a timer or the commit in flight picks it up.
      && (dirty && !stopped ==> timer || inFlight.Writing?)
      && (waiters != [] ==> dirty)
    }

    ghost predicate Pacing()
      reads this`writes, this`inFlight, this`nextAt, this`now
    {
      && Paced(writes, minInterval)
      && (inFlight == Idle || inFlight.settled ==> nextAt == NextAt())
      && (inFlight.Writing? ==>
           writes != [] && inFlight.started == Last().started && (Last().outcome.Running? <==> !inFlight.settled))
      && (inFlight == Idle && writes != [] ==> !Last().outcome.Running?)
      && (writes != [] ==> Last().started <= now)
    }

    ghost function Last(): Write
      requires writes != []
      reads this`writes
    {
      writes[|writes| - 1]
    }

    ghost function NextAt(): real
      reads this`writes
    {
      if writes == [] then 0.0 else Last().started + Pause(Last().outcome, minInterval)
    }

    /** A waiter waits in `waiters`, rides on the commit in flight, or is done with. */
    ghost predicate Fates()
      reads this`writes, this`inFlight, this`waiters, this`fates, this`born, this`issued, this`stopped
    {
      && |born| == |fates| == issued
      && (forall i, j | 0 <= i < j < |waiters| :: waiters[i] != waiters[j])
      && (forall w | w in waiters :: w < |fates| && fates[w] == Waiting)
      && (forall w | 0 <= w < |fates| :: born[w] <= |writes|)
      && (forall w | 0 <= w < |fates| :: Placed(w, fates[w], born[w], waiters, inFlight, writes, stopped))
      && (inFlight.Writing? && !inFlight.settled ==>
            forall w | w in inFlight.waiters :: w < |fates| && fates[w].Carried?)
    }

    /** Nothing that happened is undone: a waiter is settled or handed back once. */
    twostate predicate Onward()
      reads this
    {
      && old(now) <= now
      && |old(writes)| <= |writes|
      && (forall i | 0 <= i < |old(writes)| ::
            && writes[i].started == old(writes)[i].started
            && (old(writes)[i].outcome.Running? || writes[i] == old(writes)[i]))
      && |old(fates)| <= |fates|
      && (forall w | 0 <= w < |old(fates)| :: Follows(old(fates)[w], fates[w]))
    }

    constructor (minInterval: real)
      ensures Valid() && !stopped && writes == [] && fates == [] && !timer && inFlight == Idle && !dirty
      ensures this.minInterval == minInterval
    {
      this.minInterval := minInterval;
      waiters, timer, inFlight, nextAt, dirty, stopped := [], false, Idle, 0.0, false, false;
      issued := 0;
      now, writes, fates, born := 0.0, [], [], [];
    }

    /** Everything `Valid` says but that a change is picked up. */
    ghost predicate Consistent()
      reads this
    {
      Pacing() && Fates() && (waiters != [] ==> dirty)
    }

    /** A commit starts at `t` and takes every waiter along. */
    twostate predicate Commits(t: real)
      reads this
    {
      && writes == old(writes) + [Write(t, Running)]
      && inFlight == Writing(t, old(waiters), false)
      && waiters == [] && !dirty
      && fates == Carry(old(fates), |old(writes)|)
    }

    twostate predicate NoCommit()
      reads this
    {
      && writes == old(writes) && inFlight == old(inFlight) && waiters == old(waiters) && dirty == old(dirty)
      && fates == old(fates)
    }

    /** Schedule a commit; `t` and `t'` are the two readings of the clock. */
    method Mark(t: real, t': real)
      requires Valid() && now <= t <= t'
      modifies this
      ensures Valid() && Onward() && stopped == old(stopped) && born == old(born)
      ensures if !stopped && !old(timer) && old(inFlight) == Idle && old(nextAt) <= t then Commits(t')
              else
                && writes == old(writes) && inFlight == old(inFlight) && waiters == old(waiters) && fates == old(fates)
                && dirty
      ensures timer == (old(timer) || (!stopped && old(inFlight) == Idle && old(nextAt) > t))
    {
      dirty := true;
      Schedule(t, t');
    }

    /** Schedule a commit and register a waiter for it. */
    method MarkAndWait(t: real, t': real) returns (w: Waiter)
      requires Valid() && now <= t <= t'
      modifies this
      ensures Valid() && Onward() && stopped == old(stopped)
      ensures w == |old(fates)| && |fates| == w + 1 && born == old(born) + [|old(writes)|]
      ensures if !stopped && !old(timer) && old(inFlight) == Idle && old(nextAt) <= t then
                && fates[w] == Carried(|old(writes)|) && writes == old(writes) + [Write(t', Running)]
                && inFlight == Writing(t', old(waiters) + [w], false) && waiters == [] && !dirty
              else
                && fates == old(fates) + [Waiting] && writes == old(writes) && inFlight == old(inFlight)
                && waiters == old(waiters) + [w] && dirty
      ensures timer == (old(timer) || (!stopped && old(inFlight) == Idle && old(nextAt) > t))
    {
      w := Register();
      dirty := true;
      Schedule(t, t');
    }

    /** A new waiter waits. */
    method Register() returns (w: Waiter)
      requires Valid()
      modifies this`issued, this`waiters, this`fates, this`born
      ensures Pacing() && Fates() && w == |old(fates)|
      ensures fates == old(fates) + [Waiting] && born == old(born) + [|writes|] && waiters == old(waiters) + [w]
    {
      w := issued;
      issued := issued + 1;
      assert forall i | 0 <= i < |waiters| :: waiters[i] in waiters;
      fates, born := fates + [Waiting], born + [|writes|];
      waiters := waiters + [w];
    }

    method Schedule(t: real, t': real)
      requires Consistent() && now <= t <= t'
      modifies this`now, this`timer, this`dirty, this`waiters, this`inFlight, this`writes, this`fates
      ensures Valid() && now == t'
      ensures var idle := !stopped && !old(timer) && old(inFlight) == Idle;
              && timer == (old(timer) || (idle && nextAt > t))
              && if idle && nextAt <= t && old(dirty) then Commits(t') else NoCommit()
    {
      hide Progress.Pacing, Progress.Fates;
      Tick(t);
      if stopped || timer || inFlight != Idle {
        Tick(t');
        return;
      }
      var wait := nextAt - t;
      if wait <= 0.0 {
        Flush(t');
      } else {
        timer := true;
        Tick(t');
      }
    }

    /** The clock is read. */
    method Tick(t: real)
      requires Pacing() && now <= t
      modifies this`now
      ensures Pacing() && now == t
    {
      hide Paced, Pause;
      now := t;
    }

    method Flush(t: real)
      requires Consistent() && now <= t && inFlight == Idle && nextAt <= t
      modifies this`now, this`dirty, this`waiters, this`inFlight, this`writes, this`fates
      ensures Consistent() && now == t
      ensures if !stopped && old(dirty) then Commits(t) else NoCommit()
    {
      if stopped || !dirty {
        now := t;
      } else {
        Commit(t);
      }
    }

    /** The commit takes every waiter along. */
    method Commit(t: real)
      requires Consistent() && now <= t && inFlight == Idle && nextAt <= t
      modifies this`now, this`dirty, this`waiters, this`inFlight, this`writes, this`fates
      ensures Consistent() && now == t && Commits(t)
    {
      PacedMore(writes, t, minInterval);
      hide Paced, Pause;
      now := t;
      dirty := false;
      inFlight := Writing(t, waiters, false);
      waiters := [];
      fates := Carry(fates, |writes|);
      writes := writes + [Write(t, Running)];
    }

    /** The timer fires, early or late: the clock is checked again. */
    method TimerFires(t: real, t': real)
      requires Valid() && timer && now <= t <= t'
      modifies this
      ensures Valid() && Onward() && stopped == old(stopped) && born == old(born)
      ensures if !stopped && old(inFlight) == Idle && old(nextAt) <= t && old(dirty) then Commits(t') else NoCommit()
      ensures timer == (!stopped && old(inFlight) == Idle && old(nextAt) > t)
    {
      timer := false;
      Schedule(t, t');
    }

    /** The commit in flight wrote `bytes`. */
    method WriteSucceeds(bytes: nat)
      requires Valid() && inFlight.Writing? && !inFlight.settled
      modifies this`nextAt, this`inFlight, this`writes, this`fates
      ensures Valid() && Onward()
      ensures writes == old(writes)[|old(writes)| - 1 := Write(old(Last()).started, Written(bytes))]
      ensures forall w | w in old(inFlight.waiters) :: fates[w] == Settled(|writes| - 1, true)
      ensures inFlight == old(inFlight).(settled := true)
      // The next commit waits for the interval and for what this one wrote.
      ensures var paced := bytes as real * 1000.0 / 102400.0;
              nextAt == old(inFlight.started) + if minInterval > paced then minInterval else paced
    {
      SettleWrite(Written(bytes));
    }

    /** The commit in flight failed. */
    method WriteFails()
      requires Valid() && inFlight.Writing? && !inFlight.settled
      modifies this`nextAt, this`inFlight, this`writes, this`fates
      ensures Valid() && Onward()
      ensures writes == old(writes)[|old(writes)| - 1 := Write(old(Last()).started, Failed)]
      ensures forall w | w in old(inFlight.waiters) :: fates[w] == Settled(|writes| - 1, false)
      ensures inFlight == old(inFlight).(settled := true) && nextAt == old(inFlight.started) + minInterval
    {
      SettleWrite(Failed);
    }

    method SettleWrite(outcome: Outcome)
      requires Valid() && inFlight.Writing? && !inFlight.settled && !outcome.Running?
      modifies this`nextAt, this`inFlight, this`writes, this`fates
      ensures Valid() && Onward()
      ensures writes == old(writes)[|old(writes)| - 1 := Write(old(Last()).started, outcome)]
      ensures forall w | w in old(inFlight.waiters) :: fates[w] == Settled(|writes| - 1, outcome.Written?)
      ensures inFlight == old(inFlight).(settled := true)
      ensures nextAt == old(inFlight.started) + Pause(outcome, minInterval)
    {
      var started := inFlight.started;
      nextAt := started + Pause(outcome, minInterval);
      fates := Settle(fates, outcome.Written?);
      writes := writes[|writes| - 1 := Write(started, outcome)];
      inFlight := inFlight.(settled := true);
    }

    /** The `finally` of the commit: changes made meanwhile start the next one. */
    method WriteFinally(t: real, t': real)
      requires Valid() && inFlight.Writing? && inFlight.settled && now <= t <= t'
      modifies this
      ensures Valid() && Onward() && stopped == old(stopped) && born == old(born)
      ensures if !stopped && !old(timer) && old(nextAt) <= t && old(dirty) then Commits(t')
              else
                && inFlight == Idle && writes == old(writes) && waiters == old(waiters) && fates == old(fates)
                && dirty == old(dirty)
      ensures timer == (old(timer) || (!stopped && old(dirty) && old(nextAt) > t))
    {
      inFlight := Idle;
      if dirty {
        Schedule(t, t');
      }
    }

    /** `stop` up to its wait for the commit in flight. */
    method Stop()
      requires Valid()
      modifies this`stopped, this`timer
      ensures Valid() && Onward() && stopped && !timer
    {
      stopped := true;
      timer := false;
    }

    /** `stop` after the wait: the waiters no commit took go to the caller. */
    method StopReturns() returns (rest: seq<Waiter>)
      requires Valid() && stopped && inFlight == Idle
      modifies this`waiters, this`fates
      ensures Valid() && Onward()
      ensures rest == old(waiters) && waiters == []
      ensures forall w | 0 <= w < |fates| :: fates[w].Settled? || fates[w] == HandedBack
      ensures forall w | 0 <= w < |fates| :: old(fates[w]) == Waiting <==> w in rest
    {
      rest := waiters;
      waiters := [];
      fates := HandBack(fates);
    }
  }

  /** Every waiting waiter goes back to the caller of `stop`. */
  ghost function HandBack(fates: seq<Fate>): (r: seq<Fate>)
    ensures |r| == |fates|
    ensures forall w | 0 <= w < |fates| :: r[w] == if fates[w].Waiting? then HandedBack else fates[w]
  {
    seq(|fates|, w requires 0 <= w < |fates| => if fates[w].Waiting? then HandedBack else fates[w])
  }

  /** Every waiting waiter rides on commit `k`. */
  ghost function Carry(fates: seq<Fate>, k: nat): (r: seq<Fate>)
    ensures |r| == |fates|
    ensures forall w | 0 <= w < |fates| :: r[w] == if fates[w].Waiting? then Carried(k) else fates[w]
  {
    seq(|fates|, w requires 0 <= w < |fates| => if fates[w].Waiting? then Carried(k) else fates[w])
  }

  /** Every carried waiter is settled by the commit that carries it. */
  ghost function Settle(fates: seq<Fate>, resolved: bool): (r: seq<Fate>)
    ensures |r| == |fates|
    ensures forall w | 0 <= w < |fates| ::
              r[w] == if fates[w].Carried? then Settled(fates[w].write, resolved) else fates[w]
  {
    seq(|fates|, w requires 0 <= w < |fates| =>
          if fates[w].Carried? then Settled(fates[w].write, resolved) else fates[w])
  }

  /** The steps a waiter may take. */
  predicate Follows(before: Fate, after: Fate) {
    || before == after
    || before.Waiting?
    || (before.Carried? && after.Settled? && after.write == before.write)
  }
}
