/**
 * What a run of the agent loop asks of its host: queues, hooks, the provider's stream, the tools and the abort signal.
 *
 * The host answers arbitrarily, and its own methods log every answer. `Count` reads off the log what a run was to do.
 */
module AgentHost {
  import opened ToolState
  import opened AgentTrace

  datatype Decision = Continue | End

  datatype Context = Context(messages: seq<Message>, tools: seq<Tool>)

  datatype Snapshot = Snapshot(context: Option<Context>, messages: seq<Message>)

  datatype StreamEvent = Start(partial: Message) | Delta(partial: Message) | Finish

  /** A tool call's outcome, immediate or after it ran. */
  datatype Outcome = Outcome(call: ToolCall, terminate: bool, isError: bool, body: nat)

  /** A call that is answered at once, or is to run. */
  datatype Preparation = Immediate(outcome: Outcome) | Prepared(call: ToolCall)

  /** What the host was asked, with its answer. */
  datatype Asked =
    | Steering(messages: seq<Message>)
    | FollowUp(messages: seq<Message>)
    | NextTurn(snapshot: Snapshot)
    | RequestUpdate(replacement: Option<Context>)
    | Streamed(context: Context, stream: seq<StreamEvent>, answer: Message)
    | Ran(outcome: Outcome)
    | TurnFinished(decision: Option<Decision>)

  class Host {
    /** Tool calls are to run one after the other. */
    const sequential: bool
    /** The tool that has this name must run alone. */
    const runsAlone: (seq<Tool>, string) -> bool
    /** Once aborted, a run stays so. */
    var aborted: bool
    ghost var log: seq<Asked>
    /** How many calls were prepared although the run had been aborted. */
    ghost var late: nat

    constructor (sequential: bool, runsAlone: (seq<Tool>, string) -> bool)
      ensures log == [] && late == 0 && !aborted && this.sequential == sequential && this.runsAlone == runsAlone
    {
      this.sequential, this.runsAlone := sequential, runsAlone;
      aborted, log, late := false, [], 0;
    }

    method Poll() returns (now: bool)
      modifies this`aborted
      ensures now == aborted && (old(aborted) ==> aborted)
    {
      var abort: bool := *;
      aborted := aborted || abort;
      return aborted;
    }

    method GetSteeringMessages() returns (messages: seq<Message>)
      modifies this`log
      ensures log == old(log) + [Steering(messages)]
    {
      messages := *;
      log := log + [Steering(messages)];
    }

    method GetFollowUpMessages() returns (messages: seq<Message>)
      modifies this`log
      ensures log == old(log) + [FollowUp(messages)]
    {
      messages := *;
      log := log + [FollowUp(messages)];
    }

    method PrepareNextTurn() returns (snapshot: Snapshot)
      modifies this`log
      ensures log == old(log) + [NextTurn(snapshot)]
    {
      snapshot := *;
      log := log + [NextTurn(snapshot)];
    }

    method PrepareRequest() returns (replacement: Option<Context>)
      modifies this`log
      ensures log == old(log) + [RequestUpdate(replacement)]
    {
      replacement := *;
      log := log + [RequestUpdate(replacement)];
    }

    method FinishTurn() returns (decision: Option<Decision>)
      modifies this`log
      ensures log == old(log) + [TurnFinished(decision)]
    {
      decision := *;
      log := log + [TurnFinished(decision)];
    }

    /** The provider's stream starts its message at most once; the answer is an assistant message. */
    method Stream(context: Context) returns (events: seq<StreamEvent>, answer: Message)
      modifies this`log
      ensures log == old(log) + [Streamed(context, events, answer)] && answer.Assistant?
      ensures forall i, j | 0 <= i < j < |events| :: !(events[i].Start? && events[j].Start?)
    {
      events := *;
      var i := 0;
      var started := false;
      while i < |events|
        invariant 0 <= i <= |events|
        invariant started <==> exists k :: 0 <= k < i && events[k].Start?
        invariant forall i', j | 0 <= i' < j < i :: !(events[i'].Start? && events[j].Start?)
      {
        if events[i].Start? && started {
          events := events[..i];
          break;
        }
        started := started || events[i].Start?;
        i := i + 1;
      }
      var body, stopReason, calls, hasError := *, *, *, *;
      answer := Assistant(body, stopReason, calls, hasError);
      log := log + [Streamed(context, events, answer)];
    }

    /** A tool runs, and what the hooks make of its result. */
    method Execute(call: ToolCall) returns (outcome: Outcome)
      modifies this`log
      ensures log == old(log) + [Ran(outcome)] && outcome.call == call
    {
      var terminate, isError, body := *, *, *;
      outcome := Outcome(call, terminate, isError, body);
      log := log + [Ran(outcome)];
    }

    /**
     * Lookup, validation and the hook before a call: it is rejected with an error, or is to run. Only a hook that
     * blocks the call can ask for the end, and nothing is to run once the run was aborted.
     */
    method PrepareToolCall(call: ToolCall)
      returns (preparation: Preparation, ghost invalid: bool, ghost rejected: bool)
      modifies this
      ensures preparation.Prepared? <==> !invalid && !aborted && !rejected
      ensures preparation.Immediate? && preparation.outcome.terminate ==> !invalid && rejected
      ensures if preparation.Immediate? then preparation.outcome.call == call && preparation.outcome.isError
              else preparation.call == call
      ensures log == old(log) + if preparation.Immediate? then [Ran(preparation.outcome)] else []
      ensures aborted && preparation.Immediate? ==> !preparation.outcome.terminate
      ensures aborted ==> preparation.Immediate?
      ensures old(aborted) ==> aborted && preparation.Immediate? && !preparation.outcome.terminate
      ensures late == old(late) + if old(aborted) then 1 else 0
    {
      late := late + if aborted then 1 else 0;
      // An unknown tool, invalid arguments, or a hook that throws.
      var failed: bool, text: nat := *, *;
      invalid := failed;
      var now := false;
      if !failed {
        now := Poll();
      }
      // The hook blocks the call.
      var blocked: bool, terminate: bool := *, *;
      rejected := blocked;
      if !failed && !now && !blocked {
        preparation := Prepared(call);
        return;
      }
      var outcome := Outcome(call, !failed && !now && blocked && terminate, true, text);
      log := log + [Ran(outcome)];
      preparation := Immediate(outcome);
    }
  }

  function Rans(outcomes: seq<Outcome>): (r: seq<Asked>)
    ensures |r| == |outcomes| && forall i | 0 <= i < |r| :: r[i] == Ran(outcomes[i])
  {
    seq(|outcomes|, i requires 0 <= i < |outcomes| => Ran(outcomes[i]))
  }

  // ---------------------------------------------------------------- what the log says of a run

  /**
   * One provider request and what followed it: the prompts before the first one of a run, the messages handed over for
   * it, the context a hook gave before or after they were taken, the context it was made with, the stream and the
   * answer, the outcomes of the calls in the order they ended, the decision of the hook at the end, and whether
   * messages were queued by then.
   */
  datatype Exchange = Exchange(prompts: Option<seq<Message>>, inputs: seq<Message>, base: Option<Context>,
                               replacement: Option<Context>, context: Context, stream: seq<StreamEvent>,
                               answer: Message, outcomes: seq<Outcome>, decision: Option<Decision>, queued: bool)

  // ---------------------------------------------------------------- what follows a turn

  predicate ShouldTerminateToolBatch(outcomes: seq<Outcome>) {
    |outcomes| > 0 && forall o | o in outcomes :: o.terminate
  }

  predicate Refused(answer: Message) {
    answer.Assistant? && answer.stopReason in {Error, Aborted}
  }

  /** The run ends with this turn, whatever waits. */
  predicate Stops(x: Exchange) {
    Refused(x.answer) || x.decision == Some(Decision.End)
  }

  /** The model is to see the results of its calls, unless all of them ran and ask for the end. */
  predicate AsksMore(x: Exchange) {
    && x.answer.Assistant? && x.answer.calls != []
    && (x.answer.stopReason == Length || !ShouldTerminateToolBatch(x.outcomes))
  }

  /** Another turn follows. */
  predicate GoesOn(x: Exchange) {
    !Stops(x) && (AsksMore(x) || x.decision == Some(Decision.Continue) || x.queued)
  }

  /** The turn asks for nothing and nothing was queued, so that follow-ups may be taken. */
  predicate Rests(x: Exchange) {
    !Stops(x) && !AsksMore(x) && !x.queued
  }

  // ---------------------------------------------------------------- the order of the questions

  /** What the host was asked last; `Wrong` once it was asked out of order. `waiting`: messages were queued before. */
  datatype Stage =
    | Unasked
    | Steered
    | Preparing(waiting: bool)
    | Updated
    | Answering
    | Ending
    | Polled
    | FollowedUp
    | Wrong

  /** The requests so far, and what was handed over and given since the last one, after the prompts before the first. */
  datatype Tally = Tally(exchanges: seq<Exchange>, prompts: Option<seq<Message>>, handed: seq<Message>,
                         base: Option<Context>, replacement: Option<Context>, stage: Stage)
  {
    function Last(): Exchange
      requires exchanges != []
    {
      exchanges[|exchanges| - 1]
    }

    /** Another turn may be prepared: a mere continuation only after follow-ups were asked for. */
    predicate MayGoOn() {
      && exchanges != [] && !Stops(Last())
      && (AsksMore(Last()) || Last().queued || (stage.FollowedUp? && Last().decision == Some(Decision.Continue)))
    }

    function WithLast(x: Exchange): Tally
      requires exchanges != []
    {
      this.(exchanges := exchanges[|exchanges| - 1 := x])
    }

    function MoreOutcomes(outcomes: seq<Outcome>): Tally
      requires exchanges != []
    {
      WithLast(Last().(outcomes := Last().outcomes + outcomes))
    }
  }

  /**
   * The order of the questions. Steering is asked for before the first request and once after each turn that does not
   * stop the run; follow-ups only after it, when the turn rests; and the next turn is prepared when one is to follow,
   * with steering meanwhile exactly if nothing was queued before. Then come the update of the request, its answer, its
   * tools and the hook at its end.
   */
  function StageAfter(t: Tally, a: Asked): Stage {
    match (t.stage, a)
    case (Unasked, Steering(_)) => Steered
    case (Steered, RequestUpdate(_)) => Updated
    case (Preparing(waiting), Steering(_)) => if waiting then Wrong else Steered
    case (Preparing(waiting), RequestUpdate(_)) => if waiting then Updated else Wrong
    case (Updated, Streamed(_, _, _)) => Answering
    case (Answering, Ran(_)) => Answering
    case (Answering, TurnFinished(_)) => Ending
    case (Ending, Steering(_)) => if t.exchanges != [] && !Stops(t.Last()) then Polled else Wrong
    case (Polled, FollowUp(_)) => if t.exchanges != [] && Rests(t.Last()) then FollowedUp else Wrong
    case (Polled, NextTurn(_)) => if t.MayGoOn() then Preparing(t.handed != []) else Wrong
    case (FollowedUp, NextTurn(_)) => if t.MayGoOn() then Preparing(t.handed != []) else Wrong
    case _ => Wrong
  }

  function Ask(t: Tally, a: Asked): Tally {
    Take(t, a).(stage := StageAfter(t, a))
  }

  function Take(t: Tally, a: Asked): Tally {
    match a
    case Steering(messages) => HandOver(t, messages)
    case FollowUp(messages) => HandOver(t, messages)
    // What a hook prepares goes before what the queues handed over.
    case NextTurn(snapshot) => t.(handed := snapshot.messages + t.handed, base := snapshot.context)
    case RequestUpdate(replacement) => t.(replacement := replacement)
    case Streamed(context, stream, answer) =>
      var x := Exchange(t.prompts, t.handed, t.base, t.replacement, context, stream, answer, [], None, false);
      Tally(t.exchanges + [x], None, [], None, None, t.stage)
    case Ran(outcome) =>
      if t.exchanges == [] then t else t.WithLast(t.Last().(outcomes := t.Last().outcomes + [outcome]))
    case TurnFinished(decision) => if t.exchanges == [] then t else t.WithLast(t.Last().(decision := decision))
  }

  function HandOver(t: Tally, messages: seq<Message>): Tally {
    var t' := t.(handed := t.handed + messages);
    if messages == [] || t.stage.Preparing? || t.exchanges == [] then t' else t'.WithLast(t.Last().(queued := true))
  }

  /** A run that begins with `prompts`, if it has any */
  function Count(log: seq<Asked>, prompts: Option<seq<Message>>): Tally {
    if log == [] then Tally([], prompts, [], None, None, Unasked)
    else Ask(Count(log[..|log| - 1], prompts), log[|log| - 1])
  }

  lemma CountNext(log: seq<Asked>, a: Asked, prompts: Option<seq<Message>>)
    ensures Count(log + [a], prompts) == Ask(Count(log, prompts), a)
  {
    assert (log + [a])[..|log|] == log;
  }

  lemma MoreOutcomesNone(t: Tally)
    requires t.exchanges != []
    ensures t.MoreOutcomes([]) == t
  {
    assert t.Last().outcomes + [] == t.Last().outcomes;
  }

  lemma MoreOutcomesNext(t: Tally, outcomes: seq<Outcome>, o: Outcome)
    requires t.exchanges != [] && t.stage.Answering?
    ensures t.MoreOutcomes(outcomes).exchanges != []
    ensures Ask(t.MoreOutcomes(outcomes), Ran(o)) == t.MoreOutcomes(outcomes + [o])
  {
    assert t.Last().outcomes + outcomes + [o] == t.Last().outcomes + (outcomes + [o]);
  }

  lemma {:induction false} CountRans(log: seq<Asked>, outcomes: seq<Outcome>, prompts: Option<seq<Message>>)
    requires Count(log, prompts).exchanges != [] && Count(log, prompts).stage.Answering?
    ensures Count(log + Rans(outcomes), prompts) == Count(log, prompts).MoreOutcomes(outcomes)
  {
    hide Count, Ask, Tally.MoreOutcomes;
    if outcomes == [] {
      assert log + Rans(outcomes) == log;
      MoreOutcomesNone(Count(log, prompts));
    } else {
      var n := |outcomes| - 1;
      CountRans(log, outcomes[..n], prompts);
      CountNext(log + Rans(outcomes[..n]), Ran(outcomes[n]), prompts);
      MoreOutcomesNext(Count(log, prompts), outcomes[..n], outcomes[n]);
      assert log + Rans(outcomes) == log + Rans(outcomes[..n]) + [Ran(outcomes[n])];
      assert outcomes == outcomes[..n] + [outcomes[n]];
    }
  }

  // ---------------------------------------------------------------- how a log is read

  /** What the host ran, in order */
  function RanIn(log: seq<Asked>): seq<Outcome> {
    if log == [] then [] else
      var before, a := RanIn(log[..|log| - 1]), log[|log| - 1];
      if a.Ran? then before + [a.outcome] else before
  }

  /** What the queues handed over, in order */
  function QueuedIn(log: seq<Asked>): seq<Message> {
    if log == [] then [] else
      var before, a := QueuedIn(log[..|log| - 1]), log[|log| - 1];
      if a.Steering? || a.FollowUp? then before + a.messages else before
  }

  /** A queue handed something over before the next turn was prepared. */
  ghost predicate AnyQueued(log: seq<Asked>) {
    exists k :: 0 <= k < |log| && (log[k].Steering? || log[k].FollowUp?) && log[k].messages != []
                && forall j | 0 <= j < k :: !log[j].NextTurn?
  }

  /** A request and what the host was asked after it, up to the next */
  ghost predicate ReadsAs(t: Tally, x: Exchange, rest: seq<Asked>) {
    && x.outcomes == RanIn(rest) && (x.queued <==> AnyQueued(rest))
    && (forall d | d in rest && d.TurnFinished? :: x.decision == d.decision)
    && ((forall d | d in rest :: !d.TurnFinished?) ==> x.decision.None?)
    && (t.stage.Answering? ==> forall d | d in rest :: !d.TurnFinished?)
    && if t.stage.Preparing? || t.stage.Steered? || t.stage.Updated? then exists k :: Prepares(t, rest, k)
       else
         && t.stage in {Answering, Ending, Polled, FollowedUp} && (forall d | d in rest :: !d.NextTurn?)
         && t.handed == QueuedIn(rest) && t.base.None?
  }

  /** The hook prepares a turn once: its messages go first, its context is the base. */
  ghost predicate Prepares(t: Tally, rest: seq<Asked>, k: int) {
    && 0 <= k < |rest| && rest[k].NextTurn? && (forall j | 0 <= j < |rest| && rest[j].NextTurn? :: j == k)
    && t.handed == rest[k].snapshot.messages + (QueuedIn(rest[..k]) + QueuedIn(rest[k + 1..]))
    && t.base == rest[k].snapshot.context
    && (t.stage.Preparing? ==> k == |rest| - 1)
  }

  /**
   * The last request of a log whose questions are in order: it was made with what was handed over before it, and its
   * outcomes, its decision and what was queued are those of the log after it.
   */
  lemma {:induction false} RequestReads(before: seq<Asked>, context: Context, stream: seq<StreamEvent>, answer: Message,
                                        rest: seq<Asked>, prompts: Option<seq<Message>>)
    requires forall a | a in rest :: !a.Streamed?
    requires !Count(before + [Streamed(context, stream, answer)] + rest, prompts).stage.Wrong?
    ensures var t0, t := Count(before, prompts), Count(before + [Streamed(context, stream, answer)] + rest, prompts);
            && |t.exchanges| == |t0.exchanges| + 1 && t.exchanges[..|t0.exchanges|] == t0.exchanges
            && t.prompts.None? && ReadsAs(t, t.Last(), rest)
            && t.Last().prompts == t0.prompts && t.Last().inputs == t0.handed && t.Last().base == t0.base
            && t.Last().replacement == t0.replacement && t.Last().context == context
            && t.Last().stream == stream && t.Last().answer == answer
  {
    hide Count, ReadsAs;
    var asked := Streamed(context, stream, answer);
    if rest == [] {
      assert before + [asked] + rest == before + [asked];
      CountNext(before, asked, prompts);
      var t := Count(before + [asked], prompts);
      NothingAfter(t, t.Last());
    } else {
      var n := |rest| - 1;
      assert before + [asked] + rest == before + [asked] + rest[..n] + [rest[n]];
      CountNext(before + [asked] + rest[..n], rest[n], prompts);
      RequestReads(before, context, stream, answer, rest[..n], prompts);
      var t := Count(before + [asked] + rest[..n], prompts);
      ReadsMore(t, rest[..n], rest[n]);
      assert rest == rest[..n] + [rest[n]];
    }
  }

  lemma NothingAfter(t: Tally, x: Exchange)
    requires x.outcomes == [] && !x.queued && x.decision.None? && t.handed == [] && t.base.None? && t.stage.Answering?
    ensures ReadsAs(t, x, [])
  {
  }

  lemma AnyQueuedMore(rest: seq<Asked>, a: Asked)
    ensures AnyQueued(rest + [a]) <==>
            || AnyQueued(rest)
            || ((a.Steering? || a.FollowUp?) && a.messages != [] && forall d | d in rest :: !d.NextTurn?)
  {
    var all := rest + [a];
    if k :| 0 <= k < |rest| && (rest[k].Steering? || rest[k].FollowUp?) && rest[k].messages != []
            && forall j | 0 <= j < k :: !rest[j].NextTurn? {
      assert all[k] == rest[k] && forall j | 0 <= j < k :: all[j] == rest[j];
    }
    if (a.Steering? || a.FollowUp?) && a.messages != [] && forall d | d in rest :: !d.NextTurn? {
      assert all[|rest|] == a;
    }
    if AnyQueued(all) {
      var k :| 0 <= k < |all| && (all[k].Steering? || all[k].FollowUp?) && all[k].messages != []
               && forall j | 0 <= j < k :: !all[j].NextTurn?;
      assert forall j | 0 <= j < k :: rest[j] == all[j];
    }
  }

  lemma SlicesMore(rest: seq<Asked>, a: Asked)
    ensures RanIn(rest + [a]) == if a.Ran? then RanIn(rest) + [a.outcome] else RanIn(rest)
    ensures QueuedIn(rest + [a]) == if a.Steering? || a.FollowUp? then QueuedIn(rest) + a.messages else QueuedIn(rest)
  {
    assert (rest + [a])[..|rest|] == rest;
  }

  lemma ReadsMore(t: Tally, rest: seq<Asked>, a: Asked)
    requires t.exchanges != [] && ReadsAs(t, t.Last(), rest) && !a.Streamed? && !Ask(t, a).stage.Wrong?
    ensures Ask(t, a).exchanges != [] && ReadsAs(Ask(t, a), Ask(t, a).Last(), rest + [a])
  {
    hide AnyQueued, RanIn, QueuedIn, Stops, AsksMore, Rests, Prepares;
    AnyQueuedMore(rest, a);
    SlicesMore(rest, a);
    if a.NextTurn? {
      BeginsPrepares(t, rest, a);
    } else if t.stage.Preparing? || t.stage.Steered? || t.stage.Updated? {
      var k :| Prepares(t, rest, k);
      PreparesMore(t, rest, a, k);
    }
  }

  lemma BeginsPrepares(t: Tally, rest: seq<Asked>, a: Asked)
    requires t.exchanges != [] && a.NextTurn? && t.handed == QueuedIn(rest) && forall d | d in rest :: !d.NextTurn?
    ensures Prepares(Ask(t, a), rest + [a], |rest|)
  {
    hide QueuedIn, AsksMore, Stops;
    var all, n := rest + [a], |rest|;
    assert all[n] == a && Ask(t, a).handed == a.snapshot.messages + t.handed && Ask(t, a).base == a.snapshot.context;
    hide Ask;
    assert forall j | 0 <= j < n :: all[j] == rest[j] && rest[j] in rest;
    assert all[..n] == rest;
    assert all[n + 1..] == [];
    QueuedInNone();
    assert QueuedIn(rest) + [] == QueuedIn(rest);
  }

  lemma PreparesMore(t: Tally, rest: seq<Asked>, a: Asked, k: int)
    requires t.exchanges != [] && Prepares(t, rest, k) && (a.Steering? || a.RequestUpdate?)
    requires t.stage.Preparing? || t.stage.Steered? || t.stage.Updated?
    ensures Prepares(Ask(t, a), rest + [a], k) && rest[k].NextTurn? && rest[k] in rest
  {
    hide QueuedIn, AsksMore, Stops;
    var all, t' := rest + [a], Ask(t, a);
    assert t'.base == t.base && t'.handed == if a.Steering? then t.handed + a.messages else t.handed;
    assert !t'.stage.Preparing?;
    hide Ask;
    PlaceKept(rest, a, k);
    SlicesMore(rest[k + 1..], a);
    if a.Steering? {
      JoinedLater(rest[k].snapshot.messages, QueuedIn(rest[..k]), QueuedIn(rest[k + 1..]), a.messages);
    }
  }

  lemma PlaceKept(rest: seq<Asked>, a: Asked, k: int)
    requires 0 <= k < |rest| && rest[k].NextTurn? && !a.NextTurn?
    requires forall j | 0 <= j < |rest| && rest[j].NextTurn? :: j == k
    ensures (rest + [a])[k] == rest[k] && (rest + [a])[..k] == rest[..k] && (rest + [a])[k + 1..] == rest[k + 1..] + [a]
    ensures forall j | 0 <= j < |rest + [a]| && (rest + [a])[j].NextTurn? :: j == k
  {
    assert forall j | 0 <= j < |rest| :: (rest + [a])[j] == rest[j];
  }

  lemma JoinedLater(first: seq<Message>, before: seq<Message>, after: seq<Message>, more: seq<Message>)
    ensures first + (before + after) + more == first + (before + (after + more))
  {
  }

  lemma QueuedInNone()
    ensures QueuedIn([]) == []
  {
  }

  // ---------------------------------------------------------------- the order of the questions

  /** The calls of a turn ask for another one. */
  ghost predicate WantsMore(x: Exchange)
    requires x.answer.Assistant?
  {
    && x.answer.calls != []
    && (|| x.answer.stopReason == Length
        || x.outcomes == []
        || exists k :: 0 <= k < |x.outcomes| && !x.outcomes[k].terminate)
  }

  /** After this turn the steering queue was empty and nothing else asks for another one: follow-ups are due. */
  ghost predicate FollowUpsDue(rest: seq<Asked>, x: Exchange)
    requires x.answer.Assistant?
  {
    var n := |x.outcomes|;
    n + 1 < |rest| && rest[n + 1].Steering? && rest[n + 1].messages == [] && !WantsMore(x)
  }

  /**
   * What the host is asked after a request, in this order: its tools, the hook at its end, steering; follow-ups if they
   * are due; and when the run goes on, the hook before the next turn, steering again exactly if nothing was queued yet,
   * and the update of the next request.
   */
  ghost predicate AsksInOrder(rest: seq<Asked>, x: Exchange)
    requires x.answer.Assistant?
  {
    var n := |x.outcomes|;
    var due := FollowUpsDue(rest, x);
    var next := if due then n + 3 else n + 2;
    var waiting := next <= |rest| && QueuedIn(rest[..next]) != [];
    && n <= |rest| <= (if waiting then next + 2 else next + 3)
    && (forall i | 0 <= i < n :: rest[i] == Ran(x.outcomes[i]))
    && (n < |rest| ==> rest[n] == TurnFinished(x.decision))
    // Nothing is asked after a turn that ends the run.
    && (x.answer.stopReason == Error || x.answer.stopReason == Aborted || x.decision == Some(End) ==> |rest| <= n + 1)
    && (n + 1 < |rest| ==> rest[n + 1].Steering?)
    && (due && n + 2 < |rest| ==> rest[n + 2].FollowUp?)
    && (next < |rest| ==>
          rest[next].NextTurn? && (WantsMore(x) || waiting || x.decision == Some(Continue)))
    && (next + 1 < |rest| ==> if waiting then rest[next + 1].RequestUpdate? else rest[next + 1].Steering?)
    && (next + 2 < |rest| ==> rest[next + 2].RequestUpdate?)
  }

  ghost function StageOf(rest: seq<Asked>, x: Exchange): Stage
    requires x.answer.Assistant?
  {
    var n := |x.outcomes|;
    var due := FollowUpsDue(rest, x);
    var next := if due then n + 3 else n + 2;
    var waiting := next <= |rest| && QueuedIn(rest[..next]) != [];
    if |rest| <= n then Answering
    else if |rest| == n + 1 then Ending
    else if |rest| == n + 2 then Polled
    else if due && |rest| == n + 3 then FollowedUp
    else if |rest| == next + 1 then Preparing(waiting)
    else if |rest| == next + 2 && !waiting then Steered
    else Updated
  }

  /** The questions after a request come in this order, as long as none is out of order. */
  lemma {:induction false} QuestionsRead(before: seq<Asked>, context: Context, stream: seq<StreamEvent>,
                                         answer: Message, rest: seq<Asked>, prompts: Option<seq<Message>>)
    requires answer.Assistant? && forall a | a in rest :: !a.Streamed?
    requires !Count(before + [Streamed(context, stream, answer)] + rest, prompts).stage.Wrong?
    ensures var t := Count(before + [Streamed(context, stream, answer)] + rest, prompts);
            && t.exchanges != [] && t.Last().answer == answer
            && AsksInOrder(rest, t.Last()) && t.stage == StageOf(rest, t.Last())
  {
    hide Count, ReadsAs, AsksInOrder, StageOf;
    var asked := Streamed(context, stream, answer);
    RequestReads(before, context, stream, answer, rest, prompts);
    if rest == [] {
      assert before + [asked] + rest == before + [asked];
      CountNext(before, asked, prompts);
      FirstInOrder(Count(before + [asked], prompts));
    } else {
      var n := |rest| - 1;
      assert before + [asked] + rest == before + [asked] + rest[..n] + [rest[n]];
      CountNext(before + [asked] + rest[..n], rest[n], prompts);
      RequestReads(before, context, stream, answer, rest[..n], prompts);
      QuestionsRead(before, context, stream, answer, rest[..n], prompts);
      InOrderMore(Count(before + [asked] + rest[..n], prompts), rest[..n], rest[n]);
      assert rest == rest[..n] + [rest[n]];
    }
  }

  lemma FirstInOrder(t: Tally)
    requires t.exchanges != [] && t.stage.Answering? && t.Last().outcomes == [] && t.Last().answer.Assistant?
    ensures AsksInOrder([], t.Last()) && t.stage == StageOf([], t.Last())
  {
  }

  lemma InOrderMore(t: Tally, rest: seq<Asked>, a: Asked)
    requires t.exchanges != [] && t.Last().answer.Assistant? && ReadsAs(t, t.Last(), rest)
    requires AsksInOrder(rest, t.Last()) && t.stage == StageOf(rest, t.Last())
    requires !a.Streamed? && !Ask(t, a).stage.Wrong?
    ensures Ask(t, a).exchanges != [] && Ask(t, a).Last().answer == t.Last().answer
    ensures AsksInOrder(rest + [a], Ask(t, a).Last()) && Ask(t, a).stage == StageOf(rest + [a], Ask(t, a).Last())
  {
    hide ReadsAs, AsksInOrder, Ask, StageOf;
    if t.stage.Answering? || t.stage.Ending? {
      InOrderAnswering(t, rest, a);
    } else if t.stage.Polled? || t.stage.FollowedUp? {
      InOrderQueued(t, rest, a);
    } else {
      InOrderPreparing(t, rest, a);
    }
  }

  lemma InOrderAnswering(t: Tally, rest: seq<Asked>, a: Asked)
    requires t.exchanges != [] && t.Last().answer.Assistant? && ReadsAs(t, t.Last(), rest)
    requires AsksInOrder(rest, t.Last()) && t.stage == StageOf(rest, t.Last())
    requires !a.Streamed? && !Ask(t, a).stage.Wrong?
    requires t.stage.Answering? || t.stage.Ending?
    ensures Ask(t, a).exchanges != [] && Ask(t, a).Last().answer == t.Last().answer
    ensures AsksInOrder(rest + [a], Ask(t, a).Last()) && Ask(t, a).stage == StageOf(rest + [a], Ask(t, a).Last())
  {
    hide QueuedIn, RanIn, AnyQueued, Prepares, ShouldTerminateToolBatch;
    assert forall i | 0 <= i < |rest| :: (rest + [a])[i] == rest[i];
    assert (rest + [a])[|rest|] == a;
  }

  lemma InOrderQueued(t: Tally, rest: seq<Asked>, a: Asked)
    requires t.exchanges != [] && t.Last().answer.Assistant? && ReadsAs(t, t.Last(), rest)
    requires AsksInOrder(rest, t.Last()) && t.stage == StageOf(rest, t.Last())
    requires !a.Streamed? && !Ask(t, a).stage.Wrong?
    requires t.stage.Polled? || t.stage.FollowedUp?
    ensures Ask(t, a).exchanges != [] && Ask(t, a).Last().answer == t.Last().answer
    ensures AsksInOrder(rest + [a], Ask(t, a).Last()) && Ask(t, a).stage == StageOf(rest + [a], Ask(t, a).Last())
  {
    hide QueuedIn, RanIn, AnyQueued, Prepares;
    var n := |t.Last().outcomes|;
    assert forall i | 0 <= i < |rest| :: (rest + [a])[i] == rest[i];
    assert (rest + [a])[|rest|] == a;
    QueuedRead(rest, n);
    assert (rest + [a])[..|rest|] == rest;
  }

  lemma InOrderPreparing(t: Tally, rest: seq<Asked>, a: Asked)
    requires t.exchanges != [] && t.Last().answer.Assistant? && ReadsAs(t, t.Last(), rest)
    requires AsksInOrder(rest, t.Last()) && t.stage == StageOf(rest, t.Last())
    requires !a.Streamed? && !Ask(t, a).stage.Wrong?
    requires !t.stage.Answering? && !t.stage.Ending? && !t.stage.Polled? && !t.stage.FollowedUp?
    ensures Ask(t, a).exchanges != [] && Ask(t, a).Last().answer == t.Last().answer
    ensures AsksInOrder(rest + [a], Ask(t, a).Last()) && Ask(t, a).stage == StageOf(rest + [a], Ask(t, a).Last())
  {
    hide QueuedIn, RanIn, AnyQueued, Prepares, ShouldTerminateToolBatch, WantsMore;
    var all, n := rest + [a], |t.Last().outcomes|;
    assert forall i | 0 <= i < |rest| :: all[i] == rest[i];
    assert all[|rest|] == a;
    var next := if FollowUpsDue(rest, t.Last()) then n + 3 else n + 2;
    assert all[..next] == rest[..next];
  }

  /** Before the next turn is prepared, something was queued exactly if a queue handed something over. */
  lemma QueuedRead(rest: seq<Asked>, n: nat)
    requires n + 1 < |rest| && rest[n].TurnFinished? && rest[n + 1].Steering? && forall i | 0 <= i < n :: rest[i].Ran?
    requires forall d | d in rest :: !d.NextTurn?
    ensures AnyQueued(rest) <==> QueuedIn(rest) != []
    ensures AnyQueued(rest) <== rest[n + 1].messages != []
    ensures |rest| == n + 2 ==> (AnyQueued(rest) <==> rest[n + 1].messages != [])
  {
    hide QueuedIn;
    QueuedSome(rest);
    if k :| 0 <= k < |rest| && (rest[k].Steering? || rest[k].FollowUp?) && rest[k].messages != [] {
      forall j | 0 <= j < k ensures !rest[j].NextTurn? {
        assert rest[j] in rest;
      }
      assert AnyQueued(rest);
    }
  }

  lemma {:induction false} QueuedSome(rest: seq<Asked>)
    ensures QueuedIn(rest) != [] <==>
            exists k :: 0 <= k < |rest| && (rest[k].Steering? || rest[k].FollowUp?) && rest[k].messages != []
  {
    if rest != [] {
      var n := |rest| - 1;
      QueuedSome(rest[..n]);
      if (rest[n].Steering? || rest[n].FollowUp?) && rest[n].messages != [] {
        assert QueuedIn(rest) != [];
      } else if QueuedIn(rest[..n]) != [] {
        var k :| 0 <= k < n && (rest[..n][k].Steering? || rest[..n][k].FollowUp?) && rest[..n][k].messages != [];
        assert rest[k] == rest[..n][k];
      } else {
        forall k | 0 <= k < |rest| && (rest[k].Steering? || rest[k].FollowUp?) ensures rest[k].messages == [] {
          if k < n {
            assert rest[..n][k] == rest[k];
          }
        }
      }
    }
  }
}
