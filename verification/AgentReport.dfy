/**
 * What the trace of a run says, compared with what its host logged: every turn of the trace is one provider request
 * of the log with what followed it.
 */
module AgentReport {
  import opened ToolState
  import opened AgentTrace
  import opened AgentHost
  import opened AgentLoop

  lemma {:induction false} EndedConcat(a: seq<Event>, b: seq<Event>)
    ensures Ended(a + b) == Ended(a) + Ended(b)
  {
    if b == [] {
      assert a + b == a;
    } else {
      EndedConcat(a, b[..|b| - 1]);
      assert (a + b)[..|a + b| - 1] == a + b[..|b| - 1];
    }
  }

  // ---------------------------------------------------------------- the turns of a trace

  /** The events of each turn, its start left out */
  function Turns(trace: seq<Event>): seq<seq<Event>> {
    if trace == [] then [] else
      var before, e := Turns(trace[..|trace| - 1]), trace[|trace| - 1];
      if e.TurnStart? then before + [[]]
      else if e.AgentStart? || e.AgentEnd? || before == [] then before
      else Grown(before, [e])
  }

  function Grown(turns: seq<seq<Event>>, events: seq<Event>): seq<seq<Event>>
    requires turns != []
  {
    var n := |turns| - 1;
    turns[..n] + [turns[n] + events]
  }

  lemma TurnsNext(trace: seq<Event>, e: Event)
    ensures Turns(trace + [e]) ==
            if e.TurnStart? then Turns(trace) + [[]]
            else if e.AgentStart? || e.AgentEnd? || Turns(trace) == [] then Turns(trace)
            else Grown(Turns(trace), [e])
  {
    assert (trace + [e])[..|trace|] == trace;
  }

  /** It belongs to a turn. */
  predicate OfTurn(e: Event) {
    Inner(e) || e.TurnEnd?
  }

  lemma GrownTwice(turns: seq<seq<Event>>, a: seq<Event>, b: seq<Event>)
    requires turns != []
    ensures Grown(turns, a) != [] && Grown(Grown(turns, a), b) == Grown(turns, a + b)
  {
    var n := |turns| - 1;
    assert turns[n] + a + b == turns[n] + (a + b);
    assert Grown(turns, a)[..n] == turns[..n];
  }

  lemma GrownNone(turns: seq<seq<Event>>)
    requires turns != []
    ensures Grown(turns, []) == turns
  {
    var n := |turns| - 1;
    assert turns[n] + [] == turns[n];
  }

  lemma {:induction false} TurnsMore(trace: seq<Event>, events: seq<Event>)
    requires Turns(trace) != [] && forall e | e in events :: OfTurn(e)
    ensures Turns(trace + events) == Grown(Turns(trace), events)
  {
    hide Turns, Grown;
    if events == [] {
      assert trace + events == trace;
      GrownNone(Turns(trace));
    } else {
      var n := |events| - 1;
      assert OfTurn(events[n]);
      TurnsMore(trace, events[..n]);
      GrownTwice(Turns(trace), events[..n], [events[n]]);
      TurnsNext(trace + events[..n], events[n]);
      assert trace + events == trace + events[..n] + [events[n]] && events == events[..n] + [events[n]];
    }
  }

  // ---------------------------------------------------------------- the form of a turn

  /** Messages that are complete when they are announced */
  function Announced(messages: seq<Message>): seq<Event> {
    if messages == [] then [] else
      var m := messages[|messages| - 1];
      Announced(messages[..|messages| - 1]) + [MessageStart(m), MessageEnd(m)]
  }

  lemma AnnouncedNext(messages: seq<Message>, m: Message)
    ensures Announced(messages + [m]) == Announced(messages) + [MessageStart(m), MessageEnd(m)]
  {
    assert (messages + [m])[..|messages|] == messages;
  }

  lemma {:induction false} AnnouncedConcat(a: seq<Message>, b: seq<Message>)
    ensures Announced(a + b) == Announced(a) + Announced(b)
  {
    hide Announced;
    if b == [] {
      assert a + b == a;
      AnnouncedNone();
    } else {
      var n := |b| - 1;
      AnnouncedConcat(a, b[..n]);
      AnnouncedNext(a + b[..n], b[n]);
      AnnouncedNext(b[..n], b[n]);
      assert a + b == a + b[..n] + [b[n]] && b == b[..n] + [b[n]];
    }
  }

  lemma AnnouncedNone()
    ensures Announced([]) == []
  {
  }

  lemma {:induction false} AnnouncedSays(messages: seq<Message>)
    ensures Ended(Announced(messages)) == messages
    ensures forall e | e in Announced(messages) :: Inner(e)
  {
    if messages != [] {
      hide Announced, Ended;
      var n := |messages| - 1;
      var m, before := messages[n], Announced(messages[..n]);
      AnnouncedSays(messages[..n]);
      AnnouncedNext(messages[..n], m);
      assert messages == messages[..n] + [m];
      assert Announced(messages) == before + [MessageStart(m)] + [MessageEnd(m)];
      Appended(before, MessageStart(m));
      Appended(before + [MessageStart(m)], MessageEnd(m));
    }
  }

  /** The answer starts once, is updated while it streams and ends as it is. */
  ghost predicate IsAnswer(events: seq<Event>, answer: Message) {
    && |events| >= 2 && events[0].MessageStart? && events[|events| - 1] == MessageEnd(answer)
    && forall i | 0 < i < |events| - 1 :: events[i].MessageUpdate?
  }

  /**
   * The answer is shown as it streams, up to the end of the stream: it starts with its first partial message, each
   * later one updates it, and without any it starts complete.
   */
  ghost predicate Relays(said: seq<Event>, stream: seq<StreamEvent>, answer: Message) {
    exists k | 0 <= k <= |stream| :: RelaysTo(said, stream, answer, k)
  }

  ghost predicate RelaysTo(said: seq<Event>, stream: seq<StreamEvent>, answer: Message, k: nat)
    requires k <= |stream|
  {
    && (k < |stream| ==> stream[k].Finish?) && (forall j | 0 <= j < k :: !stream[j].Finish?)
    && if exists s :: 0 <= s < k && stream[s].Start? then exists s | 0 <= s < k :: ShownFrom(said, stream, answer, s, k)
       else said == [MessageStart(answer), MessageEnd(answer)]
  }

  ghost predicate ShownFrom(said: seq<Event>, stream: seq<StreamEvent>, answer: Message, s: nat, k: nat)
    requires s < k <= |stream| && forall j | 0 <= j < k :: !stream[j].Finish?
  {
    && stream[s].Start? && |said| == k - s + 1
    && said[0] == MessageStart(stream[s].partial) && said[k - s] == MessageEnd(answer)
    && forall i | 0 < i < k - s :: said[i] == MessageUpdate(stream[s + i].partial)
  }

  lemma {:induction false} UpdatesSayNothing(events: seq<Event>)
    requires forall i | 0 <= i < |events| :: events[i].MessageStart? || events[i].MessageUpdate?
    ensures Ended(events) == []
  {
    if events != [] {
      UpdatesSayNothing(events[..|events| - 1]);
    }
  }

  lemma AnswerSays(events: seq<Event>, answer: Message)
    requires IsAnswer(events, answer)
    ensures Ended(events) == [answer] && forall e | e in events :: Inner(e)
  {
    UpdatesSayNothing(events[..|events| - 1]);
    assert [] + [answer] == [answer];
  }

  lemma {:induction false} OrderedInner(events: seq<Event>)
    requires Ordered(events)
    ensures forall e | e in events :: Inner(e)
  {
    if events != [] {
      OrderedInner(events[..|events| - 1]);
    }
  }

  /** What the turn says its results are, and the messages it ended before its answer */
  function TurnResults(events: seq<Event>): seq<Message> {
    if events != [] && events[|events| - 1].TurnEnd? then events[|events| - 1].toolResults else []
  }

  function TurnInputs(events: seq<Event>): seq<Message> {
    var said, results := Ended(events), TurnResults(events);
    if |said| > |results| then said[..|said| - 1 - |results|] else []
  }

  /**
   * The tool calls of the turn: none after an error, errors without running anything for a truncated answer, otherwise
   * a batch whose results are the outcomes that the host logged. Only an abort leaves calls unanswered.
   */
  ghost predicate IsToolPart(x: Exchange, batch: seq<Event>, results: seq<Message>, aborted: bool) {
    x.answer.Assistant? &&
    if Refused(x.answer) then batch == [] && results == [] && x.outcomes == []
    else
      && IsBatch(batch, x.answer.calls, results)
      && (|results| == |x.answer.calls| || (aborted && results != []))
      && if x.answer.stopReason == Length then
           && x.outcomes == [] && |results| == |x.answer.calls| && AllErrors(results)
           && Ends(batch) == seq(|results|, i requires 0 <= i < |results| => (x.answer.calls[i].id, true))
         else ResultsRan(results, x.outcomes) && Ends(batch) == EndsOf(x.outcomes)
  }

  predicate AllErrors(results: seq<Message>) {
    forall i | 0 <= i < |results| :: results[i].ToolResult? && results[i].isError
  }

  /** What is announced is what was handed over, declared once, and before it the prompts, declared by themselves. */
  ghost predicate Announces(prompts: Option<seq<Message>>, handed: seq<Message>, announced: seq<Message>) {
    if prompts.None? then Carried(handed, announced)
    else exists n | 0 <= n <= |announced| :: Carried(prompts.value, announced[..n]) && Carried(handed, announced[n..])
  }

  /** What a run has announced before it asks for anything */
  predicate Begins(prompts: Option<seq<Message>>, given: seq<Message>) {
    if prompts.None? then given == [] else Carried(prompts.value, given)
  }

  lemma AnnouncesMore(prompts: Option<seq<Message>>, given: seq<Message>, handed: seq<Message>, added: seq<Message>)
    requires Begins(prompts, given) && Carried(handed, added)
    ensures Announces(prompts, handed, given + added)
  {
    hide Carried;
    var all := given + added;
    assert all[..|given|] == given && all[|given|..] == added;
  }

  ghost predicate IsTurnOf(events: seq<Event>, x: Exchange, said: seq<Event>, batch: seq<Event>, aborted: bool) {
    && events == Announced(TurnInputs(events)) + said + batch + [TurnEnd(x.answer, TurnResults(events))]
    && Announces(x.prompts, x.inputs, TurnInputs(events))
    && IsAnswer(said, x.answer) && Relays(said, x.stream, x.answer)
    && IsToolPart(x, batch, TurnResults(events), aborted)
  }

  /**
   * The turn announces what was handed over for the request, all of it and in that order, then the answer, then its
   * tool calls, and ends with both.
   */
  ghost predicate IsTurn(events: seq<Event>, x: Exchange, aborted: bool) {
    exists said, batch :: IsTurnOf(events, x, said, batch, aborted)
  }

  lemma TurnParts(inputs: seq<Message>, said: seq<Event>, answer: Message, batch: seq<Event>, results: seq<Message>)
    requires IsAnswer(said, answer) && Ended(batch) == results
    ensures var events := Announced(inputs) + said + batch + [TurnEnd(answer, results)];
            TurnResults(events) == results && TurnInputs(events) == inputs
  {
    hide Announced, Ended, IsAnswer, Relays;
    var events := Announced(inputs) + said + batch + [TurnEnd(answer, results)];
    AnnouncedSays(inputs);
    AnswerSays(said, answer);
    EndedConcat(Announced(inputs), said);
    EndedConcat(Announced(inputs) + said, batch);
    Appended(Announced(inputs) + said + batch, TurnEnd(answer, results));
    assert Ended(events) == inputs + [answer] + results;
    assert (inputs + [answer] + results)[..|inputs|] == inputs;
  }

  // ---------------------------------------------------------------- requests

  /** A request's transcript declares the tools its context can execute, unless a hook replaced the context. */
  ghost predicate Declares(context: Context, replacement: Option<Context>) {
    replacement.None? && Unambiguous(context.tools) ==> SameTools(GetCurrentTools(context.messages), context.tools)
  }

  /** The context of a request: what went before, or what a hook gave for it, and the turn's inputs; or a replacement */
  function RequestContext(before: Context, base: Option<Context>, replacement: Option<Context>,
                          inputs: seq<Message>): Context {
    if replacement.Some? then replacement.value else
      var from := if base.Some? then base.value else before;
      Context(from.messages + inputs, from.tools)
  }

  /** A turn adds its answer and its results to the context of its request. */
  function ContextAfter(x: Exchange, events: seq<Event>): Context {
    Context(x.context.messages + ([x.answer] + TurnResults(events)), x.context.tools)
  }

  function ContextBefore(turns: seq<seq<Event>>, exchanges: seq<Exchange>, initial: Context, i: nat): Context
    requires i <= |exchanges| && i <= |turns|
  {
    if i == 0 then initial else ContextAfter(exchanges[i - 1], turns[i - 1])
  }

  ghost predicate IsRequest(turns: seq<seq<Event>>, exchanges: seq<Exchange>, initial: Context, i: nat)
    requires i < |exchanges| <= |turns|
  {
    var x := exchanges[i];
    && Declares(x.context, x.replacement)
    && x.context ==
       RequestContext(ContextBefore(turns, exchanges, initial, i), x.base, x.replacement, TurnInputs(turns[i]))
  }

  /** Each turn of the trace is one request of the log, made with the context that the turns before it lead to. */
  ghost predicate Matches(turns: seq<seq<Event>>, exchanges: seq<Exchange>, initial: Context, aborted: bool) {
    && |exchanges| <= |turns|
    && (forall i | 0 <= i < |exchanges| :: IsTurn(turns[i], exchanges[i], aborted))
    && (forall i | 0 <= i < |exchanges| :: IsRequest(turns, exchanges, initial, i))
  }

  // ---------------------------------------------------------------- what follows a turn

  /** Every turn but the last was followed, and the run is finished exactly when nothing is to follow the last. */
  ghost predicate Followed(exchanges: seq<Exchange>, finished: bool) {
    && (forall i | 0 <= i < |exchanges| - 1 :: GoesOn(exchanges[i]))
    && if exchanges == [] then !finished else (finished <==> !GoesOn(exchanges[|exchanges| - 1]))
  }

  /** Nothing was queued after the turn and it asked for nothing, except maybe to go on. */
  predicate AtRest(x: Exchange, continuation: bool) {
    Rests(x) && continuation == (x.decision == Some(Decision.Continue))
  }

  lemma NoTurns()
    ensures Followed([], false)
  {
  }

  lemma TurnAdded(exchanges: seq<Exchange>, x: Exchange)
    requires Followed(exchanges, false) && !x.queued
    ensures Stops(x) ==> Followed(exchanges + [x], true)
    ensures !Stops(x) ==>
              forall queued ::
                var x' := x.(queued := queued);
                if AsksMore(x) || queued then Followed(exchanges + [x'], false)
                else
                  && AtRest(x', x.decision == Some(Decision.Continue))
                  && Followed(exchanges + [x'], x.decision != Some(Decision.Continue))
  {
  }

  lemma TurnQueued(exchanges: seq<Exchange>, continuation: bool)
    requires exchanges != [] && Followed(exchanges, !continuation) && AtRest(exchanges[|exchanges| - 1], continuation)
    ensures Followed(exchanges[|exchanges| - 1 := exchanges[|exchanges| - 1].(queued := true)], false)
  {
  }

  // ---------------------------------------------------------------- runs

  /**
   * The whole run, finished or not: its turns are its requests, another turn followed exactly when one was asked for,
   * and a finished run has taken everything that was handed over.
   */
  ghost predicate Reports(trace: seq<Event>, log: seq<Asked>, prompts: Option<seq<Message>>, initial: Context,
                          finished: bool, aborted: bool)
  {
    var t := Count(log, prompts);
    && Matches(Turns(trace), t.exchanges, initial, aborted)
    && (t.exchanges != [] ==> |Turns(trace)| == |t.exchanges|)
    && Followed(t.exchanges, finished)
    // The host was asked in order, and a finished run asked for follow-ups unless its last turn stopped it.
    && !t.stage.Wrong?
    && (finished ==> t.handed == [] && t.stage == if Stops(t.Last()) then Ending else FollowedUp)
  }

  /**
   * When another turn follows, in plain words: never after an error, an abort or a hook that ends the run; otherwise
   * when the hook continues, when messages were queued, or when the answer has calls whose results the model is to see:
   * they were truncated, none ran, or not every one that ran asks for the end.
   */
  lemma TurnFollows(trace: seq<Event>, log: seq<Asked>, prompts: Option<seq<Message>>, initial: Context,
                    finished: bool, aborted: bool, i: nat)
    requires Reports(trace, log, prompts, initial, finished, aborted) && i < |Count(log, prompts).exchanges|
    ensures var xs := Count(log, prompts).exchanges;
            i + 1 < |xs| || !finished <==>
            && xs[i].answer.stopReason != Error && xs[i].answer.stopReason != Aborted
            && xs[i].decision != Some(Decision.End)
            && (|| xs[i].decision == Some(Decision.Continue)
                || xs[i].queued
                || (&& xs[i].answer.calls != []
                    && (|| xs[i].answer.stopReason == Length
                        || xs[i].outcomes == []
                        || exists k :: 0 <= k < |xs[i].outcomes| && !xs[i].outcomes[k].terminate)))
  {
    hide Count, IsToolPart, Announces, IsAnswer, Relays, TurnInputs, TurnResults, IsRequest, Announced;
    var x := Count(log, prompts).exchanges[i];
    assert IsTurn(Turns(trace)[i], x, aborted);
    assert x.answer.Assistant? by {
      var said, batch :| IsTurnOf(Turns(trace)[i], x, said, batch, aborted);
      ToolPartAnswers(x, batch, TurnResults(Turns(trace)[i]), aborted);
    }
    assert (forall o | o in x.outcomes :: o.terminate) <==>
           forall k | 0 <= k < |x.outcomes| :: x.outcomes[k].terminate;
  }

  lemma ToolPartAnswers(x: Exchange, batch: seq<Event>, results: seq<Message>, aborted: bool)
    requires IsToolPart(x, batch, results, aborted)
    ensures x.answer.Assistant?
  {
  }

  // ---------------------------------------------------------------- one turn after the other

  /** Matching looks at the turns of the requests only, and an abort stays. */
  lemma MatchesMore(turns: seq<seq<Event>>, turns': seq<seq<Event>>, exchanges: seq<Exchange>, initial: Context,
                    aborted: bool, aborted': bool)
    requires Matches(turns, exchanges, initial, aborted) && (aborted ==> aborted')
    requires |exchanges| <= |turns'| && forall i | 0 <= i < |exchanges| :: turns'[i] == turns[i]
    ensures Matches(turns', exchanges, initial, aborted')
  {
    hide IsAnswer, Relays, Announced, TurnInputs, TurnResults, Declares, RequestContext, ContextAfter;
    forall i | 0 <= i < |exchanges|
      ensures IsTurn(turns'[i], exchanges[i], aborted') && IsRequest(turns', exchanges, initial, i)
    {
      assert IsTurn(turns[i], exchanges[i], aborted) && IsRequest(turns, exchanges, initial, i);
      TurnAborted(turns[i], exchanges[i], aborted, aborted');
    }
  }

  lemma TurnAborted(events: seq<Event>, x: Exchange, aborted: bool, aborted': bool)
    requires IsTurn(events, x, aborted) && (aborted ==> aborted')
    ensures IsTurn(events, x, aborted')
  {
    hide Announced, TurnInputs, TurnResults, IsAnswer, Relays, IsBatch, ResultsRan;
    var said, batch :| IsTurnOf(events, x, said, batch, aborted);
    assert IsTurnOf(events, x, said, batch, aborted');
  }

  /** Nor does it look at what was queued after the last turn. */
  lemma MatchesQueued(turns: seq<seq<Event>>, exchanges: seq<Exchange>, initial: Context, aborted: bool)
    requires Matches(turns, exchanges, initial, aborted) && exchanges != []
    ensures var n := |exchanges| - 1;
            Matches(turns, exchanges[n := exchanges[n].(queued := true)], initial, aborted)
  {
    hide Announced, TurnInputs, TurnResults, Declares, RequestContext;
    var n := |exchanges| - 1;
    var after := exchanges[n := exchanges[n].(queued := true)];
    forall i | 0 <= i < |after| ensures IsTurn(turns[i], after[i], aborted) && IsRequest(turns, after, initial, i) {
      assert IsTurn(turns[i], exchanges[i], aborted) && IsRequest(turns, exchanges, initial, i);
      TurnUnqueued(turns[i], exchanges[i], aborted);
      assert i > 0 ==> after[i - 1] == exchanges[i - 1];
    }
  }

  lemma TurnUnqueued(events: seq<Event>, x: Exchange, aborted: bool)
    requires IsTurn(events, x, aborted)
    ensures IsTurn(events, x.(queued := true), aborted)
  {
    hide Announced, TurnInputs, TurnResults, IsAnswer, Relays, IsBatch, ResultsRan;
    var said, batch :| IsTurnOf(events, x, said, batch, aborted);
    assert IsTurnOf(events, x.(queued := true), said, batch, aborted);
  }

  /** One more turn, whose request is known, matches. */
  lemma MatchesNext(turns: seq<seq<Event>>, exchanges: seq<Exchange>, initial: Context, aborted: bool, x: Exchange)
    requires Matches(turns, exchanges, initial, aborted) && |turns| == |exchanges| + 1
    requires IsTurn(turns[|exchanges|], x, aborted) && Declares(x.context, x.replacement)
    requires x.context == RequestContext(ContextBefore(turns, exchanges, initial, |exchanges|), x.base, x.replacement,
                                         TurnInputs(turns[|exchanges|]))
    ensures Matches(turns, exchanges + [x], initial, aborted)
  {
    hide IsTurn, Declares, RequestContext, TurnInputs, ContextAfter;
    var after := exchanges + [x];
    forall i | 0 <= i < |after| ensures IsTurn(turns[i], after[i], aborted) && IsRequest(turns, after, initial, i) {
      if i < |exchanges| {
        assert IsTurn(turns[i], exchanges[i], aborted) && IsRequest(turns, exchanges, initial, i);
        assert after[i] == exchanges[i] && (i > 0 ==> after[i - 1] == exchanges[i - 1]);
      } else {
        assert i > 0 ==> after[i - 1] == exchanges[i - 1];
      }
    }
  }

  /** Between two turns, or inside the first one before its request */
  ghost predicate AtBoundary(trace: seq<Event>, log: seq<Asked>, prompts: Option<seq<Message>>, initial: Context,
                             context: Context, pending: seq<Message>, given: seq<Message>, completed: bool,
                             aborted: bool)
  {
    var t, turns := Count(log, prompts), Turns(trace);
    && Matches(turns, t.exchanges, initial, aborted)
    && t.base.None? && t.replacement.None?
    && if completed then
         && t.exchanges != [] && |turns| == |t.exchanges| && t.prompts.None? && t.handed == pending
         && t.stage in {Ending, Polled, FollowedUp}
         && context == ContextAfter(t.Last(), turns[|turns| - 1])
       else
         && t.exchanges == [] && turns == [Announced(given)] && t.prompts == prompts && t.handed == pending
         && t.stage in {Unasked, Steered}
         && Begins(prompts, given)
         && context == Context(initial.messages + given, initial.tools)
  }

  /** The inputs of a turn are announced and its request is ready. */
  ghost predicate Begun(trace: seq<Event>, log: seq<Asked>, prompts: Option<seq<Message>>, initial: Context,
                        context: Context, inputs: seq<Message>, aborted: bool)
  {
    var t, turns := Count(log, prompts), Turns(trace);
    var n := |t.exchanges|;
    && Matches(turns, t.exchanges, initial, aborted)
    && |turns| == n + 1 && turns[n] == Announced(inputs) && Announces(t.prompts, t.handed, inputs)
    && context == RequestContext(ContextBefore(turns, t.exchanges, initial, n), t.base, t.replacement, inputs)
    && Declares(context, t.replacement) && t.stage.Updated?
  }

  /** A queue that had nothing pending hands over `messages`. */
  lemma HandedOver(trace: seq<Event>, log: seq<Asked>, prompts: Option<seq<Message>>, initial: Context,
                   context: Context, given: seq<Message>, completed: bool, aborted: bool, a: Asked,
                   messages: seq<Message>)
    requires AtBoundary(trace, log, prompts, initial, context, [], given, completed, aborted)
    requires var t := Count(log, prompts);
             if a.Steering? then a.messages == messages && (t.stage.Unasked? || (t.stage.Ending? && !Stops(t.Last())))
             else a == FollowUp(messages) && t.stage.Polled? && t.exchanges != [] && Rests(t.Last())
    ensures Count(log + [a], prompts).stage ==
            if a.FollowUp? then FollowedUp else if completed then Polled else Steered
    ensures AtBoundary(trace, log + [a], prompts, initial, context, messages, given, completed, aborted)
    ensures var before, after := Count(log, prompts).exchanges, Count(log + [a], prompts).exchanges;
            after == if messages == [] || before == [] then before
                     else before[|before| - 1 := before[|before| - 1].(queued := true)]
  {
    hide Matches, Turns, Announced, Count, Stops, AsksMore, Begins;
    var t := Count(log, prompts);
    CountNext(log, a, prompts);
    assert [] + messages == messages;
    if t.exchanges != [] {
      MatchesQueued(Turns(trace), t.exchanges, initial, aborted);
    }
  }

  lemma TurnsAnnounced(trace: seq<Event>, messages: seq<Message>)
    requires Turns(trace) != []
    ensures Turns(trace + Announced(messages)) == Grown(Turns(trace), Announced(messages))
  {
    hide Turns, Announced, Grown;
    AnnouncedSays(messages);
    TurnsMore(trace, Announced(messages));
  }

  /** The first turn goes on with what the steering queue handed over. */
  lemma BeginsFirst(trace: seq<Event>, log: seq<Asked>, prompts: Option<seq<Message>>, initial: Context,
                    context: Context, pending: seq<Message>, given: seq<Message>, aborted: bool, added: seq<Message>,
                    replacement: Option<Context>)
    requires AtBoundary(trace, log, prompts, initial, context, pending, given, false, aborted)
    requires Carried(pending, added) && Declares(RequestContext(context, None, replacement, added), replacement)
    requires Count(log, prompts).stage.Steered?
    ensures Begun(trace + Announced(added), log + [RequestUpdate(replacement)], prompts, initial,
                  RequestContext(context, None, replacement, added), given + added, aborted)
    ensures Count(log + [RequestUpdate(replacement)], prompts).stage.Updated?
    ensures Count(log + [RequestUpdate(replacement)], prompts).exchanges == Count(log, prompts).exchanges
  {
    hide Turns, Count, Announced, Declares, Carried, Announces, Begins;
    CountNext(log, RequestUpdate(replacement), prompts);
    TurnsAnnounced(trace, added);
    AnnouncedConcat(given, added);
    AnnouncesMore(prompts, given, pending, added);
    assert initial.messages + given + added == initial.messages + (given + added);
  }

  /** What a hook prepared, and what was polled when nothing was pending, is handed over for the next turn. */
  lemma PreparedNext(log: seq<Asked>, prompts: Option<seq<Message>>, snapshot: Snapshot, pending: seq<Message>,
                     polled: Option<seq<Message>>, replacement: Option<Context>)
    requires Count(log, prompts).stage in {Polled, FollowedUp} && Count(log, prompts).MayGoOn()
    requires Count(log, prompts).prompts.None? && Count(log, prompts).handed == pending
             && (polled.Some? <==> pending == [])
    ensures var t, queued := Count(log, prompts), if polled.Some? then polled.value else pending;
            Count(AskedNext(log, snapshot, polled) + [RequestUpdate(replacement)], prompts) ==
            Tally(t.exchanges, None, snapshot.messages + queued, snapshot.context, replacement, Updated)
  {
    hide Count;
    var t := Count(log, prompts);
    CountNext(log, NextTurn(snapshot), prompts);
    if polled.Some? {
      CountNext(log + [NextTurn(snapshot)], Steering(polled.value), prompts);
      assert snapshot.messages + [] + polled.value == snapshot.messages + polled.value;
    }
    CountNext(AskedNext(log, snapshot, polled), RequestUpdate(replacement), prompts);
  }

  function AskedNext(log: seq<Asked>, snapshot: Snapshot, polled: Option<seq<Message>>): seq<Asked> {
    if polled.Some? then log + [NextTurn(snapshot)] + [Steering(polled.value)] else log + [NextTurn(snapshot)]
  }

  lemma BeginsNext(trace: seq<Event>, log: seq<Asked>, prompts: Option<seq<Message>>, initial: Context,
                   context: Context, pending: seq<Message>, given: seq<Message>, aborted: bool, snapshot: Snapshot,
                   polled: Option<seq<Message>>, added: seq<Message>, replacement: Option<Context>)
    requires AtBoundary(trace, log, prompts, initial, context, pending, given, true, aborted)
    requires (polled.Some? <==> pending == []) && Count(log, prompts).stage in {Polled, FollowedUp}
    requires Count(log, prompts).MayGoOn()
    requires Carried(snapshot.messages + (if polled.Some? then polled.value else pending), added)
    requires Declares(RequestContext(context, snapshot.context, replacement, added), replacement)
    ensures Begun(trace + [TurnStart] + Announced(added),
                  AskedNext(log, snapshot, polled) + [RequestUpdate(replacement)], prompts, initial,
                  RequestContext(context, snapshot.context, replacement, added), added, aborted)
    ensures Count(AskedNext(log, snapshot, polled) + [RequestUpdate(replacement)], prompts).stage.Updated?
    ensures Count(AskedNext(log, snapshot, polled) + [RequestUpdate(replacement)], prompts).exchanges ==
            Count(log, prompts).exchanges
  {
    hide Matches, Turns, Count, Announced, Declares, Carried, AskedNext, Tally.MayGoOn, RequestContext;
    PreparedNext(log, prompts, snapshot, pending, polled, replacement);
    var xs, turns := Count(log, prompts).exchanges, Turns(trace);
    TurnsNext(trace, TurnStart);
    TurnsAnnounced(trace + [TurnStart], added);
    assert [] + Announced(added) == Announced(added);
    var after := Turns(trace + [TurnStart] + Announced(added));
    assert after == turns + [Announced(added)];
    MatchesMore(turns, after, xs, initial, aborted, aborted);
  }

  /** The log and the trace of a request with what followed it */
  function Asking(log: seq<Asked>, context: Context, stream: seq<StreamEvent>, answer: Message, ran: seq<Outcome>,
                  decision: Option<Decision>): seq<Asked> {
    log + [Streamed(context, stream, answer)] + Rans(ran) + [TurnFinished(decision)]
  }

  function Telling(trace: seq<Event>, said: seq<Event>, batch: seq<Event>, answer: Message,
                   results: seq<Message>): seq<Event> {
    trace + said + batch + [TurnEnd(answer, results)]
  }

  lemma AskedCounts(log: seq<Asked>, prompts: Option<seq<Message>>, context: Context, stream: seq<StreamEvent>,
                    answer: Message, ran: seq<Outcome>, decision: Option<Decision>)
    requires Count(log, prompts).stage.Updated?
    ensures var t := Count(log, prompts);
            var x := Exchange(t.prompts, t.handed, t.base, t.replacement, context, stream, answer, ran, decision,
                              false);
            Count(Asking(log, context, stream, answer, ran, decision), prompts) ==
            Tally(t.exchanges + [x], None, [], None, None, Ending)
  {
    hide Count;
    var t := Count(log, prompts);
    CountNext(log, Streamed(context, stream, answer), prompts);
    CountRans(log + [Streamed(context, stream, answer)], ran, prompts);
    CountNext(log + [Streamed(context, stream, answer)] + Rans(ran), TurnFinished(decision), prompts);
    assert [] + ran == ran;
  }

  lemma ToldTurns(trace: seq<Event>, said: seq<Event>, batch: seq<Event>, answer: Message, results: seq<Message>)
    requires Turns(trace) != [] && IsAnswer(said, answer) && Ordered(batch)
    ensures Turns(Telling(trace, said, batch, answer, results)) ==
            Grown(Turns(trace), said + batch + [TurnEnd(answer, results)])
  {
    hide Turns, Ordered, IsAnswer, Relays, Grown;
    AnswerSays(said, answer);
    OrderedInner(batch);
    var more := said + batch + [TurnEnd(answer, results)];
    assert trace + more == Telling(trace, said, batch, answer, results);
    TurnsMore(trace, more);
  }

  lemma ToldSays(trace: seq<Event>, said: seq<Event>, batch: seq<Event>, answer: Message, results: seq<Message>)
    requires IsAnswer(said, answer) && Ended(batch) == results
    ensures Ended(Telling(trace, said, batch, answer, results)) == Ended(trace) + ([answer] + results)
  {
    hide Ended, IsAnswer, Relays;
    AnswerSays(said, answer);
    EndedConcat(trace, said);
    EndedConcat(trace + said, batch);
    Appended(trace + said + batch, TurnEnd(answer, results));
  }

  /** A turn that had begun ended: it matches its request, and the context went on with what it added. */
  lemma TurnEnded(trace: seq<Event>, log: seq<Asked>, prompts: Option<seq<Message>>, initial: Context, context: Context,
                  inputs: seq<Message>, given: seq<Message>, aborted: bool, aborted': bool, said: seq<Event>,
                  batch: seq<Event>, stream: seq<StreamEvent>, answer: Message, results: seq<Message>,
                  ran: seq<Outcome>, decision: Option<Decision>)
    requires Begun(trace, log, prompts, initial, context, inputs, aborted) && (aborted ==> aborted')
    requires IsAnswer(said, answer) && Relays(said, stream, answer) && Ended(batch) == results && Ordered(batch)
    requires forall x: Exchange | x.answer == answer && x.outcomes == ran :: IsToolPart(x, batch, results, aborted')
    ensures AtBoundary(Telling(trace, said, batch, answer, results),
                       Asking(log, context, stream, answer, ran, decision),
                       prompts, initial, Context(context.messages + ([answer] + results), context.tools), [], given,
                       true, aborted')
    ensures Count(Asking(log, context, stream, answer, ran, decision), prompts).stage.Ending?
  {
    hide Matches, Turns, Count, Announced, Announces, Ended, Declares, RequestContext, IsToolPart, Ordered, IsAnswer,
         Relays, Asking, Telling, TurnInputs, TurnResults;
    var t, turns := Count(log, prompts), Turns(trace);
    var n := |t.exchanges|;
    var x := Exchange(t.prompts, t.handed, t.base, t.replacement, context, stream, answer, ran, decision, false);
    AskedCounts(log, prompts, context, stream, answer, ran, decision);
    ToldTurns(trace, said, batch, answer, results);
    var after := Turns(Telling(trace, said, batch, answer, results));
    var events := Announced(inputs) + said + batch + [TurnEnd(answer, results)];
    assert after[n] == events;
    assert after[..n] == turns[..n];
    MatchesMore(turns, after, t.exchanges, initial, aborted, aborted');
    TurnParts(inputs, said, answer, batch, results);
    assert IsTurnOf(events, x, said, batch, aborted');
    MatchesNext(after, t.exchanges, initial, aborted', x);
  }

  lemma RunReports(trace: seq<Event>, log: seq<Asked>, prompts: Option<seq<Message>>, initial: Context,
                   context: Context, pending: seq<Message>, given: seq<Message>, completed: bool, aborted: bool,
                   newMessages: seq<Message>)
    requires AtBoundary(trace, log, prompts, initial, context, pending, given, completed, aborted)
    ensures completed ==> Count(log, prompts).exchanges != []
    ensures Followed(Count(log, prompts).exchanges, false) ==> Reports(trace, log, prompts, initial, false, aborted)
    ensures pending == [] && Followed(Count(log, prompts).exchanges, true)
            && Count(log, prompts).stage == (if Stops(Count(log, prompts).Last()) then Ending else FollowedUp) ==>
              Reports(trace + [AgentEnd(newMessages)], log, prompts, initial, true, aborted)
  {
    hide Matches, Turns, Count, GoesOn;
    TurnsNext(trace, AgentEnd(newMessages));
  }
}
