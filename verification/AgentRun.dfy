/**
 * Whole runs of the agent loop (`runLoop`, `runAgentLoop`, `runAgentLoopContinue`): turns, steering and follow-up
 * messages, tool batches and tool declarations.
 *
 * The contracts compare the agent's trace with the host's log (`Reports`). `fuel` bounds the provider requests of a
 * run, so every finite run is one of these, and what holds of a run that ran out of it holds of every unfinished run.
 */
module AgentRun {
  import opened ToolState
  import opened AgentTrace
  import opened AgentHost
  import opened AgentLoop
  import opened AgentReport

  // ---------------------------------------------------------------- one turn

  /** Fail every tool call of a message that hit the output limit. */
  method FailTruncated(agent: Agent, calls: seq<ToolCall>, ghost ended: seq<Message>)
    returns (results: seq<Message>, ghost events: seq<Event>)
    requires InTurn(agent, ended) && agent.pendingToolCalls == {}
    modifies agent
    ensures agent.before == old(agent.before) && agent.trace == old(agent.trace) + events
    ensures BatchDone(agent, ended, events, calls, results, false) && AllErrors(results) && OneAtATime(events)
    ensures Ends(events) == seq(|results|, i requires 0 <= i < |results| => (calls[i].id, true))
  {
    NothingStarted();
    hide Ended, Answered, Opened, Closed, Ordered, After, Running, Shown, Failed, OneAtATime;
    results, events := [], [];
    EmptyBatch(calls);
    assert ended + [] == ended;
    for i := 0 to |calls|
      invariant InTurn(agent, ended + results) && agent.pendingToolCalls == {}
      invariant agent.before == old(agent.before) && agent.trace == old(agent.trace) + events
      invariant |results| == i && IsBatch(events, calls, results) && AllErrors(results) && OneAtATime(events)
      invariant Ends(events) == seq(i, k requires 0 <= k < i => (calls[k].id, true))
    {
      ghost var events0, results0 := events, results;
      var result;
      result, events := FailOneCall(agent, calls[i], events, ended + results);
      results := results + [result];
      BatchGrows(events0, events, calls, results0, result);
      assert ended + results == ended + results0 + [result];
    }
  }

  /** Run the tool calls of a message; `terminate` exactly if all of them ran and ask for it. */
  method RunTools(agent: Agent, tools: seq<Tool>, message: Message, host: Host, ghost ended: seq<Message>)
    returns (results: seq<Message>, terminate: bool, ghost ran: seq<Outcome>, ghost events: seq<Event>)
    requires InTurn(agent, ended) && agent.pendingToolCalls == {} && message.Assistant? && message.calls != []
    requires !Refused(message)
    modifies agent, host
    ensures agent.before == old(agent.before) && agent.trace == old(agent.trace) + events
    ensures InTurn(agent, ended + results) && agent.pendingToolCalls == {}
    ensures host.log == old(host.log) + Rans(ran) && (old(host.aborted) ==> host.aborted)
    ensures Ended(events) == results && Ordered(events)
    ensures forall x: Exchange | x.answer == message && x.outcomes == ran ::
              IsToolPart(x, events, results, host.aborted)
    ensures terminate <==>
            message.stopReason != Length && ran != [] && forall i | 0 <= i < |ran| :: ran[i].terminate
    // One tool that must run alone makes all of them run one after the other.
    ensures host.sequential || (exists k :: 0 <= k < |message.calls| && host.runsAlone(tools, message.calls[k].name))
            ==> OneAtATime(events)
  {
    hide Ended, After, Running, Shown, Failed, Ordered, Opened, Closed, Answered, ResultsRan, AllErrors, OneAtATime;
    if message.stopReason == Length {
      results, events := FailTruncated(agent, message.calls, ended);
      terminate, ran := false, [];
      assert host.log + Rans(ran) == host.log;
    } else {
      var sequential := host.sequential;
      for i := 0 to |message.calls|
        invariant sequential <==>
                  host.sequential || exists k :: 0 <= k < i && host.runsAlone(tools, message.calls[k].name)
      {
        sequential := sequential || host.runsAlone(tools, message.calls[i].name);
      }
      if sequential {
        results, terminate, ran, events := ExecuteSequential(agent, message.calls, host, ended);
      } else {
        results, terminate, ran, events := ExecuteParallel(agent, message.calls, host, ended);
      }
    }
  }

  /** Stream the assistant's answer; the context ends with it, partial while it streams. */
  method StreamAssistant(agent: Agent, context: Context, host: Host, ghost ended: seq<Message>)
    returns (answer: Message, context': Context, ghost stream: seq<StreamEvent>, ghost said: seq<Event>)
    requires InTurn(agent, ended)
    modifies agent, host`log
    ensures answer.Assistant? && context' == Context(context.messages + [answer], context.tools)
    ensures host.log == old(host.log) + [Streamed(context, stream, answer)]
    ensures InTurn(agent, ended + [answer]) && agent.before == old(agent.before)
    ensures agent.pendingToolCalls == old(agent.pendingToolCalls)
    ensures agent.trace == old(agent.trace) + said && IsAnswer(said, answer) && Relays(said, stream, answer)
  {
    hide Ended, After, Running, Shown, Failed;
    var events;
    events, answer := host.Stream(context);
    var messages := context.messages;
    var added := false;
    var i := 0;
    said, stream := [], events;
    ghost var first := 0;
    while i < |events|
      invariant 0 <= i <= |events| && forall j | 0 <= j < i :: !events[j].Finish?
      invariant if added then first < i && events[first].Start? else forall j | 0 <= j < i :: !events[j].Start?
      invariant added ==> |said| == i - first && said[0] == MessageStart(events[first].partial)
      invariant added ==> forall j | 0 < j < i - first :: said[j] == MessageUpdate(events[first + j].partial)
      invariant agent.Valid() && After(agent.trace) == Turn(ended, added)
      invariant agent.before == old(agent.before) && agent.pendingToolCalls == old(agent.pendingToolCalls)
      invariant agent.trace == old(agent.trace) + said && Speaks(said, added)
      invariant host.log == old(host.log) + [Streamed(context, events, answer)]
      invariant if added then |messages| == |context.messages| + 1 && context.messages < messages
                else messages == context.messages
    {
      match events[i] {
        case Start(partial) =>
          messages := messages + [partial];
          added := true;
          first := i;
          agent.Emit(MessageStart(partial));
          said := said + [MessageStart(partial)];
        case Delta(partial) =>
          if added {
            messages := messages[|messages| - 1 := partial];
            agent.Emit(MessageUpdate(partial));
            said := said + [MessageUpdate(partial)];
          }
        case Finish => break;
      }
      i := i + 1;
    }
    if added {
      messages := messages[|messages| - 1 := answer];
    } else {
      messages := messages + [answer];
      agent.Emit(MessageStart(answer));
      said := said + [MessageStart(answer)];
    }
    assert messages == context.messages + [answer];
    agent.Emit(MessageEnd(answer));
    said := said + [MessageEnd(answer)];
    assert added ==> ShownFrom(said, events, answer, first, i);
    assert RelaysTo(said, events, answer, i);
    context' := Context(messages, context.tools);
  }

  /** An answer that streams */
  ghost predicate Speaks(said: seq<Event>, added: bool) {
    if !added then said == []
    else said != [] && said[0].MessageStart? && forall i | 0 < i < |said| :: said[i].MessageUpdate?
  }

  /** Between two turns, or inside the first one before its answer. */
  ghost predicate AtTurn(agent: Agent, newMessages: seq<Message>, completed: bool)
    reads agent
  {
    && agent.Valid() && agent.pendingToolCalls == {} && Ended(agent.trace) == newMessages
    && if completed then After(agent.trace) == Between else After(agent.trace).Turn? && !After(agent.trace).speaking
  }

  /** Emit complete messages one by one. */
  method SayAll(agent: Agent, messages: seq<Message>, ghost ended: seq<Message>)
    requires InTurn(agent, ended)
    modifies agent
    ensures InTurn(agent, ended + messages) && agent.before == old(agent.before)
    ensures agent.trace == old(agent.trace) + Announced(messages)
    ensures agent.pendingToolCalls == old(agent.pendingToolCalls)
  {
    hide Ended, After, Running, Shown, Failed, Announced;
    assert messages[..0] == [] && ended + [] == ended;
    AnnouncedNone();
    for i := 0 to |messages|
      invariant InTurn(agent, ended + messages[..i]) && agent.before == old(agent.before)
      invariant agent.trace == old(agent.trace) + Announced(messages[..i])
      invariant agent.pendingToolCalls == old(agent.pendingToolCalls)
    {
      agent.Say(messages[i]);
      assert messages[..i + 1] == messages[..i] + [messages[i]];
      assert ended + messages[..i + 1] == ended + messages[..i] + [messages[i]];
      AnnouncedNext(messages[..i], messages[i]);
    }
    assert messages[..|messages|] == messages;
  }

  /** The state of a run between two turns: see `AtBoundary`. */
  ghost predicate Ready(agent: Agent, host: Host, prompts: Option<seq<Message>>, initial: Context, context: Context,
                        pending: seq<Message>, given: seq<Message>, newMessages: seq<Message>, completed: bool)
    reads agent, host
  {
    && AtTurn(agent, newMessages, completed)
    && AtBoundary(agent.trace, host.log, prompts, initial, context, pending, given, completed, host.aborted)
  }

  /** The queues were asked as far as was needed after the turn before, or before the first one. */
  predicate QueuesAsked(t: Tally, completed: bool) {
    if completed then t.stage in {Polled, FollowedUp} && t.MayGoOn() else t.stage.Steered?
  }

  /** Let the hook prepare the next turn, and start it. */
  method PrepareTurn(agent: Agent, host: Host, context: Context, pending: seq<Message>)
    returns (context': Context, inputs: seq<Message>, ghost snapshot: Snapshot, ghost polled: Option<seq<Message>>)
    requires agent.Valid() && agent.pendingToolCalls == {} && After(agent.trace) == Between
    modifies agent, host`log
    ensures InTurn(agent, []) && agent.pendingToolCalls == {} && agent.before == old(agent.before)
    ensures agent.trace == old(agent.trace) + [TurnStart] && host.log == AskedNext(old(host.log), snapshot, polled)
    // Preparation can take long: steering queued meanwhile is polled, unless some was before.
    ensures polled.Some? <==> pending == []
    ensures inputs == snapshot.messages + if polled.Some? then polled.value else pending
    ensures context' == if snapshot.context.Some? then snapshot.context.value else context
  {
    hide Ended, After, Running, Shown, Failed;
    var prepared := host.PrepareNextTurn();
    context' := if prepared.context.Some? then prepared.context.value else context;
    var queued := pending;
    snapshot, polled := prepared, None;
    if |queued| == 0 {
      queued := host.GetSteeringMessages();
      polled := Some(queued);
    }
    inputs := prepared.messages + queued;
    agent.Emit(TurnStart);
  }

  /** Prepare a turn, up to its provider request. */
  method BeginTurn(agent: Agent, host: Host, context: Context, completed: bool, pending: seq<Message>,
                   newMessages: seq<Message>, ghost prompts: Option<seq<Message>>, ghost initial: Context,
                   ghost given: seq<Message>)
    returns (context': Context, newMessages': seq<Message>, ghost inputs: seq<Message>)
    requires Ready(agent, host, prompts, initial, context, pending, given, newMessages, completed)
    requires !completed ==> After(agent.trace) == Turn(given, false)
    requires QueuesAsked(Count(host.log, prompts), completed)
    modifies agent, host`log
    ensures InTurn(agent, inputs) && agent.pendingToolCalls == {} && agent.before == old(agent.before)
    ensures Ended(agent.trace) == newMessages' && newMessages <= newMessages'
    ensures Begun(agent.trace, host.log, prompts, initial, context', inputs, host.aborted)
    ensures Count(host.log, prompts).stage.Updated?
    ensures Count(host.log, prompts).exchanges == old(Count(host.log, prompts).exchanges)
  {
    hide Ended, After, Running, Shown, Failed, GetCurrentTools, Declared, SameTools, AtBoundary, Begun, Count,
         Announced, AskedNext, Carried;
    hide Tally.MayGoOn;
    var current, taken := context, pending;
    inputs := given;
    ghost var snapshot, polled;
    if completed {
      current, taken, snapshot, polled := PrepareTurn(agent, host, context, pending);
      inputs := [];
    }
    ghost var before := agent.trace;
    var added := DeclareToolChanges(current.messages, current.tools, taken);
    DeclaredCarries(current.messages, current.tools, taken);
    DeclaredReplaysIff(current.messages, current.tools, taken);
    SayAll(agent, added, inputs);
    assert [] + added == added;
    AnnouncedSays(added);
    EndedConcat(before, Announced(added));
    Appended(old(agent.trace), TurnStart);
    newMessages' := newMessages + added;
    var replacement := host.PrepareRequest();
    context' := if replacement.Some? then replacement.value else Context(current.messages + added, current.tools);
    if completed {
      BeginsNext(old(agent.trace), old(host.log), prompts, initial, context, pending, given, host.aborted, snapshot,
                 polled, added, replacement);
      inputs := added;
    } else {
      BeginsFirst(old(agent.trace), old(host.log), prompts, initial, context, pending, given, host.aborted, added,
                  replacement);
      inputs := given + added;
    }
  }

  /** How a turn ended: the run stops at once, or `Next` with whether the turn asked for one more request. */
  datatype TurnEnding = Stop | Next(hasMoreToolCalls: bool, continuation: bool)

  lemma EndsTurn(ended: seq<Message>, message: Message, results: seq<Message>)
    ensures Step(Turn(ended + [message] + results, false), TurnEnd(message, results)) == Between
  {
    var all := ended + [message] + results;
    assert all[|all| - |[message] + results|..] == [message] + results;
  }

  method EndTurn(agent: Agent, ghost ended: seq<Message>, message: Message, results: seq<Message>)
    requires agent.Valid() && After(agent.trace) == Turn(ended + [message] + results, false)
    modifies agent
    ensures agent.Valid() && agent.before == old(agent.before) && After(agent.trace) == Between
    ensures agent.trace == old(agent.trace) + [TurnEnd(message, results)]
    ensures agent.pendingToolCalls == old(agent.pendingToolCalls)
  {
    hide Ended, After, Running, Shown, Failed;
    EndsTurn(ended, message, results);
    agent.Emit(TurnEnd(message, results));
  }

  /** Get the answer, run its tools and end the turn. */
  method AnswerTurn(agent: Agent, host: Host, context: Context, newMessages: seq<Message>,
                    ghost prompts: Option<seq<Message>>, ghost initial: Context, ghost inputs: seq<Message>,
                    ghost given: seq<Message>)
    returns (context': Context, newMessages': seq<Message>, ending: TurnEnding)
    requires InTurn(agent, inputs) && agent.pendingToolCalls == {} && Ended(agent.trace) == newMessages
    requires Begun(agent.trace, host.log, prompts, initial, context, inputs, host.aborted)
    requires Count(host.log, prompts).stage.Updated?
    modifies agent, host
    ensures agent.before == old(agent.before) && newMessages <= newMessages'
    ensures Ready(agent, host, prompts, initial, context', [], given, newMessages', true)
    ensures var before, after := old(Count(host.log, prompts).exchanges), Count(host.log, prompts).exchanges;
            && |after| == |before| + 1 && after[..|before|] == before
            && EndsWithTurn(after[|before|], ending)
    ensures Count(host.log, prompts).stage.Ending?
  {
    hide Ended, After, Running, Shown, Failed, Step, IsBatch, Begun, AtBoundary, Count, IsAnswer, Relays, ResultsRan,
         Rans, IsToolPart, Ordered;
    var answer, context1;
    ghost var stream, said;
    answer, context1, stream, said := StreamAssistant(agent, context, host, inputs);
    var results: seq<Message> := [];
    ghost var batch: seq<Event>, ran: seq<Outcome>, decision: Option<Decision>;
    var hasMoreToolCalls := false;
    batch, ran := [], [];
    NoBatch(answer);
    assert old(agent.trace) + said + batch == agent.trace && host.log + Rans(ran) == host.log;
    if Refused(answer) {
      decision := host.FinishTurn();
      ending := Stop;
    } else {
      if |answer.calls| > 0 {
        var terminate;
        results, terminate, ran, batch := RunTools(agent, context.tools, answer, host, inputs + [answer]);
        hasMoreToolCalls := !terminate;
      }
      var decided := host.FinishTurn();
      decision := decided;
      ending :=
        if decided == Some(Decision.End) then Stop
        else Next(hasMoreToolCalls, decided == Some(Decision.Continue));
    }
    assert agent.trace == old(agent.trace) + said + batch;
    EndTurn(agent, inputs, answer, results);
    newMessages' := newMessages + [answer] + results;
    context' := Context(context1.messages + results, context1.tools);
    assert agent.trace == Telling(old(agent.trace), said, batch, answer, results);
    assert host.log == Asking(old(host.log), context, stream, answer, ran, decision);
    ToldSays(old(agent.trace), said, batch, answer, results);
    AskedCounts(old(host.log), prompts, context, stream, answer, ran, decision);
    TurnEnded(old(agent.trace), old(host.log), prompts, initial, context, inputs, given, old(host.aborted),
              host.aborted, said, batch, stream, answer, results, ran, decision);
    assert context.messages + [answer] + results == context.messages + ([answer] + results);
    assert newMessages + [answer] + results == newMessages + ([answer] + results);
  }

  /** No calls, or an error: nothing ran. */
  lemma NoBatch(answer: Message)
    requires answer.Assistant?
    ensures Ended([]) == [] && Ordered([]) && Rans([]) == []
    ensures Refused(answer) || answer.calls == [] ==>
              forall x: Exchange, aborted: bool | x.answer == answer && x.outcomes == [] ::
                 IsToolPart(x, [], [], aborted)
  {
    EmptyBatch(answer.calls);
    ResultsNone();
    ResultsInOrder([], []);
  }

  /** What the turn asks for is what it returns. */
  predicate EndsWithTurn(x: Exchange, ending: TurnEnding) {
    && !x.queued
    && (ending.Stop? <==> Stops(x))
    && (ending.Next? ==> ending == Next(AsksMore(x), x.decision == Some(Decision.Continue)))
  }

  // ---------------------------------------------------------------- the loop

  /** The run ended, with `agent_end` as its last event. */
  ghost predicate RunEnded(agent: Agent, newMessages: seq<Message>)
    reads agent
  {
    && After(agent.trace) == Done
    && agent.trace != [] && agent.trace[|agent.trace| - 1] == AgentEnd(newMessages)
    && agent.messages == agent.before + newMessages
  }

  method EndRun(agent: Agent, newMessages: seq<Message>)
    requires agent.Valid() && After(agent.trace) == Between && Ended(agent.trace) == newMessages
    modifies agent
    ensures agent.Valid() && agent.before == old(agent.before) && RunEnded(agent, newMessages)
    ensures agent.trace == old(agent.trace) + [AgentEnd(newMessages)]
    ensures Ended(agent.trace) == newMessages && agent.pendingToolCalls == old(agent.pendingToolCalls)
  {
    hide Ended, Running, Shown, Failed;
    agent.Emit(AgentEnd(newMessages));
  }

  /** What a run that began with `initial` and `prompts` has done, by its trace, its state and its host's log. */
  ghost predicate RunState(agent: Agent, host: Host, prompts: Option<seq<Message>>, initial: Context, finished: bool,
                           newMessages: seq<Message>)
    reads agent, host
  {
    && agent.Valid() && agent.pendingToolCalls == {}
    && agent.messages == agent.before + newMessages && Ended(agent.trace) == newMessages
    && (finished <==> After(agent.trace) == Done)
    && (finished ==> RunEnded(agent, newMessages))
    && Reports(agent.trace, host.log, prompts, initial, finished, host.aborted)
  }

  /** The last of the turns just ended, and asks for what `ending` says. */
  ghost predicate TurnOver(exchanges: seq<Exchange>, ending: TurnEnding) {
    && exchanges != [] && EndsWithTurn(exchanges[|exchanges| - 1], ending)
    && Followed(exchanges[..|exchanges| - 1], false)
  }

  /** The run may go on after a turn exactly as the turn asks, or else as the steering queue does. */
  lemma TurnFollowed(t: Tally, exchanges: seq<Exchange>, ending: TurnEnding, messages: seq<Message>)
    requires TurnOver(exchanges, ending) && ending.Next? && t.stage.Polled?
             && t.exchanges == Queued(exchanges, messages)
    ensures if ending.hasMoreToolCalls || messages != [] then t.MayGoOn() && Followed(t.exchanges, false)
            else Rests(t.Last()) && AtRest(t.Last(), ending.continuation) && Followed(t.exchanges, !ending.continuation)
  {
    hide Stops, AsksMore;
    var n := |exchanges| - 1;
    TurnAdded(exchanges[..n], exchanges[n]);
    assert exchanges == exchanges[..n] + [exchanges[n].(queued := false)];
    assert exchanges[n := exchanges[n].(queued := true)] == exchanges[..n] + [exchanges[n].(queued := true)];
  }

  /** A turn that rests is followed exactly because of follow-ups or of its own continuation. */
  lemma RestFollowed(t: Tally, exchanges: seq<Exchange>, continuation: bool, messages: seq<Message>)
    requires exchanges != [] && Followed(exchanges, !continuation) && AtRest(exchanges[|exchanges| - 1], continuation)
    requires t.stage.FollowedUp? && t.exchanges == Queued(exchanges, messages)
    ensures if messages != [] || continuation then t.MayGoOn() && Followed(t.exchanges, false)
            else t.exchanges == exchanges && Followed(t.exchanges, true) && !Stops(t.Last())
  {
    hide Stops, AsksMore;
    TurnQueued(exchanges, continuation);
  }

  lemma TurnStopped(exchanges: seq<Exchange>, ending: TurnEnding)
    requires TurnOver(exchanges, ending) && ending.Stop?
    ensures Followed(exchanges, true) && Stops(exchanges[|exchanges| - 1])
  {
    hide Stops, AsksMore;
    var n := |exchanges| - 1;
    TurnAdded(exchanges[..n], exchanges[n]);
    assert exchanges == exchanges[..n] + [exchanges[n].(queued := false)];
  }

  lemma OverOnly(exchanges: seq<Exchange>, ending: TurnEnding)
    requires TurnOver(exchanges, ending)
    ensures exchanges != [] && (ending.Stop? <==> Stops(exchanges[|exchanges| - 1]))
  {
  }

  lemma FirstFollowed(agent: Agent, host: Host, prompts: Option<seq<Message>>, initial: Context, start: Context,
                      given: seq<Message>)
    requires Ready(agent, host, prompts, initial, start, [], given, given, false)
    ensures Count(host.log, prompts).exchanges == [] && Followed([], false)
  {
    hide Count;
    NoTurns();
  }

  /** One turn, from its preparation to its end. */
  method RunTurn(agent: Agent, host: Host, context: Context, completed: bool, pending: seq<Message>,
                 newMessages: seq<Message>, ghost prompts: Option<seq<Message>>, ghost initial: Context,
                 ghost given: seq<Message>)
    returns (context': Context, newMessages': seq<Message>, ending: TurnEnding)
    requires Ready(agent, host, prompts, initial, context, pending, given, newMessages, completed)
    requires !completed ==> After(agent.trace) == Turn(given, false)
    requires QueuesAsked(Count(host.log, prompts), completed)
    requires Followed(Count(host.log, prompts).exchanges, false)
    modifies agent, host
    ensures agent.before == old(agent.before) && newMessages <= newMessages'
    ensures Ready(agent, host, prompts, initial, context', [], given, newMessages', true)
    ensures TurnOver(Count(host.log, prompts).exchanges, ending) && Count(host.log, prompts).stage.Ending?
    ensures |Count(host.log, prompts).exchanges| == old(|Count(host.log, prompts).exchanges|) + 1
  {
    hide Ended, After, Running, Shown, Failed, Count, AtBoundary, Begun, Followed, EndsWithTurn;
    var begun, messages;
    ghost var inputs;
    begun, messages, inputs :=
      BeginTurn(agent, host, context, completed, pending, newMessages, prompts, initial, given);
    context', newMessages', ending := AnswerTurn(agent, host, begun, messages, prompts, initial, inputs, given);
  }

  /** The last turn, if there is one, is one after which messages were queued. */
  function Queued(exchanges: seq<Exchange>, messages: seq<Message>): (r: seq<Exchange>)
    ensures |r| == |exchanges|
  {
    if messages == [] || exchanges == [] then exchanges
    else exchanges[|exchanges| - 1 := exchanges[|exchanges| - 1].(queued := true)]
  }

  method PollSteering(agent: Agent, host: Host, context: Context, newMessages: seq<Message>, completed: bool,
                      ghost prompts: Option<seq<Message>>, ghost initial: Context, ghost given: seq<Message>)
    returns (messages: seq<Message>)
    requires Ready(agent, host, prompts, initial, context, [], given, newMessages, completed)
    requires var t := Count(host.log, prompts); t.stage.Unasked? || (t.stage.Ending? && !Stops(t.Last()))
    modifies host`log
    ensures Ready(agent, host, prompts, initial, context, messages, given, newMessages, completed)
    ensures Count(host.log, prompts).stage == if completed then Polled else Steered
    ensures Count(host.log, prompts).exchanges == Queued(old(Count(host.log, prompts).exchanges), messages)
  {
    hide Ended, After, Running, Shown, Failed, Count, AtBoundary;
    messages := host.GetSteeringMessages();
    HandedOver(agent.trace, old(host.log), prompts, initial, context, given, completed, host.aborted,
               Steering(messages), messages);
  }

  method PollFollowUps(agent: Agent, host: Host, context: Context, newMessages: seq<Message>,
                       ghost prompts: Option<seq<Message>>, ghost initial: Context, ghost given: seq<Message>)
    returns (messages: seq<Message>)
    requires Ready(agent, host, prompts, initial, context, [], given, newMessages, true)
    requires var t := Count(host.log, prompts); t.stage.Polled? && t.exchanges != [] && Rests(t.Last())
    modifies host`log
    ensures Ready(agent, host, prompts, initial, context, messages, given, newMessages, true)
    ensures Count(host.log, prompts).stage.FollowedUp?
    ensures Count(host.log, prompts).exchanges == Queued(old(Count(host.log, prompts).exchanges), messages)
  {
    hide Ended, After, Running, Shown, Failed, Count, AtBoundary;
    messages := host.GetFollowUpMessages();
    HandedOver(agent.trace, old(host.log), prompts, initial, context, given, true, host.aborted, FollowUp(messages),
               messages);
  }

  /** A run whose last turn is followed by nothing ends. */
  method FinishRun(agent: Agent, host: Host, context: Context, newMessages: seq<Message>,
                   ghost prompts: Option<seq<Message>>, ghost initial: Context, ghost given: seq<Message>)
    requires Ready(agent, host, prompts, initial, context, [], given, newMessages, true)
    requires Followed(Count(host.log, prompts).exchanges, true) && Count(host.log, prompts).exchanges != []
    requires Count(host.log, prompts).stage == if Stops(Count(host.log, prompts).Last()) then Ending else FollowedUp
    modifies agent
    ensures agent.before == old(agent.before) && RunState(agent, host, prompts, initial, true, newMessages)
  {
    hide Ended, After, Running, Shown, Failed, Count, AtBoundary, Followed, Reports, Stops;
    RunReports(agent.trace, host.log, prompts, initial, context, [], given, true, host.aborted, newMessages);
    EndRun(agent, newMessages);
  }

  /** A run may be left between two turns. */
  lemma RunUnfinished(agent: Agent, host: Host, prompts: Option<seq<Message>>, initial: Context, context: Context,
                      pending: seq<Message>, given: seq<Message>, newMessages: seq<Message>, completed: bool)
    requires Ready(agent, host, prompts, initial, context, pending, given, newMessages, completed)
    requires Followed(Count(host.log, prompts).exchanges, false)
    ensures RunState(agent, host, prompts, initial, false, newMessages)
  {
    hide Ended, Running, Shown, Failed, Count, AtBoundary, Followed, Reports, After;
    RunReports(agent.trace, host.log, prompts, initial, context, pending, given, completed, host.aborted, newMessages);
  }

  /** The loop. `finished` is false only when `fuel` provider requests did not end the run. */
  method RunLoop(agent: Agent, host: Host, start: Context, given: seq<Message>, fuel: nat,
                 ghost prompts: Option<seq<Message>>, ghost initial: Context)
    returns (finished: bool, newMessages: seq<Message>)
    requires Ready(agent, host, prompts, initial, start, [], given, given, false)
             && After(agent.trace) == Turn(given, false)
    requires Count(host.log, prompts).stage.Unasked?
    modifies agent, host
    ensures agent.before == old(agent.before) && given <= newMessages
    ensures RunState(agent, host, prompts, initial, finished, newMessages)
    ensures !finished ==> |Count(host.log, prompts).exchanges| == fuel
  {
    hide Ended, After, Running, Shown, Failed, Count, AtBoundary, Followed, AtRest, Rests, TurnOver, Stops, Ready,
         RunState, Tally.MayGoOn;
    FirstFollowed(agent, host, prompts, initial, start, given);
    var context := start;
    var left: nat := fuel;
    var completed := false;
    var explicitContinuation := false;
    newMessages := given;
    var pendingMessages := PollSteering(agent, host, context, newMessages, completed, prompts, initial, given);
    while true
      invariant Ready(agent, host, prompts, initial, context, pendingMessages, given, newMessages, completed)
      invariant agent.before == old(agent.before) && given <= newMessages
      invariant !completed ==> After(agent.trace) == Turn(given, false)
      invariant Followed(Count(host.log, prompts).exchanges, false) && QueuesAsked(Count(host.log, prompts), completed)
      invariant |Count(host.log, prompts).exchanges| + left == fuel
      decreases left, 1
    {
      var hasMoreToolCalls := true;
      ghost var left0 := left;
      while hasMoreToolCalls || |pendingMessages| > 0
        invariant Ready(agent, host, prompts, initial, context, pendingMessages, given, newMessages, completed)
        invariant agent.before == old(agent.before) && given <= newMessages
        invariant !completed ==> After(agent.trace) == Turn(given, false)
        invariant |Count(host.log, prompts).exchanges| + left == fuel
        invariant left <= left0 && (left == left0 ==> hasMoreToolCalls) && (left < left0 ==> completed)
        invariant var t := Count(host.log, prompts);
                  if hasMoreToolCalls || |pendingMessages| > 0 then
                    QueuesAsked(t, completed) && Followed(t.exchanges, false)
                  else
                    && t.stage.Polled? && t.exchanges != [] && Rests(t.Last())
                    && AtRest(t.Last(), explicitContinuation) && Followed(t.exchanges, !explicitContinuation)
        decreases left
      {
        if left == 0 {
          RunUnfinished(agent, host, prompts, initial, context, pendingMessages, given, newMessages, completed);
          return false, newMessages;
        }
        left := left - 1;
        var ending;
        context, newMessages, ending :=
          RunTurn(agent, host, context, completed, pendingMessages, newMessages, prompts, initial, given);
        completed := true;
        ghost var exchanges := Count(host.log, prompts).exchanges;
        OverOnly(exchanges, ending);
        if ending.Stop? {
          TurnStopped(exchanges, ending);
          FinishRun(agent, host, context, newMessages, prompts, initial, given);
          return true, newMessages;
        }
        hasMoreToolCalls := ending.hasMoreToolCalls;
        explicitContinuation := ending.continuation;
        pendingMessages := PollSteering(agent, host, context, newMessages, completed, prompts, initial, given);
        TurnFollowed(Count(host.log, prompts), exchanges, ending, pendingMessages);
        if hasMoreToolCalls || |pendingMessages| > 0 {
          explicitContinuation := false;
        }
      }
      // The agent would stop here: look for follow-up messages.
      ghost var exchanges := Count(host.log, prompts).exchanges;
      var followUpMessages := PollFollowUps(agent, host, context, newMessages, prompts, initial, given);
      RestFollowed(Count(host.log, prompts), exchanges, explicitContinuation, followUpMessages);
      if |followUpMessages| > 0 {
        explicitContinuation := false;
        pendingMessages := followUpMessages;
        continue;
      }
      if explicitContinuation {
        explicitContinuation := false;
        continue;
      }
      break;
    }
    FinishRun(agent, host, context, newMessages, prompts, initial, given);
    return true, newMessages;
  }

  /** Start a run with new messages. `host` has logged nothing yet. */
  method RunAgentLoop(prompts: seq<Message>, context: Context, host: Host, fuel: nat)
    returns (agent: Agent, finished: bool, newMessages: seq<Message>)
    requires host.log == []
    modifies host
    ensures fresh(agent) && agent.before == context.messages
    ensures RunState(agent, host, Some(prompts), context, finished, newMessages)
    ensures !finished ==> |Count(host.log, Some(prompts)).exchanges| == fuel
  {
    hide Ended, Running, Shown, Failed, AtBoundary, Declared, Reports, Turns, Announced, Carried;
    agent := new Agent(context.messages);
    var initialMessages := DeclareToolChanges(context.messages, context.tools, prompts);
    DeclaredCarries(context.messages, context.tools, prompts);
    NothingYet();
    agent.Emit(AgentStart);
    agent.Emit(TurnStart);
    ghost var began := agent.trace;
    SayAll(agent, initialMessages, []);
    assert [] + initialMessages == initialMessages;
    AnnouncedSays(initialMessages);
    EndedConcat(began, Announced(initialMessages));
    assert [] + [AgentStart] + [TurnStart] == [AgentStart, TurnStart];
    var current := Context(context.messages + initialMessages, context.tools);
    BeginsRun(began, Some(prompts), context, initialMessages, host.aborted);
    finished, newMessages := RunLoop(agent, host, current, initialMessages, fuel, Some(prompts), context);
  }

  /** Start a run from the context as it is; `None` where the source throws. */
  method RunAgentLoopContinue(context: Context, host: Host, fuel: nat)
    returns (agent: Option<Agent>, finished: bool, newMessages: seq<Message>)
    requires host.log == []
    modifies host
    ensures agent.None? <==> context.messages == [] || context.messages[|context.messages| - 1].Assistant?
    ensures agent.None? ==> host.log == []
    ensures agent.Some? ==> fresh(agent.value) && agent.value.before == context.messages
    ensures agent.Some? ==> RunState(agent.value, host, None, context, finished, newMessages)
    ensures agent.Some? && !finished ==> |Count(host.log, None).exchanges| == fuel
  {
    hide Ended, Running, Shown, Failed, AtBoundary, Reports, Turns, Announced;
    finished, newMessages := false, [];
    if |context.messages| == 0 || context.messages[|context.messages| - 1].Assistant? {
      return None, finished, newMessages;
    }
    var started := new Agent(context.messages);
    NothingYet();
    started.Emit(AgentStart);
    started.Emit(TurnStart);
    assert [] + [AgentStart] + [TurnStart] == [AgentStart, TurnStart];
    AnnouncedNone();
    assert started.trace + Announced([]) == started.trace && context.messages + [] == context.messages;
    BeginsRun(started.trace, None, context, [], host.aborted);
    finished, newMessages := RunLoop(started, host, context, [], fuel, None, context);
    agent := Some(started);
  }

  lemma NothingYet()
    ensures Ended([]) == [] && Turns([AgentStart, TurnStart]) == [[]]
  {
    TurnsNext([], AgentStart);
    TurnsNext([AgentStart], TurnStart);
    assert [] + [AgentStart] == [AgentStart] && [AgentStart] + [TurnStart] == [AgentStart, TurnStart];
  }

  /** A run that has announced the messages it begins with */
  lemma BeginsRun(trace: seq<Event>, prompts: Option<seq<Message>>, context: Context, given: seq<Message>,
                  aborted: bool)
    requires Turns(trace) == [[]] && Begins(prompts, given)
    ensures AtBoundary(trace + Announced(given), [], prompts, context, Context(context.messages + given, context.tools),
                       [], given, false, aborted)
  {
    hide Turns, Announced, Begins;
    TurnsAnnounced(trace, given);
    assert [] + Announced(given) == Announced(given);
  }
}
