/** The agent loop's tool batches: one call after the other, or all at once. */
module AgentLoop {
  import opened ToolState
  import opened AgentTrace
  import opened AgentHost

  // ---------------------------------------------------------------- emitting

  /** What one more event adds. */
  lemma Appended(events: seq<Event>, e: Event)
    ensures Ended(events + [e]) == if e.MessageEnd? then Ended(events) + [e.message] else Ended(events)
    ensures Opened(events + [e]) == if e.ToolStart? then Opened(events) + [e.id] else Opened(events)
    ensures Closed(events + [e]) == if e.ToolEnd? then Closed(events) + [e.id] else Closed(events)
    ensures Ends(events + [e]) == if e.ToolEnd? then Ends(events) + [(e.id, e.isError)] else Ends(events)
    ensures Answered(events + [e]) ==
            if e.MessageStart? && e.message.ToolResult? then Answered(events) + [e.message.callId]
                                      else Answered(events)
    ensures Ordered(events + [e]) <==>
            && Ordered(events) && Inner(e)
            && Among(Answered(events + [e]), Closed(events + [e])) && Among(Closed(events + [e]), Opened(events + [e]))
  {
    assert (events + [e])[..|events|] == events;
  }

  function ResultMessage(outcome: Outcome): Message {
    ToolResult(outcome.call.id, outcome.isError, outcome.body)
  }

  /** Inside a turn, between messages. */
  ghost predicate InTurn(agent: Agent, ended: seq<Message>)
    reads agent
  {
    agent.Valid() && After(agent.trace) == Turn(ended, false)
  }

  /** Emit an event about a running tool, which is part of the batch `events`. */
  method EmitTool(agent: Agent, e: Event, ghost events: seq<Event>, ghost ended: seq<Message>)
    returns (ghost events': seq<Event>)
    requires InTurn(agent, ended) && (e.ToolStart? || e.ToolUpdate? || e.ToolEnd?)
    modifies agent
    ensures InTurn(agent, ended) && agent.before == old(agent.before)
    ensures events' == events + [e] && agent.trace == old(agent.trace) + [e]
    ensures Ended(events') == Ended(events) && Answered(events') == Answered(events)
    ensures Opened(events') == if e.ToolStart? then Opened(events) + [e.id] else Opened(events)
    ensures Closed(events') == if e.ToolEnd? then Closed(events) + [e.id] else Closed(events)
    ensures Ends(events') == if e.ToolEnd? then Ends(events) + [(e.id, e.isError)] else Ends(events)
    ensures Ordered(events) && (e.ToolEnd? ==> Among(Closed(events'), Opened(events))) ==> Ordered(events')
    ensures OneAtATime(events') <==>
            OneAtATime(events) && (e.ToolStart? ==> Answered(events) == Opened(events))
    ensures agent.pendingToolCalls == if e.ToolStart? then old(agent.pendingToolCalls) + {e.id}
                                      else if e.ToolEnd? then old(agent.pendingToolCalls) - {e.id}
                                      else old(agent.pendingToolCalls)
  {
    hide Ended, Ends, Running, Shown, Failed, After, OneAtATime;
    agent.Emit(e);
    events' := events + [e];
    Appended(events, e);
    OneMore(events, e);
  }

  // ---------------------------------------------------------------- tool batches

  /** The outcomes `b` are those of `a`, in any order. */
  ghost predicate Reordered(a: seq<Outcome>, b: seq<Outcome>) {
    multiset(a) == multiset(b)
  }

  /** Every call that started before another was answered before that one starts. */
  ghost predicate OneAtATime(events: seq<Event>) {
    forall i | 0 <= i < |events| && events[i].ToolStart? :: Answered(events[..i]) == Opened(events[..i])
  }

  lemma OneMore(events: seq<Event>, e: Event)
    ensures OneAtATime(events + [e]) <==>
            OneAtATime(events) && (e.ToolStart? ==> Answered(events) == Opened(events))
  {
    hide Answered, Opened;
    var all := events + [e];
    assert all[..|events|] == events;
    assert forall i | 0 <= i < |events| :: all[i] == events[i] && all[..i] == events[..i];
  }

  /** The order does not matter for the decision. */
  lemma ReorderedTerminates(a: seq<Outcome>, b: seq<Outcome>)
    requires Reordered(a, b)
    ensures ShouldTerminateToolBatch(a) <==> ShouldTerminateToolBatch(b)
  {
    assert |a| == |multiset(a)| == |multiset(b)| == |b|;
    assert forall o :: o in a <==> o in multiset(a);
    assert forall o :: o in b <==> o in multiset(b);
  }

  /** The results answer the calls whose outcomes the host logged, in the order in which they ended, as `ran`. */
  ghost predicate ResultsRan(results: seq<Message>, ran: seq<Outcome>) {
    exists ordered :: Reordered(ordered, ran) && ResultsOf(results, ordered)
  }

  /** The results are those of the outcomes, one each and in order. */
  predicate ResultsOf(results: seq<Message>, outcomes: seq<Outcome>) {
    && |results| == |outcomes|
    && forall i | 0 <= i < |results| ::
         results[i] == ToolResult(outcomes[i].call.id, outcomes[i].isError, outcomes[i].body)
  }

  /** How the outcomes ended, in their order */
  function EndsOf(outcomes: seq<Outcome>): seq<(string, bool)> {
    seq(|outcomes|, i requires 0 <= i < |outcomes| => (outcomes[i].call.id, outcomes[i].isError))
  }

  lemma EndsOfNext(outcomes: seq<Outcome>, outcome: Outcome)
    ensures EndsOf(outcomes + [outcome]) == EndsOf(outcomes) + [(outcome.call.id, outcome.isError)]
    ensures EndsOf([]) == []
  {
  }

  /** A finished batch: see `IsBatch`. Only an abort leaves calls unanswered, and no call is left running. */
  ghost predicate BatchDone(agent: Agent, ended: seq<Message>, events: seq<Event>, calls: seq<ToolCall>,
                            results: seq<Message>, aborted: bool)
    reads agent
  {
    && InTurn(agent, ended + results) && agent.pendingToolCalls == {}
    && IsBatch(events, calls, results)
    && (|results| == |calls| || (aborted && results != []))
  }

  /** A tool that runs reports progress any number of times. */
  method EmitUpdates(agent: Agent, id: string, ghost events: seq<Event>, ghost ended: seq<Message>)
    returns (ghost events': seq<Event>)
    requires InTurn(agent, ended)
    modifies agent
    ensures InTurn(agent, ended) && agent.before == old(agent.before)
    ensures events <= events' && agent.trace == old(agent.trace) + events'[|events|..]
    ensures Ended(events') == Ended(events) && Answered(events') == Answered(events)
    ensures Opened(events') == Opened(events) && Closed(events') == Closed(events) && Ends(events') == Ends(events)
    ensures (Ordered(events) ==> Ordered(events')) && (OneAtATime(events) ==> OneAtATime(events'))
    ensures agent.pendingToolCalls == old(agent.pendingToolCalls)
  {
    hide Ended, Ends, Answered, Opened, Closed, Ordered, After, Running, Shown, Failed, OneAtATime;
    events' := events;
    var updates: nat := *;
    while updates > 0
      invariant InTurn(agent, ended) && agent.before == old(agent.before)
      invariant events <= events' && agent.trace == old(agent.trace) + events'[|events|..]
      invariant Ended(events') == Ended(events) && Answered(events') == Answered(events)
      invariant Opened(events') == Opened(events) && Closed(events') == Closed(events) && Ends(events') == Ends(events)
      invariant (Ordered(events) ==> Ordered(events')) && (OneAtATime(events) ==> OneAtATime(events'))
      invariant agent.pendingToolCalls == old(agent.pendingToolCalls)
    {
      events' := EmitTool(agent, ToolUpdate(id), events', ended);
      updates := updates - 1;
    }
  }

  /** Emit the result message of a call that ended. */
  method EmitToolResult(agent: Agent, outcome: Outcome, ghost events: seq<Event>, ghost ended: seq<Message>)
    returns (result: Message, ghost events': seq<Event>)
    requires InTurn(agent, ended)
    modifies agent
    ensures result == ResultMessage(outcome)
    ensures InTurn(agent, ended + [result]) && agent.before == old(agent.before)
    ensures events' == events + [MessageStart(result), MessageEnd(result)]
    ensures agent.trace == old(agent.trace) + [MessageStart(result), MessageEnd(result)]
    ensures Ended(events') == Ended(events) + [result] && Answered(events') == Answered(events) + [result.callId]
    ensures Opened(events') == Opened(events) && Closed(events') == Closed(events) && Ends(events') == Ends(events)
    ensures Ordered(events) && Among(Answered(events'), Closed(events)) && Among(Closed(events), Opened(events))
            ==> Ordered(events')
    ensures OneAtATime(events) ==> OneAtATime(events')
    ensures agent.pendingToolCalls == old(agent.pendingToolCalls)
  {
    hide Ended, Ends, Answered, Opened, Closed, Ordered, Among, After, Running, Shown, Failed, OneAtATime;
    OneMore(events, MessageStart(ResultMessage(outcome)));
    OneMore(events + [MessageStart(ResultMessage(outcome))], MessageEnd(ResultMessage(outcome)));
    result := ResultMessage(outcome);
    agent.Say(result);
    events' := events + [MessageStart(result), MessageEnd(result)];
    Appended(events, MessageStart(result));
    Appended(events + [MessageStart(result)], MessageEnd(result));
    assert events + [MessageStart(result)] + [MessageEnd(result)] == events';
  }

  /** Start one call, run it to its end and emit its result. */
  method RunOneCall(agent: Agent, call: ToolCall, host: Host, ghost events: seq<Event>, ghost ended: seq<Message>)
    returns (outcome: Outcome, result: Message, ghost events': seq<Event>)
    requires InTurn(agent, ended) && agent.pendingToolCalls == {}
    requires Ordered(events) && Answered(events) == Opened(events) && Same(Closed(events), Opened(events))
    modifies agent, host
    ensures outcome.call == call && result == ResultMessage(outcome)
    ensures InTurn(agent, ended + [result]) && agent.pendingToolCalls == {}
    ensures agent.before == old(agent.before)
    ensures events <= events' && agent.trace == old(agent.trace) + events'[|events|..]
    ensures Ordered(events') && Ended(events') == Ended(events) + [result]
    ensures Answered(events') == Opened(events') == Opened(events) + [call.id]
    ensures Same(Closed(events'), Opened(events'))
    ensures Ends(events') == Ends(events) + [(call.id, outcome.isError)]
    ensures OneAtATime(events) ==> OneAtATime(events')
    ensures old(host.aborted) ==> host.aborted
    ensures host.late == old(host.late) + if old(host.aborted) then 1 else 0
    ensures host.log == old(host.log) + [Ran(outcome)]
  {
    hide Ended, Ends, Answered, Opened, Closed, Ordered, After, Running, Shown, Failed, Among, Same, OneAtATime;
    SameMore(Closed(events), Opened(events), call.id);
    events' := EmitTool(agent, ToolStart(call.id), events, ended);
    var preparation;
    ghost var invalid, rejected;
    preparation, invalid, rejected := host.PrepareToolCall(call);
    if preparation.Immediate? {
      outcome := preparation.outcome;
    } else {
      events' := EmitUpdates(agent, call.id, events', ended);
      outcome := host.Execute(call);
    }
    events' := EmitTool(agent, ToolEnd(call.id, outcome.isError), events', ended);
    result, events' := EmitToolResult(agent, outcome, events', ended);
  }

  /** Start one call and answer it with an error, without running it. */
  method FailOneCall(agent: Agent, call: ToolCall, ghost events: seq<Event>, ghost ended: seq<Message>)
    returns (result: Message, ghost events': seq<Event>)
    requires InTurn(agent, ended) && agent.pendingToolCalls == {}
    requires Ordered(events) && Answered(events) == Opened(events) && Same(Closed(events), Opened(events))
    modifies agent
    ensures result.ToolResult? && result.callId == call.id && result.isError
    ensures InTurn(agent, ended + [result]) && agent.pendingToolCalls == {}
    ensures agent.before == old(agent.before)
    ensures events <= events' && agent.trace == old(agent.trace) + events'[|events|..]
    ensures Ordered(events') && Ended(events') == Ended(events) + [result]
    ensures Answered(events') == Opened(events') == Opened(events) + [call.id]
    ensures Same(Closed(events'), Opened(events'))
    ensures Ends(events') == Ends(events) + [(call.id, true)]
    ensures OneAtATime(events) ==> OneAtATime(events')
  {
    hide Ended, Ends, Answered, Opened, Closed, Ordered, After, Running, Shown, Failed, Among, Same, OneAtATime;
    SameMore(Closed(events), Opened(events), call.id);
    events' := EmitTool(agent, ToolStart(call.id), events, ended);
    events' := EmitTool(agent, ToolEnd(call.id, true), events', ended);
    result, events' := EmitToolResult(agent, Outcome(call, false, true, 0), events', ended);
  }

  method ExecuteSequential(agent: Agent, calls: seq<ToolCall>, host: Host, ghost ended: seq<Message>)
    returns (results: seq<Message>, terminate: bool, ghost ran: seq<Outcome>, ghost events: seq<Event>)
    requires InTurn(agent, ended) && agent.pendingToolCalls == {}
    modifies agent, host
    ensures agent.before == old(agent.before) && agent.trace == old(agent.trace) + events
    ensures BatchDone(agent, ended, events, calls, results, host.aborted)
    ensures host.log == old(host.log) + Rans(ran) && (old(host.aborted) ==> host.aborted)
    ensures ResultsRan(results, ran) && Ends(events) == EndsOf(ran)
    ensures terminate <==> ran != [] && forall i | 0 <= i < |ran| :: ran[i].terminate
    // A call is answered before the next one starts; once the run was aborted none is started but the first.
    ensures OneAtATime(events)
    ensures host.late == old(host.late) + if old(host.aborted) && calls != [] then 1 else 0
  {
    NothingStarted();
    hide Ended, Ends, Answered, Opened, Closed, Ordered, After, Running, Shown, Failed, ResultsOf, ResultsRan, EndsOf,
         OneAtATime;
    ResultsNone();
    results, events := [], [];
    var finalized: seq<Outcome> := [];
    assert host.log + Rans(finalized) == host.log;
    EmptyBatch(calls);
    EndsOfNext([], Outcome(ToolCall("", ""), false, false, 0));
    assert ended + [] == ended;
    for i := 0 to |calls|
      invariant InTurn(agent, ended + results) && agent.pendingToolCalls == {}
      invariant agent.before == old(agent.before) && agent.trace == old(agent.trace) + events
      invariant |results| == i && IsBatch(events, calls, results) && ResultsOf(results, finalized)
      invariant host.log == old(host.log) + Rans(finalized) && (old(host.aborted) ==> host.aborted)
      invariant Ends(events) == EndsOf(finalized) && (host.aborted ==> i == 0 && old(host.aborted))
      invariant host.late == old(host.late) && OneAtATime(events)
    {
      ghost var events0, results0 := events, results;
      var outcome, result;
      outcome, result, events := RunOneCall(agent, calls[i], host, events, ended + results);
      RansNext(old(host.log), finalized, Some(outcome));
      ResultsMore(results, finalized, outcome);
      EndsOfNext(finalized, outcome);
      finalized := finalized + [outcome];
      results := results + [result];
      BatchGrows(events0, events, calls, results0, result);
      assert ended + results == ended + results0 + [result];
      var aborted := host.Poll();
      if aborted {
        break;
      }
    }
    ran := finalized;
    ResultsInOrder(results, finalized);
    terminate := ShouldTerminateToolBatch(finalized);
  }

  lemma NothingStarted()
    ensures OneAtATime([])
  {
  }

  lemma ResultsNone()
    ensures ResultsOf([], [])
  {
  }

  lemma ResultsMore(results: seq<Message>, outcomes: seq<Outcome>, outcome: Outcome)
    requires ResultsOf(results, outcomes)
    ensures ResultsOf(results + [ResultMessage(outcome)], outcomes + [outcome])
  {
  }

  lemma ResultsInOrder(results: seq<Message>, outcomes: seq<Outcome>)
    requires ResultsOf(results, outcomes)
    ensures ResultsRan(results, outcomes)
  {
    assert Reordered(outcomes, outcomes);
  }

  lemma BatchGrows(events: seq<Event>, events': seq<Event>, calls: seq<ToolCall>, results: seq<Message>,
                   result: Message)
    requires IsBatch(events, calls, results) && |results| < |calls|
    requires result.ToolResult? && result.callId == calls[|results|].id
    requires Ordered(events') && Ended(events') == Ended(events) + [result]
    requires Answered(events') == Opened(events') == Opened(events) + [result.callId]
    requires Same(Closed(events'), Opened(events'))
    ensures IsBatch(events', calls, results + [result])
  {
    hide Ended, Ends, Answered, Opened, Closed, Ordered, Same, Ids;
    FirstIds(calls, |results|);
  }

  lemma EmptyBatch(calls: seq<ToolCall>)
    ensures IsBatch([], calls, []) && Ended([]) == [] && Ends([]) == []
    ensures Opened([]) == Closed([]) == Answered([]) == []
  {
  }

  // ---------------------------------------------------------------- parallel batches

  /** The calls started whose end has not been emitted, by id. */
  function Outstanding(calls: seq<ToolCall>, entries: seq<Option<Outcome>>): multiset<string>
    requires |entries| <= |calls|
  {
    if entries == [] then multiset{} else
      var n := |entries| - 1;
      Outstanding(calls, entries[..n]) + if entries[n].None? then multiset{calls[n].id} else multiset{}
  }

  lemma Swap<T>(a: multiset<T>, b: multiset<T>, c: multiset<T>)
    ensures a + b + c == a + c + b
  {
  }

  lemma {:induction false} OutstandingFinish(calls: seq<ToolCall>, entries: seq<Option<Outcome>>, i: nat,
                                             outcome: Outcome)
    requires i < |entries| <= |calls| && entries[i].None?
    ensures Outstanding(calls, entries) == Outstanding(calls, entries[i := Some(outcome)]) + multiset{calls[i].id}
    decreases |entries|
  {
    var n := |entries| - 1;
    var after := entries[i := Some(outcome)];
    if i < n {
      assert after[..n] == entries[..n][i := Some(outcome)] && after[n] == entries[n];
      OutstandingFinish(calls, entries[..n], i, outcome);
      var last := if entries[n].None? then multiset{calls[n].id} else multiset{};
      Swap(Outstanding(calls, after[..n]), multiset{calls[i].id}, last);
    } else {
      assert after[..n] == entries[..n];
      assert Outstanding(calls, after) == Outstanding(calls, entries[..n]) + multiset{};
    }
  }

  lemma {:induction false} OutstandingNone(calls: seq<ToolCall>, entries: seq<Option<Outcome>>)
    requires |entries| <= |calls| && forall i | 0 <= i < |entries| :: entries[i].Some?
    ensures Outstanding(calls, entries) == multiset{}
  {
    if entries != [] {
      OutstandingNone(calls, entries[..|entries| - 1]);
    }
  }

  /** What ended and what is outstanding is what was started. */
  predicate Balances(closed: seq<string>, outstanding: multiset<string>, begun: seq<string>) {
    multiset(closed) + outstanding == multiset(begun)
  }

  lemma BalancesStart(closed: seq<string>, outstanding: multiset<string>, begun: seq<string>, id: string)
    requires Balances(closed, outstanding, begun)
    ensures Balances(closed, outstanding + multiset{id}, begun + [id]) && Among(closed, begun + [id])
  {
  }

  lemma BalancesFinish(closed: seq<string>, outstanding: multiset<string>, rest: multiset<string>, begun: seq<string>,
                       id: string)
    requires Balances(closed, outstanding, begun) && outstanding == rest + multiset{id}
    ensures Balances(closed + [id], rest, begun) && Among(closed + [id], begun)
  {
    assert multiset(closed + [id]) == multiset(closed) + multiset{id};
  }

  lemma NothingAmong(a: seq<string>)
    ensures Among([], a)
  {
  }

  /** Started, not yet answered: every started call either ended or is outstanding. */
  ghost predicate Accounted(events: seq<Event>, calls: seq<ToolCall>, entries: seq<Option<Outcome>>) {
    && |entries| <= |calls|
    && Ordered(events) && Ended(events) == [] && Answered(events) == []
    && Opened(events) == Ids(calls[..|entries|])
    && Balances(Closed(events), Outstanding(calls, entries), Opened(events))
  }

  lemma AccountedNone(calls: seq<ToolCall>)
    ensures Accounted([], calls, [])
  {
  }

  lemma AccountedStart(events: seq<Event>, calls: seq<ToolCall>, entries: seq<Option<Outcome>>)
    requires Accounted(events, calls, entries) && |entries| < |calls|
    ensures Accounted(events + [ToolStart(calls[|entries|].id)], calls, entries + [None])
    ensures Ends(events + [ToolStart(calls[|entries|].id)]) == Ends(events)
  {
    hide Ended, Ends, Answered, Opened, Closed, Ordered, Balances, Among, Ids;
    var call := calls[|entries|];
    Appended(events, ToolStart(call.id));
    NothingAmong(Closed(events));
    BalancesStart(Closed(events), Outstanding(calls, entries), Opened(events), call.id);
    FirstIds(calls, |entries|);
    assert (entries + [None])[..|entries|] == entries;
  }

  lemma AccountedUpdate(events: seq<Event>, calls: seq<ToolCall>, entries: seq<Option<Outcome>>, id: string)
    requires Accounted(events, calls, entries)
    ensures Accounted(events + [ToolUpdate(id)], calls, entries) && Ends(events + [ToolUpdate(id)]) == Ends(events)
  {
    hide Ended, Ends, Answered, Opened, Closed, Ordered, Outstanding;
    Appended(events, ToolUpdate(id));
  }

  lemma AccountedFinish(events: seq<Event>, calls: seq<ToolCall>, entries: seq<Option<Outcome>>, i: nat,
                        outcome: Outcome)
    requires Accounted(events, calls, entries) && i < |entries| && entries[i].None?
    ensures Accounted(events + [ToolEnd(calls[i].id, outcome.isError)], calls, entries[i := Some(outcome)])
    ensures Ends(events + [ToolEnd(calls[i].id, outcome.isError)]) == Ends(events) + [(calls[i].id, outcome.isError)]
  {
    hide Ended, Ends, Answered, Opened, Closed, Ordered, Outstanding, Balances, Among;
    OutstandingFinish(calls, entries, i, outcome);
    Appended(events, ToolEnd(calls[i].id, outcome.isError));
    NothingAmong(Closed(events) + [calls[i].id]);
    BalancesFinish(Closed(events), Outstanding(calls, entries), Outstanding(calls, entries[i := Some(outcome)]),
                   Opened(events), calls[i].id);
  }

  /** A batch underway: what the agent believes to run is among what is outstanding. */
  ghost predicate Underway(agent: Agent, ended: seq<Message>, events: seq<Event>, calls: seq<ToolCall>,
                           entries: seq<Option<Outcome>>)
    reads agent
  {
    && InTurn(agent, ended) && |entries| <= |calls| && Accounted(events, calls, entries)
    && (forall i | 0 <= i < |entries| && entries[i].Some? :: entries[i].value.call == calls[i])
    && (forall id | id in agent.pendingToolCalls ::
          exists i :: 0 <= i < |entries| && entries[i].None? && calls[i].id == id)
  }

  /** Start a call; answer it at once or leave it to run. */
  method StartCall(agent: Agent, calls: seq<ToolCall>, entries: seq<Option<Outcome>>, host: Host,
                   ghost events: seq<Event>, ghost ended: seq<Message>)
    returns (entry: Option<Outcome>, ghost events': seq<Event>)
    requires Underway(agent, ended, events, calls, entries) && |entries| < |calls|
    modifies agent, host
    ensures Underway(agent, ended, events', calls, entries + [entry]) && agent.before == old(agent.before)
    ensures events <= events' && agent.trace == old(agent.trace) + events'[|events|..]
    ensures old(host.aborted) ==> host.aborted
    ensures host.log == old(host.log) + if entry.Some? then [Ran(entry.value)] else []
    ensures Ends(events') == Ends(events) + if entry.Some? then [(entry.value.call.id, entry.value.isError)] else []
    ensures host.late == old(host.late) + if old(host.aborted) then 1 else 0
  {
    hide Accounted, After, Running, Shown, Failed, Ended, Ends;
    var call := calls[|entries|];
    agent.Emit(ToolStart(call.id));
    events' := events + [ToolStart(call.id)];
    AccountedStart(events, calls, entries);
    ghost var started := entries + [None];
    assert started[|entries|].None?;
    assert forall i | 0 <= i < |entries| :: started[i] == entries[i];
    var preparation;
    ghost var invalid, rejected;
    preparation, invalid, rejected := host.PrepareToolCall(call);
    if preparation.Immediate? {
      entry := Some(preparation.outcome);
      AccountedFinish(events', calls, started, |entries|, preparation.outcome);
      assert started[|entries| := entry] == entries + [entry];
      assert forall i | 0 <= i < |entries| :: (entries + [entry])[i] == entries[i];
      agent.Emit(ToolEnd(call.id, preparation.outcome.isError));
      events' := events' + [ToolEnd(call.id, preparation.outcome.isError)];
    } else {
      entry := None;
    }
  }

  /** One outstanding call ends, while any of them report progress. */
  method FinishCall(agent: Agent, calls: seq<ToolCall>, entries: seq<Option<Outcome>>, host: Host,
                    ghost events: seq<Event>, ghost ended: seq<Message>)
    returns (i: nat, outcome: Outcome, ghost events': seq<Event>)
    requires Underway(agent, ended, events, calls, entries) && exists k :: 0 <= k < |entries| && entries[k].None?
    modifies agent, host`log
    ensures i < |entries| && entries[i].None? && host.log == old(host.log) + [Ran(outcome)]
    ensures Ends(events') == Ends(events) + [(outcome.call.id, outcome.isError)]
    ensures Underway(agent, ended, events', calls, entries[i := Some(outcome)]) && agent.before == old(agent.before)
    ensures events <= events' && agent.trace == old(agent.trace) + events'[|events|..]
  {
    hide Accounted, After, Running, Shown, Failed, Ended, Ends;
    events' := events;
    var rounds: nat := *;
    while rounds > 0
      invariant Underway(agent, ended, events', calls, entries) && agent.before == old(agent.before)
      invariant events <= events' && agent.trace == old(agent.trace) + events'[|events|..]
      invariant host.log == old(host.log) && Ends(events') == Ends(events)
    {
      var j: nat :| j < |entries| && entries[j].None?;
      AccountedUpdate(events', calls, entries, calls[j].id);
      agent.Emit(ToolUpdate(calls[j].id));
      events' := events' + [ToolUpdate(calls[j].id)];
      rounds := rounds - 1;
    }
    i :| 0 <= i < |entries| && entries[i].None?;
    outcome := host.Execute(calls[i]);
    AccountedFinish(events', calls, entries, i, outcome);
    ghost var after := entries[i := Some(outcome)];
    assert forall k | 0 <= k < |entries| && k != i :: after[k] == entries[k];
    agent.Emit(ToolEnd(calls[i].id, outcome.isError));
    events' := events' + [ToolEnd(calls[i].id, outcome.isError)];
  }

  /** Start the calls in order, until one of them sees an abort. */
  method StartAll(agent: Agent, calls: seq<ToolCall>, host: Host, ghost ended: seq<Message>)
    returns (entries: seq<Option<Outcome>>, ghost ran: seq<Outcome>, ghost events: seq<Event>)
    requires InTurn(agent, ended) && agent.pendingToolCalls == {}
    modifies agent, host
    ensures Underway(agent, ended, events, calls, entries)
    ensures agent.before == old(agent.before) && agent.trace == old(agent.trace) + events
    ensures |entries| == |calls| || (host.aborted && entries != [])
    ensures host.log == old(host.log) + Rans(ran) && Records(ran, entries) && (old(host.aborted) ==> host.aborted)
    ensures Ends(events) == EndsOf(ran)
    ensures host.late == old(host.late) + if old(host.aborted) && calls != [] then 1 else 0
  {
    hide Accounted, After, Running, Shown, Failed, Ended, Ends, Records, EndsOf;
    events, entries, ran := [], [], [];
    RecordsNone();
    assert host.log + Rans(ran) == host.log;
    AccountedNone(calls);
    EmptyBatch(calls);
    EndsOfNext([], Outcome(ToolCall("", ""), false, false, 0));
    for k := 0 to |calls|
      invariant |entries| == k && Underway(agent, ended, events, calls, entries)
      invariant agent.before == old(agent.before) && agent.trace == old(agent.trace) + events
      invariant host.log == old(host.log) + Rans(ran) && Records(ran, entries) && (old(host.aborted) ==> host.aborted)
      invariant Ends(events) == EndsOf(ran) && (host.aborted ==> k == 0 && old(host.aborted))
      invariant host.late == old(host.late)
    {
      var entry;
      entry, events := StartCall(agent, calls, entries, host, events, ended);
      RecordsStart(ran, entries, entry);
      RansNext(old(host.log), ran, entry);
      if entry.Some? {
        EndsOfNext(ran, entry.value);
      }
      ran := if entry.Some? then ran + [entry.value] else ran;
      entries := entries + [entry];
      var aborted := host.Poll();
      if aborted {
        break;
      }
    }
  }

  /** `Promise.all`: the calls that run end in any order. */
  method FinishAll(agent: Agent, calls: seq<ToolCall>, started: seq<Option<Outcome>>, host: Host,
                   ghost base: seq<Asked>, ghost ran: seq<Outcome>, ghost events: seq<Event>, ghost ended: seq<Message>)
    returns (outcomes: seq<Outcome>, ghost ran': seq<Outcome>, ghost events': seq<Event>)
    requires Underway(agent, ended, events, calls, started) && Records(ran, started) && host.log == base + Rans(ran)
    requires Ends(events) == EndsOf(ran)
    modifies agent, host`log
    ensures host.log == base + Rans(ran') && Reordered(outcomes, ran') && Ends(events') == EndsOf(ran')
    ensures InTurn(agent, ended) && agent.pendingToolCalls == {} && agent.before == old(agent.before)
    ensures events <= events' && agent.trace == old(agent.trace) + events'[|events|..]
    ensures |outcomes| == |started| <= |calls| && forall i | 0 <= i < |outcomes| :: outcomes[i].call == calls[i]
    ensures AllEnded(events', calls[..|outcomes|])
  {
    hide Accounted, After, Running, Shown, Failed, Ended, Ends, Records, Reordered, EndsOf;
    var entries := started;
    events', ran' := events, ran;
    ghost var todo := set k | 0 <= k < |entries| && entries[k].None?;
    while exists k :: 0 <= k < |entries| && entries[k].None?
      invariant Underway(agent, ended, events', calls, entries) && |entries| == |started| <= |calls|
      invariant agent.before == old(agent.before)
      invariant events <= events' && agent.trace == old(agent.trace) + events'[|events|..]
      invariant todo == set k | 0 <= k < |entries| && entries[k].None?
      invariant host.log == base + Rans(ran') && Records(ran', entries) && Ends(events') == EndsOf(ran')
      decreases todo
    {
      var i, outcome;
      i, outcome, events' := FinishCall(agent, calls, entries, host, events', ended);
      assert i in todo;
      RecordsFinish(ran', entries, i, outcome);
      RansNext(base, ran', Some(outcome));
      EndsOfNext(ran', outcome);
      ran' := ran' + [outcome];
      entries := entries[i := Some(outcome)];
      todo := todo - {i};
    }
    AccountedAll(events', calls, entries);
    outcomes := seq(|entries|, k requires 0 <= k < |entries| && entries[k].Some? => entries[k].value);
    RecordsAll(ran', entries, outcomes);
  }

  // ---------------------------------------------------------------- what the host logged of a batch

  /** The outcomes that are there, in any order */
  function Settled(entries: seq<Option<Outcome>>): multiset<Outcome> {
    if entries == [] then multiset{} else
      var before, last := Settled(entries[..|entries| - 1]), entries[|entries| - 1];
      if last.None? then before else before + multiset{last.value}
  }

  /** The host ran what settled the entries, in the order of `ran`. */
  ghost predicate Records(ran: seq<Outcome>, entries: seq<Option<Outcome>>) {
    multiset(ran) == Settled(entries)
  }

  lemma RecordsNone()
    ensures Records([], [])
  {
  }

  lemma RecordsStart(ran: seq<Outcome>, entries: seq<Option<Outcome>>, entry: Option<Outcome>)
    requires Records(ran, entries)
    ensures Records(if entry.Some? then ran + [entry.value] else ran, entries + [entry])
  {
    assert (entries + [entry])[..|entries|] == entries;
  }

  lemma RansNext(log: seq<Asked>, ran: seq<Outcome>, entry: Option<Outcome>)
    ensures log + Rans(ran) + (if entry.Some? then [Ran(entry.value)] else []) ==
            log + Rans(if entry.Some? then ran + [entry.value] else ran)
  {
  }

  lemma {:induction false} SettledFinish(entries: seq<Option<Outcome>>, i: nat, outcome: Outcome)
    requires i < |entries| && entries[i].None?
    ensures Settled(entries[i := Some(outcome)]) == Settled(entries) + multiset{outcome}
  {
    var n := |entries| - 1;
    var after := entries[i := Some(outcome)];
    if i < n {
      assert after[..n] == entries[..n][i := Some(outcome)];
      SettledFinish(entries[..n], i, outcome);
    } else {
      assert after[..n] == entries[..n];
    }
  }

  lemma RecordsFinish(ran: seq<Outcome>, entries: seq<Option<Outcome>>, i: nat, outcome: Outcome)
    requires Records(ran, entries) && i < |entries| && entries[i].None?
    ensures Records(ran + [outcome], entries[i := Some(outcome)])
  {
    hide Settled;
    SettledFinish(entries, i, outcome);
  }

  lemma {:induction false} SettledAll(entries: seq<Option<Outcome>>, outcomes: seq<Outcome>)
    requires |entries| == |outcomes| && forall k | 0 <= k < |entries| :: entries[k] == Some(outcomes[k])
    ensures Settled(entries) == multiset(outcomes)
  {
    if entries != [] {
      var n := |entries| - 1;
      SettledAll(entries[..n], outcomes[..n]);
      assert outcomes == outcomes[..n] + [outcomes[n]];
    }
  }

  lemma RecordsAll(ran: seq<Outcome>, entries: seq<Option<Outcome>>, outcomes: seq<Outcome>)
    requires Records(ran, entries)
    requires |entries| == |outcomes| && forall k | 0 <= k < |entries| :: entries[k] == Some(outcomes[k])
    ensures Reordered(outcomes, ran)
  {
    SettledAll(entries, outcomes);
  }

  /** Every call has started and ended once, and none is answered. */
  ghost predicate AllEnded(events: seq<Event>, calls: seq<ToolCall>) {
    && Ordered(events) && Ended(events) == [] && Answered(events) == []
    && Opened(events) == Ids(calls) && Same(Closed(events), Opened(events))
  }

  lemma AccountedAll(events: seq<Event>, calls: seq<ToolCall>, entries: seq<Option<Outcome>>)
    requires |entries| <= |calls|
    ensures Accounted(events, calls, entries) && (forall i | 0 <= i < |entries| :: entries[i].Some?)
            ==> AllEnded(events, calls[..|entries|])
  {
    hide Ended, Ends, Answered, Opened, Closed, Ordered;
    if forall i | 0 <= i < |entries| :: entries[i].Some? {
      OutstandingNone(calls, entries);
    }
  }

  method ExecuteParallel(agent: Agent, calls: seq<ToolCall>, host: Host, ghost ended: seq<Message>)
    returns (results: seq<Message>, terminate: bool, ghost ran: seq<Outcome>, ghost events: seq<Event>)
    requires InTurn(agent, ended) && agent.pendingToolCalls == {}
    modifies agent, host
    ensures agent.before == old(agent.before) && agent.trace == old(agent.trace) + events
    ensures BatchDone(agent, ended, events, calls, results, host.aborted)
    ensures host.log == old(host.log) + Rans(ran) && (old(host.aborted) ==> host.aborted)
    ensures ResultsRan(results, ran) && Ends(events) == EndsOf(ran)
    ensures terminate <==> ran != [] && forall i | 0 <= i < |ran| :: ran[i].terminate
    // No call is started once the run was aborted, but the first.
    ensures host.late == old(host.late) + if old(host.aborted) && calls != [] then 1 else 0
  {
    hide Accounted, AllEnded, After, Running, Shown, Failed, Ended, Ends, IsBatch, Records, Reordered, EndsOf;
    var entries, finalized;
    ghost var early;
    entries, early, events := StartAll(agent, calls, host, ended);
    finalized, ran, events := FinishAll(agent, calls, entries, host, old(host.log), early, events, ended);
    results, events := AnswerAll(agent, calls, finalized, events, ended);
    terminate := ShouldTerminateToolBatch(finalized);
    ReorderedTerminates(finalized, ran);
  }

  /** The first `n` calls of an ended batch are answered. */
  ghost predicate AnsweredFirst(events: seq<Event>, calls: seq<ToolCall>, n: nat, results: seq<Message>) {
    && n <= |calls| && Ordered(events) && Ended(events) == results
    && Opened(events) == Ids(calls) && Same(Closed(events), Opened(events))
    && Answered(events) == Ids(calls[..n])
  }

  lemma AnswerOne(events: seq<Event>, calls: seq<ToolCall>, n: nat, results: seq<Message>, result: Message)
    requires AnsweredFirst(events, calls, n, results) && n < |calls|
    requires result.ToolResult? && result.callId == calls[n].id
    ensures AnsweredFirst(events + [MessageStart(result), MessageEnd(result)], calls, n + 1, results + [result])
  {
    hide Ended, Ends, Answered, Opened, Closed, Ordered, Among, Same, Ids;
    var started := events + [MessageStart(result)];
    Appended(events, MessageStart(result));
    Appended(started, MessageEnd(result));
    assert started + [MessageEnd(result)] == events + [MessageStart(result), MessageEnd(result)];
    FirstIds(calls, n);
    AmongSame(Ids(calls[..n]) + [calls[n].id], Ids(calls), Closed(events));
  }

  /** The ids of the first calls are among those of all. */
  lemma FirstIds(calls: seq<ToolCall>, n: nat)
    requires n < |calls|
    ensures Ids(calls[..n + 1]) == Ids(calls[..n]) + [calls[n].id]
    ensures Among(Ids(calls[..n]) + [calls[n].id], Ids(calls))
  {
    assert Ids(calls) == Ids(calls[..n]) + [calls[n].id] + Ids(calls[n + 1..]);
  }

  /** Emit the results of all calls, in the order of the calls. */
  method AnswerAll(agent: Agent, calls: seq<ToolCall>, finalized: seq<Outcome>, ghost events: seq<Event>,
                   ghost ended: seq<Message>)
    returns (results: seq<Message>, ghost events': seq<Event>)
    requires InTurn(agent, ended) && |finalized| <= |calls| && agent.pendingToolCalls == {}
    requires forall i | 0 <= i < |finalized| :: finalized[i].call == calls[i]
    requires AllEnded(events, calls[..|finalized|])
    modifies agent
    ensures InTurn(agent, ended + results) && agent.pendingToolCalls == {} && agent.before == old(agent.before)
    ensures events <= events' && agent.trace == old(agent.trace) + events'[|events|..]
    ensures ResultsOf(results, finalized) && IsBatch(events', calls, results) && Ends(events') == Ends(events)
  {
    hide Ended, Ends, Answered, Opened, Closed, Ordered, After, Running, Shown, Failed, AnsweredFirst;
    results, events' := [], events;
    assert ended + [] == ended;
    ghost var started := calls[..|finalized|];
    AnsweredNone(events, started);
    for i := 0 to |finalized|
      invariant InTurn(agent, ended + results) && agent.pendingToolCalls == {} && agent.before == old(agent.before)
      invariant events <= events' && agent.trace == old(agent.trace) + events'[|events|..]
      invariant |results| == i && forall k | 0 <= k < i :: results[k] == ResultMessage(finalized[k])
      invariant AnsweredFirst(events', started, i, results) && Ends(events') == Ends(events)
    {
      ghost var results0 := results;
      var result := ResultMessage(finalized[i]);
      AnswerOne(events', started, i, results, result);
      Appended(events', MessageStart(result));
      Appended(events' + [MessageStart(result)], MessageEnd(result));
      assert events' + [MessageStart(result)] + [MessageEnd(result)] ==
             events' + [MessageStart(result), MessageEnd(result)];
      agent.Say(result);
      events' := events' + [MessageStart(result), MessageEnd(result)];
      results := results + [result];
      assert ended + results == ended + results0 + [result];
    }
    AnsweredBatch(events', calls, results);
  }

  lemma AnsweredNone(events: seq<Event>, calls: seq<ToolCall>)
    requires AllEnded(events, calls)
    ensures AnsweredFirst(events, calls, 0, [])
  {
  }

  lemma AnsweredBatch(events: seq<Event>, calls: seq<ToolCall>, results: seq<Message>)
    requires Answers(results, calls) && AnsweredFirst(events, calls[..|results|], |results|, results)
    ensures IsBatch(events, calls, results)
  {
    assert calls[..|results|][..|results|] == calls[..|results|];
  }
}
