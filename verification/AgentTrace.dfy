/** The events of an agent run, what they say, and the state an `Agent` reduces them to. */
module AgentTrace {
  import opened ToolState

  datatype Option<+T> = None | Some(value: T)

  datatype Event =
    | AgentStart
    | AgentEnd(messages: seq<Message>)
    | TurnStart
    | TurnEnd(message: Message, toolResults: seq<Message>)
    | MessageStart(message: Message)
    | MessageUpdate(message: Message)
    | MessageEnd(message: Message)
    | ToolStart(id: string)
    | ToolUpdate(id: string)
    | ToolEnd(id: string, isError: bool)

  // ---------------------------------------------------------------- the shape of a run

  /** Where a run stands: inside a turn, which messages the turn has ended and whether one is open. */
  datatype Phase = Idle | Started | Turn(ended: seq<Message>, speaking: bool) | Between | Done | Broken

  function Step(phase: Phase, event: Event): Phase {
    match (phase, event)
    case (Idle, AgentStart) => Started
    case (Started, TurnStart) => Turn([], false)
    case (Between, TurnStart) => Turn([], false)
    case (Between, AgentEnd(_)) => Done
    case (Turn(ended, false), MessageStart(_)) => Turn(ended, true)
    case (Turn(_, true), MessageUpdate(_)) => phase
    case (Turn(ended, true), MessageEnd(m)) => Turn(ended + [m], false)
    case (Turn(_, false), ToolStart(_)) => phase
    case (Turn(_, false), ToolUpdate(_)) => phase
    case (Turn(_, false), ToolEnd(_, _)) => phase
    // A turn ends with its answer and the results of the answer's tool calls.
    case (Turn(ended, false), TurnEnd(m, results)) => if EndsWith(ended, [m] + results) then Between else Broken
    case _ => Broken
  }

  predicate EndsWith(s: seq<Message>, tail: seq<Message>) {
    |tail| <= |s| && s[|s| - |tail|..] == tail
  }

  function After(trace: seq<Event>): Phase {
    if trace == [] then Idle else Step(After(trace[..|trace| - 1]), trace[|trace| - 1])
  }

  /** The messages the trace ended, in order. */
  function Ended(trace: seq<Event>): seq<Message> {
    if trace == [] then [] else
      Ended(trace[..|trace| - 1]) + match trace[|trace| - 1] case MessageEnd(m) => [m] case _ => []
  }

  // ---------------------------------------------------------------- tool calls

  /** The calls started, in order. */
  function Opened(trace: seq<Event>): seq<string> {
    if trace == [] then [] else
      Opened(trace[..|trace| - 1]) + match trace[|trace| - 1] case ToolStart(id) => [id] case _ => []
  }

  function Closed(trace: seq<Event>): seq<string> {
    if trace == [] then [] else
      Closed(trace[..|trace| - 1]) + match trace[|trace| - 1] case ToolEnd(id, _) => [id] case _ => []
  }

  /** How the calls ended, in order: each with whether it failed. */
  function Ends(trace: seq<Event>): seq<(string, bool)> {
    if trace == [] then [] else
      Ends(trace[..|trace| - 1]) + match trace[|trace| - 1] case ToolEnd(id, isError) => [(id, isError)] case _ => []
  }

  /** The calls whose result message was begun, in order. */
  function Answered(trace: seq<Event>): seq<string> {
    if trace == [] then [] else
      Answered(trace[..|trace| - 1]) +
      match trace[|trace| - 1] case MessageStart(ToolResult(id, _, _)) => [id] case _ => []
  }

  /** Every id of `a` is in `b`, as often. */
  predicate Among(a: seq<string>, b: seq<string>) {
    multiset(a) <= multiset(b)
  }

  /** `a` and `b` have the same ids, each as often, in any order. */
  predicate Same(a: seq<string>, b: seq<string>) {
    multiset(a) == multiset(b)
  }

  lemma SameMore(a: seq<string>, b: seq<string>, id: string)
    requires Same(a, b)
    ensures Same(a + [id], b + [id]) && Among(a + [id], b + [id]) && Among(b + [id], a + [id])
  {
  }

  lemma AmongSame(a: seq<string>, b: seq<string>, c: seq<string>)
    requires Among(a, b) && Same(c, b)
    ensures Among(a, c) && Among(c, b)
  {
  }

  /** It belongs to a turn and does not end it. */
  predicate Inner(e: Event) {
    e.MessageStart? || e.MessageUpdate? || e.MessageEnd? || e.ToolStart? || e.ToolUpdate? || e.ToolEnd?
  }

  /** Inside a turn, at every moment: no result before its call's end, no end before its start. */
  ghost predicate Ordered(trace: seq<Event>) {
    trace != [] ==>
      && Ordered(trace[..|trace| - 1]) && Inner(trace[|trace| - 1])
      && Among(Answered(trace), Closed(trace)) && Among(Closed(trace), Opened(trace))
  }

  function Ids(calls: seq<ToolCall>): (r: seq<string>)
    ensures |r| == |calls| && forall i | 0 <= i < |calls| :: r[i] == calls[i].id
  {
    seq(|calls|, i requires 0 <= i < |calls| => calls[i].id)
  }

  /** `results` answer the first calls, one each and in order. */
  predicate Answers(results: seq<Message>, calls: seq<ToolCall>) {
    |results| <= |calls| && forall i | 0 <= i < |results| :: results[i].ToolResult? && results[i].callId == calls[i].id
  }

  /**
   * `events` run the first calls of a message, `results` answer them: each started call ends exactly once, before its
   * result, and the results come in the order of the calls.
   */
  ghost predicate IsBatch(events: seq<Event>, calls: seq<ToolCall>, results: seq<Message>) {
    && Answers(results, calls)
    && Ended(events) == results
    && Opened(events) == Answered(events) == Ids(calls[..|results|])
    && Same(Closed(events), Opened(events))
    && Ordered(events)
  }

  // ---------------------------------------------------------------- the agent

  /** Where the running tool calls stand for the agent, which knows them by id. */
  function Running(trace: seq<Event>): set<string> {
    if trace == [] then {} else
      var before := Running(trace[..|trace| - 1]);
      match trace[|trace| - 1]
      case ToolStart(id) => before + {id}
      case ToolEnd(id, _) => before - {id}
      case _ => before
  }

  /** What the open message shows: the last it was started or updated with. */
  function Shown(trace: seq<Event>): Option<Message> {
    if trace == [] then None else
      match trace[|trace| - 1]
      case MessageStart(m) => Some(m)
      case MessageUpdate(m) => Some(m)
      case MessageEnd(_) => None
      case AgentEnd(_) => None
      case _ => Shown(trace[..|trace| - 1])
  }

  /** A turn ended with an answer that reports an error. */
  predicate Failed(trace: seq<Event>) {
    trace != [] && (Failed(trace[..|trace| - 1]) || Failing(trace[|trace| - 1]))
  }

  predicate Failing(e: Event) {
    e.TurnEnd? && e.message.Assistant? && e.message.hasError
  }

  /** `Agent`, as far as `processEvents` changes its state during a run. */
  class Agent {
    var messages: seq<Message>
    var streamingMessage: Option<Message>
    var pendingToolCalls: set<string>
    var hasError: bool

    /** The transcript when the run began, and the run's events so far. */
    ghost var before: seq<Message>
    ghost var trace: seq<Event>

    ghost predicate Valid()
      reads this
    {
      && messages == before + Ended(trace)
      && pendingToolCalls == Running(trace)
      && !After(trace).Broken?
      && streamingMessage == Shown(trace)
      && (streamingMessage.Some? <==> After(trace).Turn? && After(trace).speaking)
      && hasError == Failed(trace)
    }

    /** The state a run begins with. */
    constructor (messages: seq<Message>)
      ensures Valid() && before == messages && trace == [] && pendingToolCalls == {}
    {
      this.messages, before, trace := messages, messages, [];
      streamingMessage, pendingToolCalls, hasError := None, {}, false;
    }

    /** `processEvents`: reduce the state by one event of the loop. */
    method Emit(event: Event)
      requires Valid() && !Step(After(trace), event).Broken?
      modifies this
      ensures Valid() && before == old(before) && trace == old(trace) + [event]
      ensures After(trace) == Step(old(After(trace)), event)
      ensures Ended(trace) == old(Ended(trace)) + if event.MessageEnd? then [event.message] else []
      ensures pendingToolCalls ==
              match event
              case ToolStart(id) => old(pendingToolCalls) + {id}
              case ToolEnd(id, _) => old(pendingToolCalls) - {id}
              case _ => old(pendingToolCalls)
    {
      match event {
        case MessageStart(m) => streamingMessage := Some(m);
        case MessageUpdate(m) => streamingMessage := Some(m);
        case MessageEnd(m) =>
          streamingMessage := None;
          messages := messages + [m];
        case ToolStart(id) => pendingToolCalls := pendingToolCalls + {id};
        case ToolEnd(id, _) => pendingToolCalls := pendingToolCalls - {id};
        case TurnEnd(m, _) =>
          if m.Assistant? && m.hasError {
            hasError := true;
          }
        case AgentEnd(_) => streamingMessage := None;
        case _ =>
      }
      trace := trace + [event];
      assert trace[..|trace| - 1] == old(trace);
    }

    /** A message that is complete when it is announced. */
    method Say(m: Message)
      requires Valid() && After(trace).Turn? && !After(trace).speaking
      modifies this
      ensures Valid() && before == old(before) && trace == old(trace) + [MessageStart(m), MessageEnd(m)]
      ensures After(trace) == Turn(old(After(trace)).ended + [m], false)
      ensures Ended(trace) == old(Ended(trace)) + [m]
      ensures pendingToolCalls == old(pendingToolCalls)
    {
      Emit(MessageStart(m));
      Emit(MessageEnd(m));
    }
  }
}
