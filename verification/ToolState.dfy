/** Replaying tool declarations from a transcript, and declaring what changed (`declareToolChanges`). */
module ToolState {

  /** A tool as the model sees it; two tools are equal when their serialized declarations are. */
  datatype Tool = Tool(name: string, declaration: string)

  datatype ToolCall = ToolCall(id: string, name: string)

  datatype StopReason = Finished | ToolUse | Length | Error | Aborted

  datatype Message =
    | System(body: nat, toolsAdded: seq<Tool>, toolsRemoved: seq<string>)
    | User(body: nat)
    | Assistant(body: nat, stopReason: StopReason, calls: seq<ToolCall>, hasError: bool)
    | ToolResult(callId: string, isError: bool, body: nat)

  datatype Changes = Changes(added: seq<Tool>, removed: seq<string>)

  const NO_CHANGES := Changes([], [])

  // ---------------------------------------------------------------- an insertion-ordered map from names to tools

  predicate DistinctNames(tools: seq<Tool>) {
    forall i, j | 0 <= i < j < |tools| :: tools[i].name != tools[j].name
  }

  function Find(tools: seq<Tool>, name: string): (i: int)
    ensures -1 <= i < |tools|
    ensures i >= 0 ==> tools[i].name == name
    ensures i < 0 ==> forall t | t in tools :: t.name != name
  {
    if tools == [] then -1
    else if tools[0].name == name then 0
    else var i := Find(tools[1..], name); if i < 0 then -1 else i + 1
  }

  /** `tools.delete(name)` */
  function Without(tools: seq<Tool>, name: string): (r: seq<Tool>)
    requires DistinctNames(tools)
    ensures DistinctNames(r)
    ensures forall t :: t in r <==> t in tools && t.name != name
  {
    var i := Find(tools, name);
    if i < 0 then tools else
      var r := tools[..i] + tools[i + 1..];
      assert forall t | t in tools && t.name != name :: t in r by {
        forall t | t in tools && t.name != name ensures t in r {
          var k :| 0 <= k < |tools| && tools[k] == t;
          assert t == if k < i then r[k] else r[k - 1];
        }
      }
      r
  }

  /** `tools.set(tool.name, tool)`: a known name keeps its place. */
  function With(tools: seq<Tool>, tool: Tool): (r: seq<Tool>)
    requires DistinctNames(tools)
    ensures DistinctNames(r)
    ensures forall t :: t in r <==> t == tool || (t in tools && t.name != tool.name)
  {
    var i := Find(tools, tool.name);
    if i < 0 then tools + [tool] else
      var r := tools[i := tool];
      assert r[i] == tool;
      assert forall t | t in tools && t.name != tool.name :: t in r by {
        forall t | t in tools && t.name != tool.name ensures t in r {
          var k :| 0 <= k < |tools| && tools[k] == t;
          assert r[k] == t;
        }
      }
      r
  }

  function WithoutAll(tools: seq<Tool>, names: seq<string>): (r: seq<Tool>)
    requires DistinctNames(tools)
    ensures DistinctNames(r)
    ensures forall t :: t in r <==> t in tools && t.name !in names
  {
    if names == [] then tools else WithoutAll(Without(tools, names[0]), names[1..])
  }

  function WithAll(tools: seq<Tool>, added: seq<Tool>): (r: seq<Tool>)
    requires DistinctNames(tools)
    ensures DistinctNames(r)
    decreases added
  {
    if added == [] then tools else WithAll(With(tools, added[0]), added[1..])
  }

  /** No name has two declarations. */
  predicate Unambiguous(tools: seq<Tool>) {
    forall s, t | s in tools && t in tools :: s.name == t.name ==> s == t
  }

  lemma {:induction false} WithAllIs(tools: seq<Tool>, added: seq<Tool>)
    requires DistinctNames(tools) && Unambiguous(added)
    ensures forall t :: t in WithAll(tools, added) <==>
              t in added || (t in tools && forall a | a in added :: a.name != t.name)
    decreases added
  {
    if added != [] {
      WithAllIs(With(tools, added[0]), added[1..]);
      assert forall a :: a in added <==> a == added[0] || a in added[1..];
    }
  }

  // ---------------------------------------------------------------- replay

  /** Tools available after the messages, one system message's delta after the other. */
  function Replay(tools: seq<Tool>, messages: seq<Message>): (r: seq<Tool>)
    requires DistinctNames(tools)
    ensures DistinctNames(r)
    decreases messages
  {
    if messages == [] then tools else Replay(ReplayOne(tools, messages[0]), messages[1..])
  }

  function ReplayOne(tools: seq<Tool>, message: Message): (r: seq<Tool>)
    requires DistinctNames(tools)
    ensures DistinctNames(r)
  {
    if message.System? then WithAll(WithoutAll(tools, message.toolsRemoved), message.toolsAdded) else tools
  }

  function GetCurrentTools(messages: seq<Message>): seq<Tool> {
    Replay([], messages)
  }

  lemma {:induction false} ReplayConcat(tools: seq<Tool>, a: seq<Message>, b: seq<Message>)
    requires DistinctNames(tools)
    ensures Replay(tools, a + b) == Replay(Replay(tools, a), b)
    decreases a
  {
    hide ReplayOne;
    if a == [] {
      assert a + b == b;
    } else {
      ReplayConcat(ReplayOne(tools, a[0]), a[1..], b);
      assert (a + b)[1..] == a[1..] + b;
    }
  }

  lemma {:induction false} ReplayNoSystem(tools: seq<Tool>, messages: seq<Message>)
    requires DistinctNames(tools) && forall m | m in messages :: !m.System?
    ensures Replay(tools, messages) == tools
    decreases messages
  {
    if messages != [] {
      assert messages[0] in messages;
      ReplayNoSystem(tools, messages[1..]);
    }
  }

  // ---------------------------------------------------------------- changes

  function Filter(tools: seq<Tool>, others: seq<Tool>): (r: seq<Tool>)
    ensures forall t :: t in r <==> t in tools && Differs(others, t)
    ensures r == [] <==> forall t | t in tools :: !Differs(others, t)
  {
    if tools == [] then [] else (if Differs(others, tools[0]) then [tools[0]] else []) + Filter(tools[1..], others)
  }

  /** `tools`, read as a map in which the last of equal names wins, has no such tool. */
  predicate Differs(tools: seq<Tool>, tool: Tool) {
    var i := FindLast(tools, tool.name);
    i < 0 || tools[i] != tool
  }

  function FindLast(tools: seq<Tool>, name: string): (i: int)
    ensures -1 <= i < |tools|
    ensures i >= 0 ==> tools[i].name == name
    ensures forall k | i < k < |tools| :: tools[k].name != name
  {
    if tools == [] then -1
    else if tools[|tools| - 1].name == name then |tools| - 1
    else FindLast(tools[..|tools| - 1], name)
  }

  function Names(tools: seq<Tool>): (r: seq<string>)
    ensures forall n :: n in r <==> exists t :: t in tools && t.name == n
  {
    if tools == [] then [] else [tools[0].name] + Names(tools[1..])
  }

  function GetToolStateChanges(previous: seq<Tool>, current: seq<Tool>): Changes {
    Changes(Filter(current, previous), Names(Filter(previous, current)))
  }

  predicate SameTools(a: seq<Tool>, b: seq<Tool>) {
    (forall t | t in a :: t in b) && (forall t | t in b :: t in a)
  }

  lemma DiffersIsAbsent(tools: seq<Tool>, tool: Tool)
    requires Unambiguous(tools)
    ensures Differs(tools, tool) <==> tool !in tools
  {
  }

  /** Applying the changes between two tool states gives the second. */
  lemma ChangesLead(previous: seq<Tool>, current: seq<Tool>)
    requires DistinctNames(previous) && Unambiguous(current)
    ensures var c := GetToolStateChanges(previous, current);
            SameTools(WithAll(WithoutAll(previous, c.removed), c.added), current)
    ensures GetToolStateChanges(previous, current) == NO_CHANGES ==> SameTools(previous, current)
  {
    var c := GetToolStateChanges(previous, current);
    forall t ensures Differs(previous, t) <==> t !in previous {
      DiffersIsAbsent(previous, t);
    }
    forall t ensures Differs(current, t) <==> t !in current {
      DiffersIsAbsent(current, t);
    }
    WithAllIs(WithoutAll(previous, c.removed), c.added);
    assert c.removed == [] ==> forall t | t in Filter(previous, current) :: t.name in c.removed;
  }

  // ---------------------------------------------------------------- declareToolChanges

  /** The position of the last system message, or -1. */
  function LastSystem(messages: seq<Message>): (i: int)
    ensures -1 <= i < |messages|
    ensures i >= 0 ==> messages[i].System?
    ensures forall k | i < k < |messages| :: !messages[k].System?
  {
    if messages == [] then -1
    else if messages[|messages| - 1].System? then |messages| - 1
    else LastSystem(messages[..|messages| - 1])
  }

  function WithToolChanges(message: Message, changes: Changes): (r: Message)
    requires message.System?
  {
    System(message.body, changes.added, changes.removed)
  }

  /** The pending messages with the intent of the last system message put aside. */
  function Baseline(pending: seq<Message>): seq<Message> {
    var i := LastSystem(pending);
    if i < 0 then pending else pending[i := WithToolChanges(pending[i], NO_CHANGES)]
  }

  function ChangesFor(messages: seq<Message>, tools: seq<Tool>, pending: seq<Message>): Changes {
    GetToolStateChanges(GetCurrentTools(messages + Baseline(pending)), tools)
  }

  /** The new system message's text is empty. */
  const EMPTY_BODY: nat := 0

  /** What `declareToolChanges` returns. */
  function Declared(messages: seq<Message>, tools: seq<Tool>, pending: seq<Message>): seq<Message> {
    var i := LastSystem(pending);
    var changes := ChangesFor(messages, tools, pending);
    if i >= 0 then
      if changes == NO_CHANGES && pending[i].toolsAdded == [] && pending[i].toolsRemoved == [] then pending
      else Baseline(pending)[i := WithToolChanges(pending[i], changes)]
    else if changes == NO_CHANGES then pending
    else [System(EMPTY_BODY, changes.added, changes.removed)] + pending
  }

  /** Where the first message that is no system message stands, or the end. */
  function FirstNonSystem(messages: seq<Message>): (i: nat)
    ensures i <= |messages|
    ensures forall k | 0 <= k < i :: messages[k].System?
    ensures i < |messages| ==> !messages[i].System?
  {
    if messages == [] || !messages[0].System? then 0 else 1 + FirstNonSystem(messages[1..])
  }

  method DeclareToolChanges(messages: seq<Message>, tools: seq<Tool>, pending: seq<Message>) returns (r: seq<Message>)
    ensures r == Declared(messages, tools, pending)
  {
    hide GetToolStateChanges, GetCurrentTools;
    var systemIndex := -1;
    var i := |pending| - 1;
    while i >= 0
      invariant -1 <= i < |pending|
      invariant systemIndex == -1
      invariant LastSystem(pending) == LastSystem(pending[..i + 1])
    {
      assert pending[..i + 1][..i] == pending[..i];
      if pending[i].System? {
        systemIndex := i;
        break;
      }
      i := i - 1;
    }
    assert pending[..|pending|] == pending;
    var baseline :=
      if systemIndex >= 0 then pending[systemIndex := WithToolChanges(pending[systemIndex], NO_CHANGES)] else pending;
    var changes := GetToolStateChanges(GetCurrentTools(messages + baseline), tools);
    var unchanged' := changes.added == [] && changes.removed == [];
    if systemIndex >= 0 {
      var system := pending[systemIndex];
      if unchanged' && system.toolsAdded == [] && system.toolsRemoved == [] {
        return pending;
      }
      return baseline[systemIndex := WithToolChanges(system, changes)];
    }
    if unchanged' {
      return pending;
    }
    var index := FirstNonSystem(pending);
    assert pending[..0] == [] && pending[0..] == pending;
    return pending[..index] + [System(EMPTY_BODY, changes.added, changes.removed)] + pending[index..];
  }

  /**
   * Replaying the transcript with the declared messages gives exactly the tools, as long as no name among them has
   * two declarations; otherwise no transcript could.
   */
  lemma DeclaredReplaysIff(messages: seq<Message>, tools: seq<Tool>, pending: seq<Message>)
    ensures SameTools(GetCurrentTools(messages + Declared(messages, tools, pending)), tools) <==> Unambiguous(tools)
  {
    var replayed := GetCurrentTools(messages + Declared(messages, tools, pending));
    if Unambiguous(tools) {
      DeclaredReplays(messages, tools, pending);
    }
    assert Unambiguous(replayed);
  }

  lemma DeclaredReplays(messages: seq<Message>, tools: seq<Tool>, pending: seq<Message>)
    requires Unambiguous(tools)
    ensures SameTools(GetCurrentTools(messages + Declared(messages, tools, pending)), tools)
  {
    hide ReplayOne, GetToolStateChanges, WithAll, WithoutAll;
    var i := LastSystem(pending);
    var changes := ChangesFor(messages, tools, pending);
    var r := Declared(messages, tools, pending);
    var base := GetCurrentTools(messages + Baseline(pending));
    ChangesLead(base, tools);
    if i < 0 {
      ReplayConcat([], messages, pending);
      ReplayNoSystem(GetCurrentTools(messages), pending);
      if changes != NO_CHANGES {
        ReplaySystem(GetCurrentTools(messages), [], System(EMPTY_BODY, changes.added, changes.removed), pending);
        ReplayConcat([], messages, r);
      }
    } else {
      var before, after := pending[..i], pending[i + 1..];
      var system := WithToolChanges(pending[i], changes);
      var bare := WithToolChanges(pending[i], NO_CHANGES);
      assert Baseline(pending) == before + [bare] + after;
      ReplaySystem(GetCurrentTools(messages), before, bare, after);
      ReplaySystem(GetCurrentTools(messages), before, system, after);
      ReplayConcat([], messages, Baseline(pending));
      assert Baseline(pending)[i := system] == before + [system] + after;
      ReplayConcat([], messages, before + [system] + after);
      BareReplays(Replay(GetCurrentTools(messages), before));
      if changes == NO_CHANGES && pending[i].toolsAdded == [] && pending[i].toolsRemoved == [] {
        assert pending[i] == bare;
        assert pending == Baseline(pending);
      }
    }
  }

  lemma BareReplays(tools: seq<Tool>)
    requires DistinctNames(tools)
    ensures WithAll(WithoutAll(tools, []), []) == tools
  {
  }

  /** Only the last system message counts after what precedes it. */
  lemma ReplaySystem(tools: seq<Tool>, before: seq<Message>, system: Message, after: seq<Message>)
    requires DistinctNames(tools) && system.System? && forall m | m in after :: !m.System?
    ensures Replay(tools, before + [system] + after)
         == WithAll(WithoutAll(Replay(tools, before), system.toolsRemoved), system.toolsAdded)
  {
    hide WithAll, WithoutAll;
    ReplayConcat(tools, before + [system], after);
    ReplayConcat(tools, before, [system]);
    ReplayNoSystem(Replay(tools, before + [system]), after);
    assert Replay(Replay(tools, before), [system]) == ReplayOne(Replay(tools, before), system);
  }

  function NonSystem(messages: seq<Message>): seq<Message> {
    if messages == [] then [] else
      var rest := NonSystem(messages[1..]);
      if messages[0].System? then rest else [messages[0]] + rest
  }

  lemma {:induction false} NonSystemConcat(a: seq<Message>, b: seq<Message>)
    ensures NonSystem(a + b) == NonSystem(a) + NonSystem(b)
  {
    if a == [] {
      assert a + b == b;
    } else {
      NonSystemConcat(a[1..], b);
      assert (a + b)[1..] == a[1..] + b;
    }
  }

  lemma SplitAround(s: seq<Message>, i: nat)
    requires i < |s|
    ensures s == s[..i] + [s[i]] + s[i + 1..]
  {
  }

  lemma SystemAside(before: seq<Message>, system: Message, after: seq<Message>)
    requires system.System?
    ensures NonSystem(before + [system] + after) == NonSystem(before + after)
  {
    NonSystemConcat(before + [system], after);
    NonSystemConcat(before, [system]);
    NonSystemConcat(before, after);
  }

  /**
   * All of the pending messages, in order: the tool fields of the last system message may differ, and without a system
   * message there may be a new one with no text before them, which then has tool fields.
   */
  predicate Carried(pending: seq<Message>, declared: seq<Message>) {
    var i := LastSystem(pending);
    || declared == pending
    || (i >= 0 && Redeclared(pending, declared, i))
    || (i < 0 && declared != [] && Declaration(declared[0]) && declared[1..] == pending)
  }

  /** Only the tool fields of message `i` differ. */
  predicate Redeclared(pending: seq<Message>, declared: seq<Message>, i: nat)
    requires i < |pending| && pending[i].System?
  {
    && |declared| == |pending| && declared[i].System? && declared[i].body == pending[i].body
    && declared[..i] == pending[..i] && declared[i + 1..] == pending[i + 1..]
  }

  predicate Declaration(m: Message) {
    m.System? && m.body == EMPTY_BODY && (m.toolsAdded != [] || m.toolsRemoved != [])
  }

  /** No message is lost or changed but for its tool fields. */
  lemma DeclaredCarries(messages: seq<Message>, tools: seq<Tool>, pending: seq<Message>)
    ensures Carried(pending, Declared(messages, tools, pending))
  {
    hide ChangesFor;
  }

  /** Other messages keep their order; at most one message is added, and only when no system message is pending. */
  lemma DeclaredKeeps(messages: seq<Message>, tools: seq<Tool>, pending: seq<Message>)
    ensures NonSystem(Declared(messages, tools, pending)) == NonSystem(pending)
    ensures |pending| <= |Declared(messages, tools, pending)| <= |pending| + if LastSystem(pending) < 0 then 1 else 0
  {
    hide GetToolStateChanges, GetCurrentTools, NonSystem, LastSystem;
    var i := LastSystem(pending);
    var r := Declared(messages, tools, pending);
    if i < 0 {
      if r != pending {
        SystemAside([], r[0], pending);
        assert r == [] + [r[0]] + pending && [] + pending == pending;
      }
    } else {
      var before, after := pending[..i], pending[i + 1..];
      SplitAround(pending, i);
      SplitAround(r, i);
      assert r[..i] == before && r[i + 1..] == after;
      SystemAside(before, pending[i], after);
      SystemAside(before, r[i], after);
    }
  }

  /** Declaring what is already declared changes nothing. */
  lemma DeclaredTwice(messages: seq<Message>, tools: seq<Tool>, pending: seq<Message>)
    ensures Declared(messages, tools, Declared(messages, tools, pending)) == Declared(messages, tools, pending)
  {
    hide GetToolStateChanges, ReplayOne, WithAll, WithoutAll;
    var i := LastSystem(pending);
    var changes := ChangesFor(messages, tools, pending);
    var r := Declared(messages, tools, pending);
    if i < 0 {
      if changes != NO_CHANGES {
        var system := r[0];
        var bare := WithToolChanges(system, NO_CHANGES);
        assert forall k | 0 < k < |r| :: r[k] == pending[k - 1];
        assert LastSystem(r) == 0;
        assert Baseline(r) == [] + [bare] + pending;
        ReplaySystem(GetCurrentTools(messages), [], bare, pending);
        BareReplays(GetCurrentTools(messages));
        ReplayConcat([], messages, Baseline(r));
        ReplayConcat([], messages, pending);
        ReplayNoSystem(GetCurrentTools(messages), pending);
      }
    } else {
      assert forall k | i < k < |r| :: r[k] == pending[k];
      assert r[i].System?;
      assert LastSystem(r) == i;
      assert Baseline(r) == Baseline(pending);
    }
  }

  /** Once the declared messages are part of the transcript, nothing is left to declare. */
  lemma DeclaredSettles(messages: seq<Message>, tools: seq<Tool>, pending: seq<Message>)
    requires Unambiguous(tools)
    ensures Declared(messages + Declared(messages, tools, pending), tools, []) == []
  {
    hide GetCurrentTools, GetToolStateChanges;
    var after := messages + Declared(messages, tools, pending);
    DeclaredReplays(messages, tools, pending);
    assert after + [] == after;
    DistinctUnambiguous(after);
    NoChanges(GetCurrentTools(after), tools);
  }

  lemma DistinctUnambiguous(messages: seq<Message>)
    ensures Unambiguous(GetCurrentTools(messages))
  {
  }

  lemma NoChanges(previous: seq<Tool>, current: seq<Tool>)
    requires Unambiguous(previous) && Unambiguous(current) && SameTools(previous, current)
    ensures GetToolStateChanges(previous, current) == NO_CHANGES
  {
    forall t ensures Differs(previous, t) <==> t !in previous {
      DiffersIsAbsent(previous, t);
    }
    forall t ensures Differs(current, t) <==> t !in current {
      DiffersIsAbsent(current, t);
    }
  }
}
