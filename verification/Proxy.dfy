/**
 * The proxy client: it splits what arrives into lines, whatever the chunks, and rebuilds the message from events that
 * carry only differences. Decoded text arrives; `JSON.parse` and the parser of partial arguments are any functions.
 */
module Proxy {

  datatype Option<T> = None | Some(value: T)

  datatype Block =
    | Text(text: string, signature: Option<string>)
    | Thinking(text: string, signature: Option<string>)
    | ToolCall(name: string, arguments: string)

  datatype Kind = TextKind | ThinkingKind

  datatype ProxyEvent =
    | Begin
    | BlockStart(index: nat, kind: Kind)
    | BlockDelta(index: nat, kind: Kind, delta: string)
    | BlockEnd(index: nat, kind: Kind, signature: Option<string>)
    | ToolCallStart(index: nat, name: string)
    | ToolCallDelta(index: nat, delta: string)
    | ToolCallEnd(index: nat, name: string, arguments: string)
    | Done
    | Error
  {
    /** It puts a new block at `i`. */
    predicate Starts(i: nat) {
      (BlockStart? || ToolCallStart?) && index == i
    }

    /** It ends the block at `i`, which is a tool call or not. */
    predicate Ends(i: nat, call: bool) {
      (if call then ToolCallEnd? else BlockEnd?) && index == i
    }
  }

  /** What the consumer of the stream sees: an event passed on, or an error of the client's own. */
  datatype Out = Passed(event: ProxyEvent) | Failed

  datatype Codec = Codec(trim: string -> string, parse: string -> Option<ProxyEvent>, arguments: string -> string)

  /** The partial message and what was pushed; `failed` once something threw. */
  datatype State = State(content: map<nat, Block>, streams: map<nat, string>, pushed: seq<Out>, terminal: bool,
                         failed: bool)

  const INITIAL := State(map[], map[], [], false, false)

  // ---------------------------------------------------------------- events

  predicate OfKind(b: Block, k: Kind) {
    if k.TextKind? then b.Text? else b.Thinking?
  }

  function Put(s: State, e: ProxyEvent, b: Block): State
    requires e.BlockStart? || e.BlockDelta? || e.BlockEnd? || e.ToolCallStart? || e.ToolCallDelta? || e.ToolCallEnd?
  {
    s.(content := s.content[e.index := b], pushed := s.pushed + [Passed(e)])
  }

  /** `processProxyEvent` and the push after it */
  function AfterEvent(c: Codec, s: State, e: ProxyEvent): State {
    match e
    case Begin => s.(pushed := s.pushed + [Passed(e)])
    case BlockStart(i, k) => Put(s, e, if k.TextKind? then Text("", None) else Thinking("", None))
    case BlockDelta(i, k, delta) =>
      if i in s.content && OfKind(s.content[i], k) then
        var b := s.content[i];
        Put(s, e, b.(text := b.text + delta))
      else s.(failed := true)
    case BlockEnd(i, k, signature) =>
      if i in s.content && OfKind(s.content[i], k) then
        var b := s.content[i];
        Put(s, e, b.(signature := signature))
      else s.(failed := true)
    case ToolCallStart(i, name) => Put(s, e, ToolCall(name, "")).(streams := s.streams[i := ""])
    case ToolCallDelta(i, delta) =>
      if i in s.content && s.content[i].ToolCall? && i in s.streams then
        var all := s.streams[i] + delta;
        Put(s, e, s.content[i].(arguments := c.arguments(all))).(streams := s.streams[i := all])
      else s.(failed := true)
    case ToolCallEnd(i, name, arguments) =>
      if i in s.content && s.content[i].ToolCall? then
        Put(s, e, ToolCall(name, arguments)).(streams := s.streams - {i})
      else s
    case Done => s.(pushed := s.pushed + [Passed(e)], terminal := true)
    case Error => s.(pushed := s.pushed + [Passed(e)], terminal := true)
  }

  function AfterAll(c: Codec, s: State, events: seq<ProxyEvent>): State {
    if events == [] then s else
      var before := AfterAll(c, s, events[..|events| - 1]);
      if before.failed then before else AfterEvent(c, before, events[|events| - 1])
  }

  /** What `e` adds to the block at `i` */
  function Added(e: ProxyEvent, i: nat): string {
    if (e.BlockDelta? || e.ToolCallDelta?) && e.index == i then e.delta else ""
  }

  function Deltas(events: seq<ProxyEvent>, i: nat): string {
    if events == [] then "" else Deltas(events[..|events| - 1], i) + Added(events[|events| - 1], i)
  }

  /** The deltas are in the order of the events. */
  lemma {:induction false} DeltasConcat(a: seq<ProxyEvent>, b: seq<ProxyEvent>, i: nat)
    ensures Deltas(a + b, i) == Deltas(a, i) + Deltas(b, i)
    ensures |b| == 1 ==> Deltas(b, i) == Added(b[0], i)
  {
    hide Added;
    if b == [] {
      assert a + b == a;
    } else {
      var n := |b| - 1;
      DeltasConcat(a, b[..n], i);
      assert (a + b)[..|a| + n] == a + b[..n];
    }
  }

  /** The last end of the block at `i` */
  function LastEnd(events: seq<ProxyEvent>, i: nat, call: bool): Option<ProxyEvent> {
    if events == [] then None
    else if events[|events| - 1].Ends(i, call) then Some(events[|events| - 1])
    else LastEnd(events[..|events| - 1], i, call)
  }

  lemma {:induction false} EndsLast(events: seq<ProxyEvent>, t: nat, i: nat, call: bool)
    requires t < |events| && (if call then events[t].ToolCallEnd? else events[t].BlockEnd?) && events[t].index == i
    requires forall j | t < j < |events| :: !events[j].Ends(i, call)
    ensures LastEnd(events, i, call) == Some(events[t])
  {
    if t < |events| - 1 {
      EndsLast(events[..|events| - 1], t, i, call);
    }
  }

  lemma {:induction false} NeverEnds(events: seq<ProxyEvent>, i: nat, call: bool)
    requires forall e | e in events :: !e.Ends(i, call)
    ensures LastEnd(events, i, call) == None
  {
    if events != [] {
      NeverEnds(events[..|events| - 1], i, call);
    }
  }

  /** Nothing among `events` starts a block at `i`. */
  ghost predicate NoStart(events: seq<ProxyEvent>, i: nat) {
    forall e | e in events :: !e.Starts(i)
  }

  /** Arguments came for the tool call at `i`. */
  predicate Extends(events: seq<ProxyEvent>, i: nat) {
    events != [] && (Extends(events[..|events| - 1], i)
                     || (events[|events| - 1].ToolCallDelta? && events[|events| - 1].index == i))
  }

  /** What is at `i` after a text or thinking block was started there */
  predicate BlockIs(s: State, start: ProxyEvent, i: nat, text: string, end: Option<ProxyEvent>)
    requires start.BlockStart?
  {
    && i in s.content && OfKind(s.content[i], start.kind) && s.content[i].text == text
    && if end.None? then s.content[i].signature == None
       else end.value.BlockEnd? && s.content[i].signature == end.value.signature
  }

  predicate CallIs(c: Codec, s: State, start: ProxyEvent, i: nat, deltas: string, some: bool, end: Option<ProxyEvent>)
    requires start.ToolCallStart?
  {
    && i in s.content
    && if end.Some? then
         end.value.ToolCallEnd? && s.content[i] == ToolCall(end.value.name, end.value.arguments) && i !in s.streams
       else
         && i in s.streams && s.streams[i] == deltas
         && s.content[i] == ToolCall(start.name, if some then c.arguments(deltas) else "")
  }

  /**
   * A text or thinking block holds the deltas since it was last started and the signature of its last end, and nothing
   * else.
   */
  lemma BlockRebuilt(c: Codec, before: seq<ProxyEvent>, start: ProxyEvent, since: seq<ProxyEvent>, i: nat)
    requires start.BlockStart? && start.index == i && NoStart(since, i)
    requires !AfterAll(c, INITIAL, before + [start] + since).failed
    ensures var content := AfterAll(c, INITIAL, before + [start] + since).content;
            var end := LastEnd(since, i, false);
            && i in content && (end.Some? ==> end.value.BlockEnd?)
            && var signature := if end.Some? then end.value.signature else None;
               content[i] == if start.kind.TextKind? then Text(Deltas(since, i), signature)
                             else Thinking(Deltas(since, i), signature)
  {
    hide AfterEvent, INITIAL, Deltas, LastEnd;
    AllSplit(c, INITIAL, before, start, since);
    BlockSince(c, AfterAll(c, INITIAL, before), start, since, i);
  }

  lemma {:induction false} BlockSince(c: Codec, s: State, start: ProxyEvent, since: seq<ProxyEvent>, i: nat)
    requires start.BlockStart? && start.index == i && NoStart(since, i)
    requires !AfterAll(c, AfterEvent(c, s, start), since).failed
    ensures BlockIs(AfterAll(c, AfterEvent(c, s, start), since), start, i, Deltas(since, i), LastEnd(since, i, false))
  {
    hide AfterEvent, OfKind;
    if since == [] {
      BlockStarted(c, s, start);
    } else {
      var n := |since| - 1;
      BlockSince(c, s, start, since[..n], i);
      BlockGrown(c, AfterAll(c, AfterEvent(c, s, start), since[..n]), since[n], i, start.kind);
    }
  }

  /**
   * A tool call holds what its last end said; before it ended, its name and what the parser makes of all deltas since
   * it was last started.
   */
  lemma ToolCallRebuilt(c: Codec, before: seq<ProxyEvent>, start: ProxyEvent, since: seq<ProxyEvent>, i: nat)
    requires start.ToolCallStart? && start.index == i && NoStart(since, i)
    requires !AfterAll(c, INITIAL, before + [start] + since).failed
    ensures var content, end := AfterAll(c, INITIAL, before + [start] + since).content, LastEnd(since, i, true);
            && i in content && (end.Some? ==> end.value.ToolCallEnd?)
            && content[i] == if end.Some? then ToolCall(end.value.name, end.value.arguments)
                             else ToolCall(start.name, if Extends(since, i) then c.arguments(Deltas(since, i)) else "")
  {
    hide AfterEvent, INITIAL, Deltas, LastEnd;
    AllSplit(c, INITIAL, before, start, since);
    CallSince(c, AfterAll(c, INITIAL, before), start, since, i);
  }

  lemma {:induction false} CallSince(c: Codec, s: State, start: ProxyEvent, since: seq<ProxyEvent>, i: nat)
    requires start.ToolCallStart? && start.index == i && NoStart(since, i)
    requires !AfterAll(c, AfterEvent(c, s, start), since).failed
    ensures CallIs(c, AfterAll(c, AfterEvent(c, s, start), since), start, i, Deltas(since, i), Extends(since, i),
                   LastEnd(since, i, true))
  {
    hide AfterEvent;
    if since == [] {
      CallStarted(c, s, start);
    } else {
      var n := |since| - 1;
      CallSince(c, s, start, since[..n], i);
      CallGrown(c, AfterAll(c, AfterEvent(c, s, start), since[..n]), since[n], i);
      assert Added(since[n], i) == "" ==> Deltas(since, i) == Deltas(since[..n], i);
    }
  }

  lemma {:induction false} AllSplit(c: Codec, s: State, a: seq<ProxyEvent>, e: ProxyEvent, b: seq<ProxyEvent>)
    requires !AfterAll(c, s, a + [e] + b).failed
    ensures !AfterAll(c, s, a).failed
    ensures AfterAll(c, s, a + [e] + b) == AfterAll(c, AfterEvent(c, AfterAll(c, s, a), e), b)
    decreases b
  {
    hide AfterEvent;
    var all := a + [e] + b;
    if b == [] {
      assert all[..|a|] == a && all[|a|] == e;
    } else {
      var n := |b| - 1;
      assert all[..|all| - 1] == a + [e] + b[..n] && all[|all| - 1] == b[n];
      AllSplit(c, s, a, e, b[..n]);
    }
  }

  lemma BlockStarted(c: Codec, s: State, e: ProxyEvent)
    requires e.BlockStart?
    ensures var content := AfterEvent(c, s, e).content;
            && e.index in content && OfKind(content[e.index], e.kind)
            && content[e.index].text == "" && content[e.index].signature == None
  {
  }

  lemma BlockGrown(c: Codec, s: State, e: ProxyEvent, i: nat, k: Kind)
    requires !e.Starts(i) && i in s.content && OfKind(s.content[i], k) && !AfterEvent(c, s, e).failed
    ensures var content := AfterEvent(c, s, e).content;
            && i in content && OfKind(content[i], k)
            && content[i].text == s.content[i].text + Added(e, i)
            && content[i].signature == if e.BlockEnd? && e.index == i then e.signature else s.content[i].signature
  {
  }

  lemma CallStarted(c: Codec, s: State, e: ProxyEvent)
    requires e.ToolCallStart?
    ensures var after := AfterEvent(c, s, e);
            && e.index in after.content && after.content[e.index] == ToolCall(e.name, "")
            && e.index in after.streams && after.streams[e.index] == ""
  {
  }

  lemma CallGrown(c: Codec, s: State, e: ProxyEvent, i: nat)
    requires !e.Starts(i) && i in s.content && s.content[i].ToolCall? && !AfterEvent(c, s, e).failed
    ensures var after := AfterEvent(c, s, e);
            && i in after.content && after.content[i].ToolCall?
            && (e.Ends(i, true) ==>
                  e.ToolCallEnd? && after.content[i] == ToolCall(e.name, e.arguments) && i !in after.streams)
            && (!e.Ends(i, true) ==> (i in after.streams <==> i in s.streams))
            && (!e.Ends(i, true) && i in s.streams ==> after.streams[i] == s.streams[i] + Added(e, i))
            && (!e.Ends(i, true) && !(e.ToolCallDelta? && e.index == i) ==>
                  after.content[i] == s.content[i] && Added(e, i) == "")
            && (e.ToolCallDelta? && e.index == i ==>
                  i in s.streams
                  && after.content[i] == ToolCall(s.content[i].name, c.arguments(s.streams[i] + e.delta)))
  {
  }

  /** What throws: a delta or an end of a block that is not there, or a delta of a tool call that has ended. */
  lemma EventThrows(c: Codec, s: State, e: ProxyEvent)
    requires !s.failed
    ensures AfterEvent(c, s, e).failed <==>
              || ((e.BlockDelta? || e.BlockEnd?) &&
                  !(e.index in s.content &&
                    if e.kind.TextKind? then s.content[e.index].Text? else s.content[e.index].Thinking?))
              || (e.ToolCallDelta? &&
                  !(e.index in s.content && s.content[e.index].ToolCall? && e.index in s.streams))
    ensures AfterEvent(c, s, e).failed ==> AfterEvent(c, s, e) == s.(failed := true)
  {
  }

  /** An event is passed on unless it throws, except the end of a tool call that is not there, which does nothing. */
  lemma EventPassed(c: Codec, s: State, e: ProxyEvent)
    requires !s.failed
    ensures var after := AfterEvent(c, s, e);
            var nothing := e.ToolCallEnd? && !(e.index in s.content && s.content[e.index].ToolCall?);
            && (nothing ==> after == s)
            && (!nothing && !after.failed ==> after.pushed == s.pushed + [Passed(e)])
            && (after.terminal <==> s.terminal || e.Done? || e.Error?)
  {
  }

  // ---------------------------------------------------------------- lines

  /** `split("\\n")`: never empty, and the last line is what no newline ended. */
  function Lines(text: string): (lines: seq<string>)
    ensures lines != []
    decreases |text|
  {
    if text == "" then [""] else
      var n := |text| - 1;
      Grow(Lines(text[..n]), text[n])
  }

  function Joined(lines: seq<string>): string
    requires lines != []
  {
    if |lines| == 1 then lines[0] else Joined(lines[..|lines| - 1]) + "\n" + lines[|lines| - 1]
  }

  /** The lines are the text, and none of them holds a newline. */
  lemma {:induction false} LinesJoined(text: string)
    ensures Joined(Lines(text)) == text
    ensures forall l | l in Lines(text) :: '\n' !in l
  {
    hide Lines, Joined, Grow;
    if text == "" {
      LinesOfNothing();
    } else {
      var n := |text| - 1;
      assert text == text[..n] + [text[n]];
      LinesJoined(text[..n]);
      LinesNext(text[..n], text[n]);
      JoinedGrown(Lines(text[..n]), text[n]);
    }
  }

  lemma JoinedGrown(lines: seq<string>, c: char)
    requires lines != [] && forall l | l in lines :: '\n' !in l
    ensures Joined(Grow(lines, c)) == Joined(lines) + [c]
    ensures forall l | l in Grow(lines, c) :: '\n' !in l
  {
    var m := |lines| - 1;
    if c == '\n' {
      assert (lines + [""])[..m + 1] == lines;
    } else {
      var longer := lines[..m] + [lines[m] + [c]];
      assert longer[..m] == lines[..m] && longer[m] == lines[m] + [c];
      if m > 0 {
        assert Joined(lines[..m]) + "\n" + (lines[m] + [c]) == Joined(lines[..m]) + "\n" + lines[m] + [c];
      }
    }
  }

  /** More text only goes on with the last line. */
  lemma {:induction false} LinesConcat(a: string, b: string)
    ensures var m := |Lines(a)| - 1;
            Lines(a + b) == Lines(a)[..m] + Lines(Lines(a)[m] + b)
  {
    hide Lines;
    var lines := Lines(a);
    var m := |lines| - 1;
    var last := lines[m];
    if b == "" {
      assert a + b == a && last + b == last;
      LinesJoined(a);
      OneLine(last);
    } else {
      var n := |b| - 1;
      LinesConcat(a, b[..n]);
      assert a + b == (a + b[..n]) + [b[n]] && last + b == (last + b[..n]) + [b[n]];
      LinesNext(a + b[..n], b[n]);
      LinesNext(last + b[..n], b[n]);
      Grown(lines[..m], Lines(last + b[..n]), b[n]);
    }
  }

  function Grow(lines: seq<string>, c: char): seq<string>
    requires lines != []
  {
    if c == '\n' then lines + [""] else lines[..|lines| - 1] + [lines[|lines| - 1] + [c]]
  }

  lemma LinesNext(text: string, c: char)
    ensures Lines(text + [c]) == Grow(Lines(text), c)
  {
    assert (text + [c])[..|text|] == text;
  }

  lemma Grown(a: seq<string>, b: seq<string>, c: char)
    requires b != []
    ensures Grow(a + b, c) == a + Grow(b, c)
  {
    var all := a + b;
    assert all[|all| - 1] == b[|b| - 1] && all[..|all| - 1] == a + b[..|b| - 1];
  }

  lemma {:induction false} OneLine(line: string)
    requires '\n' !in line
    ensures Lines(line) == [line]
  {
    if line != "" {
      OneLine(line[..|line| - 1]);
      assert line == line[..|line| - 1] + [line[|line| - 1]];
    }
  }

  // ---------------------------------------------------------------- the read loop

  /** `processLine`; a line that does not parse throws. */
  function AfterLine(c: Codec, s: State, line: string): State {
    if s.failed || !("data: " <= line) then s else
      var data := c.trim(line[6..]);
      if data == "" then s else
        match c.parse(data)
        case None => s.(failed := true)
        case Some(e) => AfterEvent(c, s, e)
  }

  function AfterLines(c: Codec, s: State, lines: seq<string>): State {
    if lines == [] then s else
      AfterLine(c, AfterLines(c, s, lines[..|lines| - 1]), lines[|lines| - 1])
  }

  lemma {:induction false} AfterConcat(c: Codec, s: State, a: seq<string>, b: seq<string>)
    ensures AfterLines(c, s, a + b) == AfterLines(c, AfterLines(c, s, a), b)
  {
    if b == [] {
      assert a + b == a;
    } else {
      var n := |b| - 1;
      AfterConcat(c, s, a, b[..n]);
      assert (a + b)[..|a| + n] == a + b[..n];
    }
  }

  /** The event a line carries, if any */
  function EventOf(c: Codec, line: string): Option<ProxyEvent> {
    if "data: " <= line && c.trim(line[6..]) != "" then c.parse(c.trim(line[6..])) else None
  }

  function Events(c: Codec, lines: seq<string>): seq<ProxyEvent> {
    if lines == [] then [] else
      var before, e := Events(c, lines[..|lines| - 1]), EventOf(c, lines[|lines| - 1]);
      if e.Some? then before + [e.value] else before
  }

  /** Unless something threw, the message is what the events of the lines make of it. */
  lemma {:induction false} LinesEvents(c: Codec, s: State, lines: seq<string>)
    requires !AfterLines(c, s, lines).failed
    ensures AfterLines(c, s, lines) == AfterAll(c, s, Events(c, lines))
  {
    if lines != [] {
      hide AfterEvent;
      var n := |lines| - 1;
      LinesEvents(c, s, lines[..n]);
      var before, e := Events(c, lines[..n]), EventOf(c, lines[n]);
      if e.Some? {
        assert (before + [e.value])[..|before|] == before;
      }
    }
  }

  /** So a block of a response holds the deltas of the lines since the one that started it. */
  lemma BlockStreamed(c: Codec, lines: seq<string>, before: seq<ProxyEvent>, start: ProxyEvent, since: seq<ProxyEvent>,
                      i: nat)
    requires !AfterLines(c, INITIAL, lines).failed && Events(c, lines) == before + [start] + since
    requires start.Starts(i) && NoStart(since, i) && LastEnd(since, i, start.ToolCallStart?).None?
    ensures var content := AfterLines(c, INITIAL, lines).content;
            && i in content
            && content[i] ==
               if start.ToolCallStart? then
                 ToolCall(start.name, if Extends(since, i) then c.arguments(Deltas(since, i)) else "")
               else if start.kind.TextKind? then Text(Deltas(since, i), None)
               else Thinking(Deltas(since, i), None)
  {
    hide INITIAL, AfterLines, AfterAll, Events, Deltas, LastEnd, NoStart, Extends;
    LinesEvents(c, INITIAL, lines);
    if start.BlockStart? {
      BlockRebuilt(c, before, start, since, i);
    } else {
      ToolCallRebuilt(c, before, start, since, i);
    }
  }

  /** The events of a response are those of its lines, in order. */
  lemma {:induction false} EventsConcat(c: Codec, a: seq<string>, b: seq<string>)
    ensures Events(c, a + b) == Events(c, a) + Events(c, b)
    ensures |b| == 1 ==> Events(c, b) == if EventOf(c, b[0]).Some? then [EventOf(c, b[0]).value] else []
  {
    hide EventOf;
    if b == [] {
      assert a + b == a;
    } else {
      var n := |b| - 1;
      EventsConcat(c, a, b[..n]);
      assert (a + b)[..|a| + n] == a + b[..n];
    }
  }

  /** A line carries an event exactly if it starts with `data: ` and something is left when the rest is trimmed. */
  lemma LineReads(c: Codec, s: State, rest: string)
    requires !s.failed
    ensures var data := c.trim(rest);
            && (data == "" ==> AfterLine(c, s, "data: " + rest) == s)
            && (data != "" && c.parse(data).None? ==> AfterLine(c, s, "data: " + rest) == s.(failed := true))
            && (data != "" && c.parse(data).Some? ==>
                  AfterLine(c, s, "data: " + rest) == AfterEvent(c, s, c.parse(data).value)
                  && EventOf(c, "data: " + rest) == Some(c.parse(data).value))
    ensures forall line | EventOf(c, line).Some? || AfterLine(c, s, line) != s :: "data: " <= line
  {
    hide AfterEvent;
    assert ("data: " + rest)[6..] == rest;
  }

  /** The error of the client's own, if something threw or the server did not end the response. */
  function Close(s: State): seq<Out> {
    if s.failed || !s.terminal then s.pushed + [Failed] else s.pushed
  }

  function Concat(chunks: seq<string>): string {
    if chunks == [] then "" else Concat(chunks[..|chunks| - 1]) + chunks[|chunks| - 1]
  }

  /** The state after a text that goes on: its last line still waits in the buffer. */
  function Midway(c: Codec, text: string): State {
    AfterLines(c, INITIAL, Lines(text)[..|Lines(text)| - 1])
  }

  /** The chunks are joined in the order in which they came. */
  lemma {:induction false} ChunksConcat(a: seq<string>, b: seq<string>)
    ensures Concat(a + b) == Concat(a) + Concat(b)
    ensures |b| == 1 ==> Concat(b) == b[0]
  {
    if b == [] {
      assert a + b == a;
    } else {
      var n := |b| - 1;
      ChunksConcat(a, b[..n]);
      assert (a + b)[..|a| + n] == a + b[..n];
    }
  }

  lemma {:induction false} ConcatSplit(chunks: seq<string>, k: nat)
    requires k <= |chunks|
    ensures exists more :: Concat(chunks) == Concat(chunks[..k]) + more
  {
    if k == |chunks| {
      assert chunks[..k] == chunks && Concat(chunks) == Concat(chunks[..k]) + "";
    } else {
      var n := |chunks| - 1;
      ConcatSplit(chunks[..n], k);
      assert chunks[..n][..k] == chunks[..k];
      var more :| Concat(chunks[..n]) == Concat(chunks[..k]) + more;
      assert Concat(chunks) == Concat(chunks[..k]) + (more + chunks[n]);
    }
  }

  lemma {:induction false} FailedStays(c: Codec, s: State, lines: seq<string>)
    requires s.failed
    ensures AfterLines(c, s, lines) == s
  {
    if lines != [] {
      FailedStays(c, s, lines[..|lines| - 1]);
    }
  }

  /** What threw decides, whatever text follows. */
  lemma FailedEnds(c: Codec, text: string, more: string)
    requires Midway(c, text).failed
    ensures Midway(c, text + more) == Midway(c, text) == AfterLines(c, INITIAL, Lines(text + more))
  {
    hide Lines, INITIAL, AfterLine;
    var before := Lines(text)[..|Lines(text)| - 1];
    var rest := Lines(Lines(text)[|Lines(text)| - 1] + more);
    LinesConcat(text, more);
    AfterConcat(c, INITIAL, before, rest);
    FailedStays(c, Midway(c, text), rest);
    assert Lines(text + more)[..|Lines(text + more)| - 1] == before + rest[..|rest| - 1];
    AfterConcat(c, INITIAL, before, rest[..|rest| - 1]);
    FailedStays(c, Midway(c, text), rest[..|rest| - 1]);
  }

  lemma FailsOn(c: Codec, chunks: seq<string>, k: nat, cut: Option<nat>, tail: string)
    requires k <= |chunks| && (cut.Some? ==> k <= cut.value <= |chunks|) && Midway(c, Concat(chunks[..k])).failed
    ensures var s := Midway(c, Concat(chunks[..k]));
            && (cut.None? ==> AfterLines(c, INITIAL, Lines(Concat(chunks) + tail)) == s)
            && (cut.Some? ==> Midway(c, Concat(chunks[..cut.value])) == s)
  {
    hide Midway, Lines, INITIAL, AfterLines, Concat;
    var text := Concat(chunks[..k]);
    if cut.None? {
      ConcatSplit(chunks, k);
      var more :| Concat(chunks) == text + more;
      FailedEnds(c, text, more + tail);
      assert text + more + tail == text + (more + tail);
    } else {
      ConcatSplit(chunks[..cut.value], k);
      assert chunks[..cut.value][..k] == chunks[..k];
      var more :| Concat(chunks[..cut.value]) == text + more;
      FailedEnds(c, text, more);
    }
  }

  /** The end of the text ends its last line too. */
  lemma Finish(c: Codec, text: string, tail: string)
    requires '\n' !in tail
    ensures AfterLines(c, INITIAL, Lines(text + tail)) ==
            AfterLine(c, Midway(c, text), Lines(text)[|Lines(text)| - 1] + tail)
  {
    hide Lines, INITIAL, AfterLine;
    var m := |Lines(text)| - 1;
    LinesJoined(text);
    LinesConcat(text, tail);
    OneLine(Lines(text)[m] + tail);
    var all := Lines(text + tail);
    assert all[..m] == Lines(text)[..m] && |all| == m + 1;
  }

  lemma LinesOfNothing()
    ensures Lines("") == [""] && Joined([""]) == ""
  {
  }

  lemma EmptyLine(c: Codec, s: State)
    ensures AfterLine(c, s, "") == s
  {
  }

  /** The consumer is told of the end. */
  ghost predicate HasEnd(pushed: seq<Out>) {
    exists o :: o in pushed && (o.Failed? || o.event.Done? || o.event.Error?)
  }

  lemma {:induction false} TerminalSeen(c: Codec, lines: seq<string>)
    ensures AfterLines(c, INITIAL, lines).terminal <==> HasEnd(AfterLines(c, INITIAL, lines).pushed)
  {
    hide AfterLine;
    if lines != [] {
      TerminalSeen(c, lines[..|lines| - 1]);
      LinePushes(c, AfterLines(c, INITIAL, lines[..|lines| - 1]), lines[|lines| - 1]);
    }
  }

  lemma LinePushes(c: Codec, s: State, line: string)
    requires s.terminal <==> HasEnd(s.pushed)
    ensures AfterLine(c, s, line).terminal <==> HasEnd(AfterLine(c, s, line).pushed)
  {
    hide AfterEvent, HasEnd;
    if !s.failed && "data: " <= line {
      var e := c.parse(c.trim(line[6..]));
      if e.Some? {
        EventPushes(c, s, e.value);
      }
    }
  }

  lemma EventPushes(c: Codec, s: State, e: ProxyEvent)
    requires s.terminal <==> HasEnd(s.pushed)
    ensures AfterEvent(c, s, e).terminal <==> HasEnd(AfterEvent(c, s, e).pushed)
  {
    var after := AfterEvent(c, s, e);
    if after.pushed != s.pushed {
      assert after.pushed == s.pushed + [Passed(e)] && (after.terminal <==> s.terminal || e.Done? || e.Error?);
      EndAdded(s.pushed, Passed(e));
    }
  }

  lemma EndAdded(pushed: seq<Out>, o: Out)
    ensures HasEnd(pushed + [o]) <==> HasEnd(pushed) || o.Failed? || o.event.Done? || o.event.Error?
  {
    assert forall x :: x in pushed + [o] <==> x in pushed || x == o;
  }

  /**
   * Done, an error of the server or one of the client: a run is never left open. The client adds its own exactly if
   * something threw or the server sent none.
   */
  lemma AlwaysEnds(c: Codec, lines: seq<string>)
    ensures var s := AfterLines(c, INITIAL, lines);
            && HasEnd(Close(s))
            && Close(s) == if s.failed || !HasEnd(s.pushed) then s.pushed + [Failed] else s.pushed
  {
    TerminalSeen(c, lines);
    var s := AfterLines(c, INITIAL, lines);
    assert s.failed || !s.terminal ==> Failed in Close(s);
  }

  // ---------------------------------------------------------------- the source's loop

  class Client {
    const codec: Codec
    var content: map<nat, Block>
    var streams: map<nat, string>
    var pushed: seq<Out>
    var terminal: bool
    var buffer: string

    /** Everything but the buffer; `failed`: something threw. */
    function Now(failed: bool): State
      reads this
    {
      State(content, streams, pushed, terminal, failed)
    }

    constructor (codec: Codec)
      ensures Now(false) == INITIAL && buffer == "" && this.codec == codec
    {
      this.codec := codec;
      content, streams, pushed, terminal, buffer := map[], map[], [], false, "";
    }

    /** `processProxyEvent` and the push after it */
    method ProcessProxyEvent(e: ProxyEvent) returns (thrown: bool)
      modifies this`content, this`streams, this`pushed, this`terminal
      ensures Now(thrown) == AfterEvent(codec, old(Now(false)), e)
    {
      thrown := false;
      var emitted := true;
      match e {
        case Begin =>
        case BlockStart(i, kind) =>
          content := content[i := if kind.TextKind? then Text("", None) else Thinking("", None)];
        case BlockDelta(i, kind, delta) =>
          if i !in content || !OfKind(content[i], kind) {
            return true;
          }
          var b := content[i];
          content := content[i := b.(text := b.text + delta)];
        case BlockEnd(i, kind, signature) =>
          if i !in content || !OfKind(content[i], kind) {
            return true;
          }
          var b := content[i];
          content := content[i := b.(signature := signature)];
        case ToolCallStart(i, name) =>
          content := content[i := ToolCall(name, "")];
          streams := streams[i := ""];
        case ToolCallDelta(i, delta) =>
          if i !in content || !content[i].ToolCall? || i !in streams {
            return true;
          }
          streams := streams[i := streams[i] + delta];
          content := content[i := content[i].(arguments := codec.arguments(streams[i]))];
        case ToolCallEnd(i, name, arguments) =>
          emitted := i in content && content[i].ToolCall?;
          if emitted {
            content := content[i := ToolCall(name, arguments)];
            streams := streams - {i};
          }
        case Done =>
          terminal := true;
        case Error =>
          terminal := true;
      }
      if emitted {
        pushed := pushed + [Passed(e)];
      }
    }

    /** `processLine` */
    method ProcessLine(line: string) returns (thrown: bool)
      modifies this`content, this`streams, this`pushed, this`terminal
      ensures Now(thrown) == AfterLine(codec, old(Now(false)), line)
    {
      hide AfterEvent;
      if !("data: " <= line) {
        return false;
      }
      var data := codec.trim(line[6..]);
      if data == "" {
        return false;
      }
      var e := codec.parse(data);
      if e.None? {
        return true;
      }
      thrown := ProcessProxyEvent(e.value);
    }

    /** One round of the read loop: the lines that are complete now are processed. */
    method ReadChunk(ghost text: string, chunk: string) returns (thrown: bool)
      requires Now(false) == Midway(codec, text) && buffer == Lines(text)[|Lines(text)| - 1]
      modifies this
      ensures Now(thrown) == Midway(codec, text + chunk)
      ensures buffer == Lines(text + chunk)[|Lines(text + chunk)| - 1]
    {
      hide Lines, INITIAL, AfterLine;
      LinesConcat(text, chunk);
      var lines := Lines(buffer + chunk);
      buffer := lines[|lines| - 1];
      lines := lines[..|lines| - 1];
      AfterConcat(codec, INITIAL, Lines(text)[..|Lines(text)| - 1], lines);
      assert Lines(text + chunk)[..|Lines(text + chunk)| - 1] == Lines(text)[..|Lines(text)| - 1] + lines;
      thrown := ProcessAllLines(lines);
    }

    method ProcessAllLines(lines: seq<string>) returns (thrown: bool)
      modifies this`content, this`streams, this`pushed, this`terminal
      ensures Now(thrown) == AfterLines(codec, old(Now(false)), lines)
    {
      hide AfterLine;
      ghost var start := Now(false);
      for i := 0 to |lines|
        invariant Now(false) == AfterLines(codec, start, lines[..i])
      {
        assert lines[..i + 1][..i] == lines[..i];
        thrown := ProcessLine(lines[i]);
        if thrown {
          assert lines == lines[..i + 1] + lines[i + 1..];
          AfterConcat(codec, start, lines[..i + 1], lines[i + 1..]);
          FailedStays(codec, Now(true), lines[i + 1..]);
          return;
        }
      }
      assert lines[..|lines|] == lines;
      return false;
    }

    /**
     * The read loop. `cut`: the read throws, or the abort is seen, after that many chunks; `tail` is what the
     * decoder still had at the end. However the text was cut into chunks, the consumer sees the same.
     */
    method StreamProxy(chunks: seq<string>, cut: Option<nat>, tail: string)
      requires Now(false) == INITIAL && buffer == ""
      requires '\n' !in tail && (cut.Some? ==> cut.value <= |chunks|)
      modifies this
      ensures cut.None? ==>
                var s := AfterLines(codec, INITIAL, Lines(Concat(chunks) + tail));
                content == s.content && pushed == Close(s)
      ensures cut.Some? ==>
                var s := Midway(codec, Concat(chunks[..cut.value]));
                content == s.content && pushed == s.pushed + [Failed]
    {
      hide Lines, INITIAL, AfterLine;
      var last := if cut.Some? then cut.value else |chunks|;
      LinesOfNothing();
      for i := 0 to last
        invariant Now(false) == Midway(codec, Concat(chunks[..i]))
        invariant buffer == Lines(Concat(chunks[..i]))[|Lines(Concat(chunks[..i]))| - 1]
      {
        assert chunks[..i + 1][..i] == chunks[..i];
        var thrown := ReadChunk(Concat(chunks[..i]), chunks[i]);
        if thrown {
          FailsOn(codec, chunks, i + 1, cut, tail);
          pushed := pushed + [Failed];
          return;
        }
      }
      assert cut.None? ==> chunks[..last] == chunks;
      if cut.Some? {
        pushed := pushed + [Failed];
      } else {
        Flush(Concat(chunks), tail);
      }
    }

    /** What is left in the buffer is the last line. */
    method Flush(ghost text: string, tail: string)
      requires Now(false) == Midway(codec, text) && buffer == Lines(text)[|Lines(text)| - 1] && '\n' !in tail
      modifies this
      ensures var s := AfterLines(codec, INITIAL, Lines(text + tail)); content == s.content && pushed == Close(s)
    {
      hide Lines, INITIAL, AfterLine, Midway, AfterLines;
      Finish(codec, text, tail);
      EmptyLine(codec, Now(false));
      buffer := buffer + tail;
      var thrown := false;
      if buffer != "" {
        thrown := ProcessLine(buffer);
      }
      if thrown || !terminal {
        pushed := pushed + [Failed];
      }
    }
  }
}
