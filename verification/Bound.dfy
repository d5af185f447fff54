/**
 * `boundOutput`: the part of a text that fits a byte and a line limit.
 *
 * The window is first described without any scanning (`IsHeadEnd`, `IsTailStart`: the longest run of whole
 * lines that fits, else a cut of one line), then the scanning methods are proved to find it.
 */
module Bound {
  import opened Utf8

  datatype Retain = Head | Tail

  datatype Limits = Limits(maxBytes: nat, maxLines: nat, retain: Retain)

  /** The part of a text that is kept, its size, and how much of the text is missing from it. */
  datatype Slice = Slice(text: Text, bytes: nat, droppedBytes: int, droppedLines: int)

  // ---------------------------------------------------------------- what the window is

  /** Lines of `b`; a final unterminated line counts. */
  function Lines(b: seq<int>): nat {
    Newlines(b) + if b == [] || b[|b| - 1] == NEWLINE then 0 else 1
  }

  predicate Fits(b: seq<Byte>, limits: Limits) {
    |b| <= limits.maxBytes && Lines(b) <= limits.maxLines
  }

  /** Nothing is ever kept. */
  predicate Closed(limits: Limits) {
    limits.maxLines == 0 || limits.maxBytes == 0
  }

  predicate LineStart(b: seq<Byte>, i: int) {
    i == 0 || (0 < i < |b| && b[i - 1] == NEWLINE)
  }

  predicate LineEnd(b: seq<Byte>, i: int) {
    i == |b| || (0 < i < |b| && b[i - 1] == NEWLINE)
  }

  /** From `i` on, `b` is whole lines that fit. */
  predicate WholeTail(b: seq<Byte>, limits: Limits, i: int) {
    0 <= i <= |b| && LineStart(b, i) && Fits(b[i..], limits)
  }

  /** Up to `i`, `b` is whole lines that fit. */
  predicate WholeHead(b: seq<Byte>, limits: Limits, i: int) {
    0 <= i <= |b| && LineEnd(b, i) && Fits(b[..i], limits)
  }

  ghost predicate IsTailStart(b: seq<Byte>, limits: Limits, start: int) {
    && 0 <= start <= |b|
    && if Closed(limits) then start == |b|
       else if exists i :: WholeTail(b, limits, i) then
         WholeTail(b, limits, start) && forall i | WholeTail(b, limits, i) :: start <= i
       else
         && IsBoundary(b, start) && |b| - start <= limits.maxBytes
         && forall i | IsBoundary(b, i) && |b| - i <= limits.maxBytes :: start <= i
  }

  ghost predicate IsHeadEnd(b: seq<Byte>, limits: Limits, end: int) {
    && 0 <= end <= |b|
    && if Closed(limits) then end == 0
       else if exists i :: WholeHead(b, limits, i) then
         WholeHead(b, limits, end) && forall i | WholeHead(b, limits, i) :: i <= end
       else
         && IsBoundary(b, end) && end <= limits.maxBytes
         && forall i | IsBoundary(b, i) && i <= limits.maxBytes :: i <= end
  }

  ghost predicate IsWindow(b: seq<Byte>, limits: Limits, from: int, to: int) {
    if limits.retain.Head? then from == 0 && IsHeadEnd(b, limits, to) else to == |b| && IsTailStart(b, limits, from)
  }

  /** `r` is the slice `b[from..to]` of the encoded text and counts all of the rest. */
  predicate IsSlice(b: seq<Byte>, from: int, to: int, r: Slice) {
    && 0 <= from <= to <= |b|
    && Encode(r.text) == b[from..to]
    && r.bytes == to - from
    && r.bytes + r.droppedBytes == |b|
    && Lines(b[from..to]) + r.droppedLines == Lines(b)
  }

  /** `r` is the window of `text` and counts all of the rest. */
  ghost predicate IsBounded(text: Text, limits: Limits, r: Slice) {
    exists from, to :: IsWindow(Encode(text), limits, from, to) && IsSlice(Encode(text), from, to, r)
  }

  /** The window is unique, so two bounded outputs of one text are equal. */
  lemma BoundedUnique(text: Text, limits: Limits, r: Slice, r': Slice)
    requires IsBounded(text, limits, r) && IsBounded(text, limits, r')
    ensures r == r'
  {
    var b := Encode(text);
    var from, to :| IsWindow(b, limits, from, to) && IsSlice(b, from, to, r);
    var from', to' :| IsWindow(b, limits, from', to') && IsSlice(b, from', to', r');
    WindowUnique(b, limits, from, to, from', to');
    DecodeEncode(r.text);
    DecodeEncode(r'.text);
  }

  lemma WindowUnique(b: seq<Byte>, limits: Limits, from: int, to: int, from': int, to': int)
    requires IsWindow(b, limits, from, to) && IsWindow(b, limits, from', to')
    ensures from == from' && to == to'
  {
  }

  /** Whatever is kept, whole lines or a cut, is within both limits. */
  lemma BoundedFits(text: Text, limits: Limits, r: Slice)
    requires IsBounded(text, limits, r)
    ensures r.bytes <= limits.maxBytes && Lines(Encode(r.text)) <= limits.maxLines
  {
    hide EncodeScalar, Encode, Newlines;
    var b := Encode(text);
    var from, to :| IsWindow(b, limits, from, to) && IsSlice(b, from, to, r);
    if Closed(limits) {
      assert b[from..to] == [];
    } else if limits.retain.Head? {
      assert b[from..to] == b[..to];
      var i := FirstLine(b);
      assert to <= i || WholeHead(b, limits, i) || WholeHead(b, limits, to);
    } else {
      assert b[from..to] == b[from..];
      var i := LastLine(b);
      assert i <= from || WholeTail(b, limits, i) || WholeTail(b, limits, from);
    }
  }

  // ---------------------------------------------------------------- a window needs only part of the stream

  /** One byte or one newline more than a tail window may hold. */
  predicate Margin(s: seq<Byte>, limits: Limits) {
    |s| > limits.maxBytes || Newlines(s) > limits.maxLines
  }

  lemma NewlinesConcat(s: seq<int>, t: seq<int>)
    ensures Newlines(s + t) == Newlines(s) + Newlines(t)
  {
  }

  /** The whole lines that fit are found strictly inside a long enough suffix. */
  lemma WholeTailInSuffix(before: seq<Byte>, s: seq<Byte>, limits: Limits, i: int)
    requires before != [] && Margin(s, limits)
    ensures WholeTail(before + s, limits, i) <==> i > |before| && WholeTail(s, limits, i - |before|)
    ensures !WholeTail(s, limits, 0)
  {
    var b, n := before + s, |before|;
    assert s[0..] == s;
    if n < i <= |b| {
      assert b[i..] == s[i - n..];
    } else if 0 <= i <= n {
      assert b[i..] == before[i..] + s;
      NewlinesConcat(before[i..], s);
    }
  }

  /** The start of the last line. */
  lemma LastLine(s: seq<Byte>) returns (i: nat)
    ensures i <= |s| && LineStart(s, i)
    ensures forall k | i <= k < |s| - 1 :: s[k] != NEWLINE
    ensures forall k | i <= k <= |s| :: Lines(s[k..]) <= 1
  {
    i := if |s| == 0 then 0 else |s| - 1;
    while !LineStart(s, i)
      invariant i <= |s| && (s == [] || i < |s|)
      invariant forall k | i <= k < |s| - 1 :: s[k] != NEWLINE
      decreases i
    {
      i := i - 1;
    }
    forall k | i <= k < |s| ensures Lines(s[k..]) <= 1 {
      var line := s[k..];
      assert line == line[..|line| - 1] + [line[|line| - 1]];
      assert NEWLINE !in line[..|line| - 1];
    }
  }

  /** When the bytes fit, at least the last line does. */
  lemma LastLineFits(s: seq<Byte>, limits: Limits) returns (i: nat)
    requires !Closed(limits) && |s| <= limits.maxBytes
    ensures WholeTail(s, limits, i)
  {
    i := LastLine(s);
  }

  /** A suffix longer than the window has the same tail window, shifted. */
  lemma TailOfSuffix(before: seq<Byte>, s: seq<Byte>, limits: Limits, start: nat)
    requires before == [] || Margin(s, limits)
    requires IsTailStart(s, limits, start)
    ensures IsTailStart(before + s, limits, |before| + start)
  {
    hide Fits, Lines;
    var b, n := before + s, |before|;
    if before == [] {
      assert b == s;
    } else if !Closed(limits) {
      forall i ensures WholeTail(b, limits, i) <==> i > n && WholeTail(s, limits, i - n) {
        WholeTailInSuffix(before, s, limits, i);
      }
      if exists i :: WholeTail(s, limits, i) {
        WholeTailInSuffix(before, s, limits, n + start);
        assert WholeTail(b, limits, n + start);
      } else {
        if |s| <= limits.maxBytes {
          var i := LastLineFits(s, limits);
          assert false;
        }
        forall i | IsBoundary(b, i) && |b| - i <= limits.maxBytes ensures n + start <= i {
          assert IsBoundary(s, i - n);
        }
      }
    }
  }

  /** `s` fills the head window. */
  predicate Full(s: seq<Byte>, limits: Limits) {
    |s| > limits.maxBytes || Newlines(s) >= limits.maxLines
  }

  lemma WholeHeadInPrefix(s: seq<Byte>, after: seq<Byte>, limits: Limits, i: int)
    requires after != [] && Full(s, limits) && !Closed(limits)
    ensures WholeHead(s + after, limits, i) <==> WholeHead(s, limits, i)
  {
    var b, n := s + after, |s|;
    if 0 <= i <= n {
      assert b[..i] == s[..i];
      assert i == n ==> s[..i] == s;
    } else if n < i <= |b| {
      assert b[..i] == s + b[n..i];
      NewlinesConcat(s, b[n..i]);
      if b[i - 1] == NEWLINE {
        assert NEWLINE in b[n..i] by {
          assert b[n..i][i - 1 - n] == NEWLINE;
        }
      }
    }
  }

  /** The end of the first line. */
  lemma FirstLine(s: seq<Byte>) returns (i: nat)
    ensures i <= |s| && LineEnd(s, i)
    ensures forall k | 0 <= k <= i :: Lines(s[..k]) <= 1
  {
    i := 0;
    while !LineEnd(s, i)
      invariant i <= |s|
      invariant NEWLINE !in s[..i]
      decreases |s| - i
    {
      i := i + 1;
      if s[i - 1] == NEWLINE {
        break;
      }
    }
    forall k | 0 < k <= i ensures Lines(s[..k]) <= 1 {
      assert s[..k] == s[..k - 1] + [s[k - 1]];
      NewlinesConcat(s[..k - 1], [s[k - 1]]);
      assert forall j | 0 <= j < k - 1 :: s[j] == s[..i - 1][j];
    }
  }

  /** When the bytes fit, at least the first line does. */
  lemma FirstLineFits(s: seq<Byte>, limits: Limits) returns (i: nat)
    requires !Closed(limits) && |s| <= limits.maxBytes
    ensures WholeHead(s, limits, i)
  {
    i := FirstLine(s);
  }

  /** A prefix that fills the window has the same head window. */
  lemma HeadOfPrefix(s: seq<Byte>, after: seq<Byte>, limits: Limits, end: nat)
    requires after == [] || Full(s, limits)
    requires IsHeadEnd(s, limits, end)
    ensures IsHeadEnd(s + after, limits, end)
  {
    hide Fits, Lines;
    var b := s + after;
    if after == [] {
      assert b == s;
    } else if !Closed(limits) {
      forall i ensures WholeHead(b, limits, i) <==> WholeHead(s, limits, i) {
        WholeHeadInPrefix(s, after, limits, i);
      }
      if !exists i :: WholeHead(s, limits, i) {
        if |s| <= limits.maxBytes {
          var i := FirstLineFits(s, limits);
          assert false;
        }
        forall i | IsBoundary(b, i) && i <= limits.maxBytes ensures i <= end {
          assert IsBoundary(s, i);
        }
      }
    }
  }

  // ---------------------------------------------------------------- scanning

  /** `bytes.indexOf(NEWLINE, from)`: the first newline at or after `from`, or -1. */
  function IndexOf(b: seq<Byte>, from: nat): (r: int)
    ensures r == -1 || (from <= r < |b| && b[r] == NEWLINE)
    ensures forall k | from <= k < (if r == -1 then |b| else r) :: b[k] != NEWLINE
    decreases |b| - from
  {
    if from >= |b| then -1 else if b[from] == NEWLINE then from else IndexOf(b, from + 1)
  }

  /** `bytes.lastIndexOf(NEWLINE, from)`: the last newline at or before `from`, or -1. */
  function LastIndexOf(b: seq<Byte>, from: nat): (r: int)
    ensures r == -1 || (0 <= r <= from && r < |b| && b[r] == NEWLINE)
    ensures forall k | r < k <= from && k < |b| :: b[k] != NEWLINE
    decreases from
  {
    if from < |b| && b[from] == NEWLINE then from else if from == 0 then -1 else LastIndexOf(b, from - 1)
  }

  /** Step back from `index` to where a character begins, or stay at the end. */
  method CharacterEnd(b: seq<Byte>, index: nat) returns (end: nat)
    requires index <= |b|
    requires b != [] ==> !IsContinuation(b[0])
    ensures end <= index && IsBoundary(b, end)
    ensures forall i | IsBoundary(b, i) && i <= index :: i <= end
  {
    end := index;
    while end > 0 && end < |b| && IsContinuation(b[end])
      invariant end <= index
      invariant forall i | end < i <= index :: !IsBoundary(b, i)
    {
      end := end - 1;
    }
  }

  /** Step on from `index` past the rest of a character. */
  method CharacterStart(b: seq<Byte>, index: nat) returns (start: nat)
    requires index <= |b|
    ensures index <= start && IsBoundary(b, start)
    ensures forall i | IsBoundary(b, i) && index <= i :: start <= i
  {
    start := index;
    while start < |b| && IsContinuation(b[start])
      invariant index <= start <= |b|
      invariant forall i | index <= i < start :: !IsBoundary(b, i)
    {
      start := start + 1;
    }
  }

  method LineCount(b: seq<Byte>) returns (count: nat)
    ensures count == Lines(b)
  {
    if |b| == 0 {
      return 0;
    }
    hide Newlines, IndexOf;
    var newlines, index := 0, IndexOf(b, 0);
    ghost var seen := 0;
    while index != -1
      invariant 0 <= seen <= |b| && index == IndexOf(b, seen)
      invariant newlines == Newlines(b[..seen])
      decreases |b| - seen
    {
      NewlineFound(b, seen, index);
      newlines, seen := newlines + 1, index + 1;
      index := IndexOf(b, index + 1);
    }
    assert b == b[..seen] + b[seen..];
    NewlinesConcat(b[..seen], b[seen..]);
    return newlines + if b[|b| - 1] == NEWLINE then 0 else 1;
  }

  /** One step of a scan over the newlines. */
  lemma NewlineFound(b: seq<Byte>, from: nat, index: nat)
    requires from <= index < |b| && index == IndexOf(b, from)
    ensures Newlines(b[..index + 1]) == Newlines(b[..from]) + 1
  {
    hide Newlines, IndexOf;
    OneNewline();
    assert b[..index + 1] == b[..from] + (b[from..index] + [b[index]]);
    NewlinesConcat(b[..from], b[from..index] + [b[index]]);
    NewlinesConcat(b[from..index], [b[index]]);
    assert NEWLINE !in b[from..index];
  }

  /** `i` ends the last of the first `maxLines` lines. */
  ghost predicate IsLineLimitEnd(b: seq<Byte>, limits: Limits, end: nat) {
    && end <= |b| && LineEnd(b, end) && Lines(b[..end]) <= limits.maxLines
    && forall i | end < i <= |b| && LineEnd(b, i) :: Lines(b[..i]) > limits.maxLines
  }

  /** `i` starts the first of the last `maxLines` lines. */
  ghost predicate IsLineLimitStart(b: seq<Byte>, limits: Limits, start: nat) {
    && start <= |b| && LineStart(b, start) && Lines(b[start..]) <= limits.maxLines
    && forall i | 0 <= i < start && LineStart(b, i) :: Lines(b[i..]) > limits.maxLines
  }

  lemma LineLimitEndFound(b: seq<Byte>, limits: Limits, end: nat)
    requires 0 < end <= |b| && b[end - 1] == NEWLINE && Newlines(b[..end]) == limits.maxLines
    ensures IsLineLimitEnd(b, limits, end)
  {
    assert b[..end][end - 1] == NEWLINE;
    forall i | end < i <= |b| && LineEnd(b, i) ensures Lines(b[..i]) > limits.maxLines {
      assert b[..i] == b[..end] + b[end..i];
      NewlinesConcat(b[..end], b[end..i]);
      assert b[..i][i - 1] == b[end..i][i - 1 - end];
    }
  }

  method LineLimitEnd(b: seq<Byte>, limits: Limits) returns (end: nat)
    requires limits.maxLines > 0
    ensures IsLineLimitEnd(b, limits, end)
  {
    hide Newlines, IndexOf, IsLineLimitEnd;
    end := |b|;
    var lines, index := 0, IndexOf(b, 0);
    ghost var seen := 0;
    while index != -1
      invariant 0 <= seen <= |b| && index == IndexOf(b, seen)
      invariant lines == Newlines(b[..seen]) < limits.maxLines
      decreases |b| - seen
    {
      NewlineFound(b, seen, index);
      lines, seen := lines + 1, index + 1;
      if lines == limits.maxLines {
        end := index + 1;
        LineLimitEndFound(b, limits, end);
        return;
      }
      index := IndexOf(b, index + 1);
    }
    assert b == b[..seen] + b[seen..];
    NewlinesConcat(b[..seen], b[seen..]);
    LineLimitEndAll(b, limits);
  }

  lemma LineLimitEndAll(b: seq<Byte>, limits: Limits)
    requires Newlines(b) < limits.maxLines
    ensures IsLineLimitEnd(b, limits, |b|)
  {
    assert b[..|b|] == b;
  }

  method HeadRange(b: seq<Byte>, limits: Limits) returns (end: nat)
    requires b != [] ==> !IsContinuation(b[0])
    ensures IsHeadEnd(b, limits, end)
  {
    if limits.maxLines == 0 || limits.maxBytes == 0 {
      return 0;
    }
    end := LineLimitEnd(b, limits);
    ghost var limit := end;
    if end > limits.maxBytes {
      var newline := LastIndexOf(b, limits.maxBytes - 1);
      if newline == -1 {
        end := CharacterEnd(b, limits.maxBytes);
      } else {
        end := newline + 1;
      }
    }
    HeadRangeFound(b, limits, limit);
  }

  /** Up to the end the line limit sets, the byte limit alone decides. */
  lemma HeadRangeFound(b: seq<Byte>, limits: Limits, limit: nat)
    requires IsLineLimitEnd(b, limits, limit)
    ensures forall i :: WholeHead(b, limits, i) <==> 0 <= i <= limit && i <= limits.maxBytes && LineEnd(b, i)
  {
    forall i | 0 <= i <= limit && LineEnd(b, i) ensures Lines(b[..i]) <= limits.maxLines {
      assert b[..limit] == b[..i] + b[i..limit];
      NewlinesConcat(b[..i], b[i..limit]);
      if i < limit {
        assert b[..i][i - 1] == b[i - 1] == NEWLINE;
      }
    }
  }

  method LineLimitStart(b: seq<Byte>, limits: Limits) returns (start: nat)
    requires limits.maxLines > 0
    ensures IsLineLimitStart(b, limits, start)
  {
    hide Newlines, LastIndexOf, IsLineLimitStart;
    // The last byte is no line start even when it is a newline.
    var last := if |b| > 0 && b[|b| - 1] == NEWLINE then |b| - 2 else |b| - 1;
    start := 0;
    var lines := 1;
    var index := if last < 0 then -1 else LastIndexOf(b, last);
    ghost var rest := last + 1;
    while index != -1
      invariant 0 <= rest <= last + 1 <= |b|
      invariant index == if rest == 0 then -1 else LastIndexOf(b, rest - 1)
      invariant lines == 1 + Newlines(b[rest..last + 1]) <= limits.maxLines
      decreases rest
    {
      NewlineFoundBackwards(b, rest, last + 1, index);
      if lines == limits.maxLines {
        start := index + 1;
        LineLimitStartFound(b, limits, last + 1, start);
        return;
      }
      lines, rest := lines + 1, index;
      index := if index == 0 then -1 else LastIndexOf(b, index - 1);
    }
    LineLimitStartAll(b, limits, last + 1, rest);
  }

  lemma LineLimitStartAll(b: seq<Byte>, limits: Limits, last: nat, rest: nat)
    requires limits.maxLines > 0 && rest <= last <= |b|
    requires b != [] ==> Trimmed(b, last) && NEWLINE !in b[..rest] && 1 + Newlines(b[rest..last]) <= limits.maxLines
    ensures IsLineLimitStart(b, limits, 0)
  {
    hide Newlines;
    assert b[0..] == b;
    if b != [] {
      LinesFrom(b, last, 0);
      assert b[0..last] == b[..rest] + b[rest..last];
      NewlinesConcat(b[..rest], b[rest..last]);
    }
  }

  /** One step of a scan over the newlines, towards the start. */
  lemma NewlineFoundBackwards(b: seq<Byte>, rest: nat, end: nat, index: nat)
    requires 0 < rest <= end <= |b| && index < rest && index == LastIndexOf(b, rest - 1)
    ensures Newlines(b[index..end]) == Newlines(b[rest..end]) + 1
    ensures Newlines(b[index + 1..end]) == Newlines(b[rest..end])
  {
    hide Newlines, LastIndexOf;
    OneNewline();
    assert b[index + 1..end] == b[index + 1..rest] + b[rest..end];
    NewlinesConcat(b[index + 1..rest], b[rest..end]);
    assert b[index..end] == [b[index]] + b[index + 1..end];
    NewlinesConcat([b[index]], b[index + 1..end]);
    assert NEWLINE !in b[index + 1..rest];
  }

  lemma OneNewline()
    ensures Newlines([NEWLINE]) == 1
  {
  }

  /** `last` is the end of `b` without a trailing newline. */
  predicate Trimmed(b: seq<Byte>, last: int) {
    b != [] && last == if b[|b| - 1] == NEWLINE then |b| - 1 else |b|
  }

  lemma LinesFrom(b: seq<Byte>, last: nat, i: nat)
    requires Trimmed(b, last) && i <= last && i < |b|
    ensures Lines(b[i..]) == 1 + Newlines(b[i..last])
  {
    if last < |b| {
      assert b[i..] == b[i..last] + [b[last]];
      NewlinesConcat(b[i..last], [b[last]]);
    } else {
      assert b[i..last] == b[i..];
    }
  }

  lemma LineLimitStartFound(b: seq<Byte>, limits: Limits, last: nat, start: nat)
    requires Trimmed(b, last) && 0 < start <= last && b[start - 1] == NEWLINE
    requires 1 + Newlines(b[start..last]) == limits.maxLines
    ensures IsLineLimitStart(b, limits, start)
  {
    LinesFrom(b, last, start);
    forall i | 0 <= i < start && LineStart(b, i) ensures Lines(b[i..]) > limits.maxLines {
      LinesFrom(b, last, i);
      assert b[i..last] == b[i..start] + b[start..last];
      NewlinesConcat(b[i..start], b[start..last]);
      assert b[i..start][start - 1 - i] == NEWLINE;
    }
  }

  method TailRange(b: seq<Byte>, limits: Limits) returns (start: nat)
    ensures IsTailStart(b, limits, start)
  {
    if limits.maxLines == 0 || limits.maxBytes == 0 {
      return |b|;
    }
    start := LineLimitStart(b, limits);
    TailRangeFound(b, limits, start);
    if |b| - start > limits.maxBytes {
      var from := |b| - limits.maxBytes;
      var newline := IndexOf(b, from - 1);
      if newline != -1 && newline + 1 < |b| {
        start := newline + 1;
      } else {
        start := CharacterStart(b, from);
      }
    }
  }

  /** From the start the line limit sets, the byte limit alone decides. */
  lemma TailRangeFound(b: seq<Byte>, limits: Limits, limit: nat)
    requires IsLineLimitStart(b, limits, limit)
    ensures forall i :: WholeTail(b, limits, i) <==> limit <= i <= |b| && |b| - i <= limits.maxBytes && LineStart(b, i)
  {
    forall i | limit <= i <= |b| && LineStart(b, i) ensures Lines(b[i..]) <= limits.maxLines {
      assert b[limit..] == b[limit..i] + b[i..];
      NewlinesConcat(b[limit..i], b[i..]);
    }
  }

  // ---------------------------------------------------------------- boundOutput and tailMargin

  /** The window of encoded text is itself the encoding of a prefix or a suffix. */
  lemma WindowIsText(text: Text, limits: Limits, from: nat, to: nat) returns (kept: Text)
    requires from <= to <= |Encode(text)| && IsWindow(Encode(text), limits, from, to)
    ensures Encode(kept) == Encode(text)[from..to] && Decode(Encode(text)[from..to]) == Decoded(kept)
    ensures if limits.retain.Head? then kept <= text else |kept| <= |text| && text[|text| - |kept|..] == kept
    ensures to - from == |Encode(text)| ==> kept == text
  {
    hide EncodeScalar, Fits, Lines, Decode;
    var b := Encode(text);
    if limits.retain.Head? {
      if to < |b| {
        BoundaryAfterNewline(text, if 0 < to && b[to - 1] == NEWLINE then to else 0);
      }
      var k := BoundarySplitsText(text, to);
      kept := text[..k];
    } else {
      if from < |b| {
        BoundaryAfterNewline(text, if 0 < from && b[from - 1] == NEWLINE then from else 0);
      }
      var k := BoundarySplitsText(text, from);
      kept := text[k..];
    }
    DecodeEncode(kept);
    DecodeEncode(text);
  }

  /** Keep the window of `text`: whole lines, or part of one line when no whole line fits. */
  method BoundOutput(text: Text, limits: Limits) returns (r: Slice)
    ensures IsBounded(text, limits, r)
    ensures if limits.retain.Head? then r.text <= text else |r.text| <= |text| && text[|text| - |r.text|..] == r.text
  {
    hide EncodeScalar, Encode, Fits, Decode, Lines, Newlines, IsHeadEnd, IsTailStart;
    var b := Encode(text);
    var from, to := Range(text, limits);
    ghost var slice := WindowIsText(text, limits, from, to);
    var kept := b[from..to];
    var total: int := LineCount(b);
    var keptLines := LineCount(kept);
    r := Slice(if |kept| == |b| then text else Decode(kept).text, |kept|, |b| - |kept|, total - keptLines);
    assert r.text == slice;
    assert IsSlice(b, from, to, r);
  }

  method Range(text: Text, limits: Limits) returns (from: nat, to: nat)
    ensures from <= to <= |Encode(text)| && IsWindow(Encode(text), limits, from, to)
  {
    hide EncodeScalar;
    var b := Encode(text);
    from, to := 0, |b|;
    if b != [] {
      BoundaryAfterNewline(text, 0);
    }
    if limits.retain == Head {
      to := HeadRange(b, limits);
    } else {
      from := TailRange(b, limits);
    }
  }

  /** `margin` is the shortest suffix of `text` longer than the tail window, or all of it. */
  ghost predicate IsMargin(text: Text, limits: Limits, margin: Text) {
    && |margin| <= |text| && text[|text| - |margin|..] == margin
    && (margin == text || Margin(Encode(margin), limits))
    && forall k | |text| - |margin| < k <= |text| :: !Margin(Encode(text[k..]), limits)
  }

  /** The start of the `maxLines + 1`-th newline from the end, or 0. */
  method MarginLineStart(b: seq<Byte>, limits: Limits) returns (start: nat)
    ensures start <= |b|
            && (start == 0 || (start < |b| && b[start] == NEWLINE && Newlines(b[start..]) > limits.maxLines))
    ensures forall i | start < i <= |b| :: Newlines(b[i..]) <= limits.maxLines
  {
    hide Newlines, LastIndexOf;
    start := 0;
    var newlines := 0;
    var index := if b == [] then -1 else LastIndexOf(b, |b| - 1);
    ghost var rest := |b|;
    while index != -1
      invariant 0 <= rest <= |b|
      invariant index == if rest == 0 then -1 else LastIndexOf(b, rest - 1)
      invariant newlines == Newlines(b[rest..]) <= limits.maxLines
      decreases rest
    {
      NewlineFoundFromEnd(b, rest, index);
      newlines, rest := newlines + 1, index;
      if newlines > limits.maxLines {
        start := index;
        NewlinesOfSuffixes(b, start + 1);
        return;
      }
      if index == 0 {
        break;
      }
      index := LastIndexOf(b, index - 1);
    }
    NewlinesConcat(b[..rest], b[rest..]);
    assert b[0..] == b == b[..rest] + b[rest..];
    NewlinesOfSuffixes(b, 0);
  }

  lemma NewlineFoundFromEnd(b: seq<Byte>, rest: nat, index: nat)
    requires 0 < rest <= |b| && index < rest && index == LastIndexOf(b, rest - 1)
    ensures Newlines(b[index..]) == Newlines(b[rest..]) + 1
    ensures Newlines(b[index + 1..]) == Newlines(b[rest..])
  {
    NewlineFoundBackwards(b, rest, |b|, index);
    assert b[index..|b|] == b[index..] && b[index + 1..|b|] == b[index + 1..] && b[rest..|b|] == b[rest..];
  }

  lemma NewlinesOfSuffixes(b: seq<Byte>, from: nat)
    requires from <= |b|
    ensures forall i | from <= i <= |b| :: Newlines(b[i..]) <= Newlines(b[from..])
  {
    assert b[from..] == b[from..];
    forall i | from <= i <= |b| ensures Newlines(b[i..]) <= Newlines(b[from..]) {
      assert b[from..] == b[from..i] + b[i..];
      NewlinesConcat(b[from..i], b[i..]);
    }
  }

  method TailMargin(text: Text, limits: Limits) returns (margin: Text)
    ensures IsMargin(text, limits, margin)
  {
    hide EncodeScalar, Decode, Encode, Newlines;
    var b := Encode(text);
    if b != [] {
      BoundaryAfterNewline(text, 0);
    }
    var byteStart := 0;
    if |b| > limits.maxBytes {
      byteStart := CharacterEnd(b, |b| - limits.maxBytes - 1);
    }
    var lineStart := MarginLineStart(b, limits);
    var start := if byteStart > lineStart then byteStart else lineStart;
    ghost var k := BoundarySplitsText(text, start);
    DecodeEncode(text[k..]);
    margin := if start == 0 then text else Decode(b[start..]).text;
    forall j | k < j <= |text| ensures !Margin(Encode(text[j..]), limits) {
      EncodedSuffix(text, k, j);
    }
  }

  /** Encoded suffixes are suffixes, starting at boundaries. */
  lemma EncodedSuffix(text: Text, k: nat, j: nat)
    requires k < j <= |text|
    ensures |Encode(text[j..])| < |Encode(text[k..])|
    ensures var i := |Encode(text)| - |Encode(text[j..])|;
            IsBoundary(Encode(text), i) && Encode(text)[i..] == Encode(text[j..])
  {
    assert text == text[..j] + text[j..] && text[k..] == text[k..j] + text[j..];
    EncodeConcat(text[..j], text[j..]);
    EncodeConcat(text[k..j], text[j..]);
    if j < |text| {
      BoundaryAfterNewline(text[j..], 0);
    }
  }
}
