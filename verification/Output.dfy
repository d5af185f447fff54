/**
 * `OutputBuffer`: a running window over an unbounded stream that keeps only a few chunks of it.
 *
 * `stream` is the whole output so far, kept for specification only. Whatever pushes, skips and snapshots came
 * before, a snapshot shows what `boundOutput` shows of the whole stream.
 */
module Output {
  import opened Utf8
  import opened Bound

  /** What a producer left out, by its size. */
  datatype Skip = Skip(bytes: nat, newlines: nat, endsWithNewline: bool)

  datatype Pushed = Accepted(any: bool) | SkipNeedsTail

  datatype Option<T> = None | Some(value: T)

  datatype Chunk = Chunk(text: Text, bytes: nat, newlines: nat)

  /** What a snapshot returns. */
  datatype BoundedOutput = BoundedOutput(text: Text, droppedBytes: int, droppedLines: int)

  predicate EndsWithNewline(t: Text) {
    t != [] && t[|t| - 1] == NEWLINE
  }

  function Join(chunks: seq<Chunk>): Text {
    if chunks == [] then [] else chunks[0].text + Join(chunks[1..])
  }

  lemma JoinNone()
    ensures Join([]) == []
  {
  }

  lemma JoinNext(first: Chunk, more: seq<Chunk>)
    ensures Join([first] + more) == first.text + Join(more)
  {
    assert ([first] + more)[1..] == more;
  }

  lemma {:induction false} JoinConcat(a: seq<Chunk>, b: seq<Chunk>)
    ensures Join(a + b) == Join(a) + Join(b)
  {
    hide Join;
    if a == [] {
      JoinNone();
      assert a + b == b && [] + Join(b) == Join(b);
    } else {
      JoinConcat(a[1..], b);
      JoinNext(a[0], a[1..] + b);
      JoinNext(a[0], a[1..]);
      assert a == [a[0]] + a[1..] && a + b == [a[0]] + (a[1..] + b);
      assert a[0].text + (Join(a[1..]) + Join(b)) == a[0].text + Join(a[1..]) + Join(b);
    }
  }

  predicate Measured(c: Chunk) {
    c.text != [] && c.bytes == |Encode(c.text)| && c.newlines == Newlines(c.text)
  }

  function Measure(text: Text): (c: Chunk)
    requires text != []
    ensures Measured(c) && c == Chunk(text, |Encode(text)|, Newlines(text))
  {
    Chunk(text, |Encode(text)|, Newlines(text))
  }

  /** The chunks are measured, and `bytes` and `newlines` measure them together. */
  predicate Totals(chunks: seq<Chunk>, bytes: int, newlines: int) {
    && (forall i | 0 <= i < |chunks| :: Measured(chunks[i]))
    && bytes == |Encode(Join(chunks))| && newlines == Newlines(Join(chunks))
  }

  lemma TotalsPush(chunks: seq<Chunk>, bytes: int, newlines: int, chunk: Chunk)
    requires Totals(chunks, bytes, newlines) && Measured(chunk)
    ensures Totals(chunks + [chunk], bytes + chunk.bytes, newlines + chunk.newlines)
    ensures Join(chunks + [chunk]) == Join(chunks) + chunk.text
  {
    hide EncodeScalar, Encode, Newlines;
    JoinConcat(chunks, [chunk]);
    assert Join([chunk]) == chunk.text;
    AppendCounts(Join(chunks), chunk.text);
  }

  lemma TotalsShift(chunks: seq<Chunk>, bytes: int, newlines: int)
    requires Totals(chunks, bytes, newlines) && chunks != []
    ensures Totals(chunks[1..], bytes - chunks[0].bytes, newlines - chunks[0].newlines)
  {
    hide EncodeScalar, Encode, Newlines;
    var rest := Join(chunks[1..]);
    assert Measured(chunks[0]);
    AppendCounts(chunks[0].text, rest);
  }

  /** `stored` is the end of `stream`: all of it, or more than a tail window. */
  ghost predicate Covers(stored: Text, stream: Text, limits: Limits) {
    && |stored| <= |stream| && stream[|stream| - |stored|..] == stored
    && (|stored| == |stream| || Margin(Encode(stored), limits))
  }

  lemma CoversMore(stored: Text, stream: Text, text: Text, limits: Limits)
    requires Covers(stored, stream, limits)
    ensures Covers(stored + text, stream + text, limits)
  {
    hide EncodeScalar;
    EncodeConcat(stored, text);
    NewlinesConcat(Encode(stored), Encode(text));
  }

  /** Dropping the start of what is stored is safe while more than a window remains. */
  lemma CoversLess(first: Text, rest: Text, stream: Text, limits: Limits)
    requires Covers(first + rest, stream, limits)
    requires first == [] || Margin(Encode(rest), limits)
    ensures Covers(rest, stream, limits)
  {
    assert (first + rest)[|first|..] == rest;
  }

  /** The slice of what is stored has the text of the slice of the whole stream. */
  lemma TailOfStream(stored: Text, stream: Text, limits: Limits, r: Slice) returns (whole: Slice)
    requires limits.retain.Tail? && Covers(stored, stream, limits) && IsBounded(stored, limits, r)
    ensures IsBounded(stream, limits, whole) && whole.text == r.text && whole.bytes == r.bytes
  {
    hide EncodeScalar, Lines, Newlines, IsTailStart;
    var before := stream[..|stream| - |stored|];
    assert stream == before + stored;
    EncodeConcat(before, stored);
    var b, s := Encode(stream), Encode(stored);
    var from, to :| IsWindow(s, limits, from, to) && IsSlice(s, from, to, r);
    TailOfSuffix(Encode(before), s, limits, from);
    var from', to' := |b| - |s| + from, |b|;
    assert b[from'..to'] == s[from..to];
    whole := Slice(r.text, r.bytes, |b| - r.bytes, Lines(b) - Lines(b[from'..to']));
    assert IsSlice(b, from', to', whole);
  }

  lemma HeadOfStream(stored: Text, stream: Text, limits: Limits, r: Slice) returns (whole: Slice)
    requires limits.retain.Head? && stored <= stream && (stored == stream || Full(Encode(stored), limits))
    requires IsBounded(stored, limits, r)
    ensures IsBounded(stream, limits, whole) && whole.text == r.text && whole.bytes == r.bytes
  {
    hide EncodeScalar, Lines, Newlines, IsHeadEnd;
    var after := stream[|stored|..];
    assert stream == stored + after;
    EncodeConcat(stored, after);
    var b, s := Encode(stream), Encode(stored);
    var from, to :| IsWindow(s, limits, from, to) && IsSlice(s, from, to, r);
    HeadOfPrefix(s, Encode(after), limits, to);
    assert b[from..to] == s[from..to];
    whole := Slice(r.text, r.bytes, |b| - r.bytes, Lines(b) - Lines(b[from..to]));
    assert IsSlice(b, from, to, whole);
  }

  class OutputBuffer {
    const limits: Limits
    /** `sanitizeOutput`, whose regular expressions are not modelled. */
    const sanitize: Text -> Text

    var chunks: seq<Chunk>
    var storedBytes: nat
    var storedNewlines: nat
    var full: bool
    var totalBytes: nat
    var totalNewlines: nat
    var endsWithNewline: bool

    ghost var stream: Text

    function Stored(): Text
      reads this
    {
      Join(chunks)
    }

    /** Every counter measures what it says it measures. */
    ghost predicate Counted()
      reads this
    {
      && Totals(chunks, storedBytes, storedNewlines)
      && totalBytes == |Encode(stream)| && totalNewlines == Newlines(stream)
      && (endsWithNewline <==> stream == [] || EndsWithNewline(stream))
    }

    ghost predicate Valid()
      reads this
    {
      && Counted()
      && if limits.retain.Head? then
           && Stored() <= stream
           && (full <==> Full(Encode(Stored()), limits) && stream != [])
           && (!full ==> Stored() == stream)
         else
           !full && Covers(Stored(), stream, limits)
    }

    constructor (limits: Limits, sanitize: Text -> Text)
      ensures Valid() && stream == []
      ensures this.limits == limits && this.sanitize == sanitize
    {
      this.limits, this.sanitize := limits, sanitize;
      chunks, storedBytes, storedNewlines, full := [], 0, 0, false;
      totalBytes, totalNewlines, endsWithNewline := 0, 0, true;
      stream := [];
    }

    /** Accept decoded text; returns whether there was any. A skip just before it may have left its own gap. */
    method Accept(text: Text) returns (any: bool)
      requires if limits.retain.Head? then Valid() else
                 Counted() && !full && Covers(Stored() + text, stream + text, limits)
      modifies this
      ensures Valid() && stream == old(stream) + text
      ensures any <==> text != []
      ensures limits.retain.Tail? && any ==> Lean()
    {
      hide Encode, Newlines, Margin, Measured, Totals, Covers, Join;
      if |text| == 0 {
        assert stream + text == stream && Stored() + text == Stored();
        return false;
      }
      AppendCounts(stream, text);
      totalBytes := totalBytes + |Encode(text)|;
      totalNewlines := totalNewlines + Newlines(text);
      endsWithNewline := EndsWithNewline(text);
      stream := stream + text;
      if full {
        return true;
      }
      var chunk := Measure(text);
      TotalsPush(chunks, storedBytes, storedNewlines, chunk);
      chunks := chunks + [chunk];
      storedBytes := storedBytes + chunk.bytes;
      storedNewlines := storedNewlines + chunk.newlines;
      if limits.retain == Head {
        TotalsMeasure(chunks, storedBytes, storedNewlines);
        full := storedBytes > limits.maxBytes || storedNewlines >= limits.maxLines;
        return true;
      }
      DropLeading();
      return true;
    }

    /** What is stored is at most a window, its margin and one chunk. */
    predicate Lean()
      reads this
    {
      |chunks| > 1 ==>
        && storedBytes - chunks[0].bytes <= limits.maxBytes + 1
        && storedNewlines - chunks[0].newlines <= limits.maxLines + 1
    }

    /** Forget the oldest chunks that no window can reach. */
    method DropLeading()
      requires Valid() && limits.retain.Tail?
      modifies this`chunks, this`storedBytes, this`storedNewlines
      ensures Valid() && Lean()
    {
      hide Encode, Newlines, Measured, Totals, Covers;
      while |chunks| > 1
        invariant Valid()
        decreases |chunks|
      {
        var first := chunks[0];
        var bytesAfter: int := storedBytes - first.bytes;
        var newlinesAfter: int := storedNewlines - first.newlines;
        if bytesAfter <= limits.maxBytes + 1 && newlinesAfter <= limits.maxLines + 1 {
          break;
        }
        TotalsShift(chunks, storedBytes, storedNewlines);
        TotalsMeasure(chunks[1..], bytesAfter, newlinesAfter);
        CoversLess(first.text, Join(chunks[1..]), stream, limits);
        chunks := chunks[1..];
        storedBytes := bytesAfter;
        storedNewlines := newlinesAfter;
      }
    }

    /** Add omitted output to the totals; what is stored lies before a gap and is forgotten. */
    method CountSkip(skipped: Skip, ghost omitted: Text)
      requires Counted() && Describes(skipped, omitted)
      modifies this`totalBytes, this`totalNewlines, this`endsWithNewline, this`stream
      modifies this`chunks, this`storedBytes, this`storedNewlines
      ensures Counted() && stream == old(stream) + omitted
      ensures if omitted == [] then chunks == old(chunks) else chunks == []
    {
      hide Encode, Newlines, Measured, Join;
      AppendCounts(stream, omitted);
      stream := stream + omitted;
      if skipped.bytes == 0 {
        assert stream == old(stream);
        return;
      }
      totalBytes := totalBytes + skipped.bytes;
      totalNewlines := totalNewlines + skipped.newlines;
      endsWithNewline := skipped.endsWithNewline;
      TotalsNone();
      chunks, storedBytes, storedNewlines := [], 0, 0;
    }

    /**
     * Accept a chunk. `pending` is what flushing the decoder yields of an incomplete character before it, `skipped`
     * is output omitted in between, which `text` must follow with more than a tail window.
     */
    method Push(pending: Text, text: Text, skipped: Option<Skip>, ghost omitted: Text) returns (r: Pushed)
      requires Valid()
      requires match skipped case None => omitted == [] case Some(skip) => Describes(skip, omitted)
      requires omitted != [] ==> Margin(Encode(text), limits)
      modifies this
      ensures Valid()
      ensures r == if skipped.None? then Accepted(pending + text != [])
                   else if limits.retain.Tail? then Accepted(true) else SkipNeedsTail
      ensures stream == old(stream) + if r.SkipNeedsTail? then [] else pending + omitted + text
      ensures limits.retain.Tail? && text != [] ==> Lean()
    {
      hide Encode, Newlines, Measured, Totals, Covers, Join, Margin, Full, OutputBuffer.Valid, OutputBuffer.Counted,
           OutputBuffer.Lean;
      if skipped.None? {
        assert pending + omitted + text == pending + text;
        CoversPushed(pending + text);
        var any := Accept(pending + text);
        return Accepted(any);
      }
      if limits.retain != Tail {
        return SkipNeedsTail;
      }
      PushSkip(pending, text, skipped.value, omitted);
      return Accepted(true);
    }

    /** Flush what was pending, count what was omitted, and accept the text after it. */
    method PushSkip(pending: Text, text: Text, skipped: Skip, ghost omitted: Text)
      requires Valid() && limits.retain.Tail? && Describes(skipped, omitted)
      requires omitted != [] ==> Margin(Encode(text), limits)
      modifies this
      ensures Valid() && stream == old(stream) + (pending + omitted + text)
      ensures text != [] ==> Lean()
    {
      hide Encode, Newlines, Measured, Totals, Covers, Join, Margin, Full, Describes, Lean, OutputBuffer.Valid,
           OutputBuffer.Counted;
      CoversPushed(pending);
      var flushed := Accept(pending);
      ghost var before := stream;
      AcceptAfterSkip(text, skipped, omitted);
      assert stream == old(stream) + (pending + omitted + text);
    }

    method AcceptAfterSkip(text: Text, skipped: Skip, ghost omitted: Text)
      requires Valid() && limits.retain.Tail?
      requires Describes(skipped, omitted)
      requires omitted != [] ==> Margin(Encode(text), limits)
      modifies this
      ensures Valid() && stream == old(stream) + omitted + text
      ensures text != [] ==> Lean()
    {
      hide Encode, Newlines, Measured, Totals, Covers, Join, Margin, Full;
      CountSkip(skipped, omitted);
      if omitted == [] {
        assert stream == old(stream);
        CoversMore(Stored(), stream, text, limits);
      } else {
        CoversAfterGap(text, stream, limits);
        TotalsNone();
        assert Stored() + text == text;
      }
      var any := Accept(text);
    }

    lemma CoversPushed(text: Text)
      requires Valid()
      ensures limits.retain.Tail? ==> Counted() && !full && Covers(Stored() + text, stream + text, limits)
    {
      if limits.retain.Tail? {
        CoversMore(Stored(), stream, text, limits);
      }
    }

    /** The stream ends; `pending` is what an unfinished character decodes to. */
    method End(pending: Text)
      requires Valid()
      modifies this
      ensures Valid() && stream == old(stream) + pending
    {
      CoversPushed(pending);
      var any := Accept(pending);
    }

    /** The window of everything pushed, sanitized, with what is missing from it. */
    method Snapshot() returns (out: BoundedOutput)
      requires Valid()
      modifies this`chunks, this`storedBytes, this`storedNewlines
      ensures Valid()
      ensures exists whole :: IsBounded(stream, limits, whole)
                              && out == BoundedOutput(sanitize(whole.text), whole.droppedBytes, whole.droppedLines)
      ensures limits.retain.Head? ==> Stored() == old(Stored())
      ensures limits.retain.Tail? ==> IsMargin(old(Stored()), limits, Stored()) && |chunks| <= 1
    {
      hide Encode, Newlines, Measured, Totals, Covers, IsBounded;
      var stored := if |chunks| == 1 then chunks[0].text else Join(chunks);
      if |chunks| == 1 {
        assert chunks[1..] == [] && Join(chunks[1..]) == [];
        assert stored == Stored();
      }
      var kept := BoundOutput(stored, limits);
      ghost var whole := WholeOf(kept);
      TotalsMeasure(chunks, storedBytes, storedNewlines);
      LinesOfText(stored);
      LinesOfText(stream);
      var storedLines := storedNewlines + if stored == [] || EndsWithNewline(stored) then 0 else 1;
      var keptLines := storedLines - kept.droppedLines;
      out := BoundedOutput(
        sanitize(kept.text),
        totalBytes - kept.bytes,
        totalNewlines + (if endsWithNewline then 0 else 1) - keptLines);
      Compact(stored);
    }

    /** Store one chunk: for a tail, only the margin a later window needs. */
    method Compact(stored: Text)
      requires Valid() && stored == Stored()
      modifies this`chunks, this`storedBytes, this`storedNewlines
      ensures Valid()
      ensures if limits.retain.Head? then Stored() == stored else IsMargin(stored, limits, Stored()) && |chunks| <= 1
    {
      hide Encode, Newlines, Covers, Measured, Totals, Join, IsMargin;
      var text := stored;
      if limits.retain == Tail {
        text := TailMargin(stored, limits);
        CoversMargin(stored, text, stream, limits);
      } else if |chunks| <= 1 {
        return;
      }
      TotalsNone();
      chunks := if text == [] then [] else [Measure(text)];
      storedBytes := |Encode(text)|;
      storedNewlines := if text == [] then 0 else Newlines(text);
      if text != [] {
        TotalsOne(text);
      }
    }

    /** What the window of the stored text is in the whole stream. */
    lemma WholeOf(kept: Slice) returns (whole: Slice)
      requires Valid() && IsBounded(Stored(), limits, kept)
      ensures IsBounded(stream, limits, whole) && whole.text == kept.text
      ensures whole.droppedBytes == totalBytes - kept.bytes
      ensures whole.droppedLines == Lines(Encode(stream)) - (Lines(Encode(Stored())) - kept.droppedLines)
    {
      if limits.retain.Head? {
        whole := HeadOfStream(Stored(), stream, limits, kept);
      } else {
        whole := TailOfStream(Stored(), stream, limits, kept);
      }
    }
  }

  lemma LinesOfText(t: Text)
    ensures Lines(Encode(t)) == Newlines(t) + if t == [] || EndsWithNewline(t) then 0 else 1
  {
    hide EncodeScalar;
    NewlinesEncoded(t);
  }

  lemma TotalsNone()
    ensures Totals([], 0, 0) && Join([]) == []
  {
  }

  lemma TotalsOne(text: Text)
    requires text != []
    ensures Totals([Measure(text)], |Encode(text)|, Newlines(text)) && Join([Measure(text)]) == text
  {
    assert Join([Measure(text)]) == text + [];
  }

  lemma CoversAfterGap(text: Text, stream: Text, limits: Limits)
    requires Margin(Encode(text), limits)
    ensures Covers(text, stream + text, limits)
  {
  }

  lemma CoversMargin(stored: Text, margin: Text, stream: Text, limits: Limits)
    requires Covers(stored, stream, limits) && IsMargin(stored, limits, margin)
    ensures Covers(margin, stream, limits)
  {
  }

  /** `skipped` measures the omitted text. */
  predicate Describes(skipped: Skip, omitted: Text) {
    && skipped.bytes == |Encode(omitted)| && skipped.newlines == Newlines(omitted)
    && (omitted != [] ==> skipped.endsWithNewline == EndsWithNewline(omitted))
  }

  lemma TotalsMeasure(chunks: seq<Chunk>, bytes: int, newlines: int)
    requires Totals(chunks, bytes, newlines)
    ensures bytes == |Encode(Join(chunks))| && newlines == Newlines(Join(chunks)) == Newlines(Encode(Join(chunks)))
  {
    NewlinesEncoded(Join(chunks));
  }

  lemma AppendCounts(s: Text, t: Text)
    ensures |Encode(s + t)| == |Encode(s)| + |Encode(t)|
    ensures Newlines(s + t) == Newlines(s) + Newlines(t)
    ensures t != [] ==> EndsWithNewline(s + t) == EndsWithNewline(t)
  {
    hide EncodeScalar, Encode;
    EncodeConcat(s, t);
    NewlinesConcat(s, t);
  }
}
