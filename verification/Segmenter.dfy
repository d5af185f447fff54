/**
 * `Segmenter`: speech segments with a pre-roll cut from a rolling history.
 *
 * `stream` is all audio fed to the voice activity detector since the reset. The detector is arbitrary, but for what it
 * promises: the segments it returns are slices of that audio, in order and without overlap.
 */
module Segmenter {

  const WINDOW: nat := 512

  /** A sample; its value plays no role. */
  type Sample = int

  type Audio = seq<Sample>

  datatype Option<+T> = None | Some(value: T)

  datatype Event = SpeechStart | SpeechEnd(utterance: Audio)

  datatype Segment = Segment(start: nat, samples: Audio)
  {
    function End(): nat {
      start + |samples|
    }
  }

  datatype Snapshot = Snapshot(detected: nat, start: nat, audio: Audio)

  /** What the detector says after a window: whether it hears speech, and the segments it has ready. */
  datatype Answer = Answer(detected: bool, segments: seq<Segment>)

  /** All segments the detector returned, in order */
  function SegmentsOf(log: seq<Answer>): seq<Segment> {
    if log == [] then [] else SegmentsOf(log[..|log| - 1]) + log[|log| - 1].segments
  }

  lemma SegmentsMore(log: seq<Answer>, a: Answer)
    ensures SegmentsOf(log + [a]) == SegmentsOf(log) + a.segments
  {
    assert (log + [a])[..|log|] == log;
  }

  /** The utterances lie where the segments do, and may begin before. */
  ghost predicate EndWith(spans: seq<Span>, segments: seq<Segment>) {
    && |spans| == |segments|
    && forall k | 0 <= k < |spans| :: spans[k].end == segments[k].End() && spans[k].begin <= segments[k].start
  }

  lemma EndWithMore(spans: seq<Span>, segments: seq<Segment>, span: Span, segment: Segment)
    requires EndWith(spans, segments) && span.end == segment.End() && span.begin <= segment.start
    ensures EndWith(spans + [span], segments + [segment])
  {
  }

  /** A start is reported once for each utterance at most. */
  ghost predicate Alternate(events: seq<Event>) {
    forall i | 0 < i < |events| :: events[i].SpeechStart? ==> events[i - 1].SpeechEnd?
  }

  predicate Open(events: seq<Event>) {
    events != [] && events[|events| - 1].SpeechStart?
  }

  /** Where an utterance lies in the stream. */
  datatype Span = Span(begin: nat, end: nat)

  predicate IsSlice(stream: Audio, begin: nat, end: nat, audio: Audio) {
    begin <= end <= |stream| && audio == stream[begin..end]
  }

  /** What the detector promises of the segments it returns next. */
  predicate IsSegments(stream: Audio, from: nat, segments: seq<Segment>)
    decreases segments
  {
    segments != [] ==>
      && from <= segments[0].start
      && IsSlice(stream, segments[0].start, segments[0].End(), segments[0].samples)
      && IsSegments(stream, segments[0].End(), segments[1..])
  }

  /** Utterances in order, none reaching into another. */
  ghost predicate Disjoint(spans: seq<Span>) {
    && (forall i | 0 <= i < |spans| :: spans[i].begin <= spans[i].end)
    && (forall i, j | 0 <= i < j < |spans| :: spans[i].end <= spans[j].begin)
  }

  /** The spans are where the utterances lie. */
  ghost predicate Lie(stream: Audio, spans: seq<Span>, utterances: seq<Audio>) {
    && |spans| == |utterances|
    && forall k | 0 <= k < |spans| :: IsSlice(stream, spans[k].begin, spans[k].end, utterances[k])
  }

  /** The utterances among the events. */
  function Utterances(events: seq<Event>): seq<Audio> {
    if events == [] then [] else
      Utterances(events[..|events| - 1]) +
      match events[|events| - 1] case SpeechEnd(utterance) => [utterance] case SpeechStart => []
  }

  class Segmenter {
    const preroll: nat
    const keep: nat

    var pending: Audio
    var history: Audio
    var historyStart: nat
    var fed: nat
    var speaking: bool
    var snapshot: Option<Snapshot>
    var previousEnd: nat

    /** What the detector was fed, and what it said after each window. */
    var stream: Audio
    ghost var log: seq<Answer>
    /** What was returned since the reset, and where its utterances lie. */
    ghost var reported: seq<Event>
    ghost var spans: seq<Span>

    ghost predicate Valid()
      reads this`fed, this`history, this`historyStart, this`speaking, this`snapshot, this`previousEnd, this`stream
      reads this`log, this`reported, this`spans
    {
      fed == WINDOW * |log| && Returned(SegmentsOf(log))
    }

    /** Every segment of the detector was returned, in order, and a start before it at most. */
    ghost predicate Returned(segments: seq<Segment>)
      reads this`fed, this`history, this`historyStart, this`speaking, this`snapshot, this`previousEnd, this`stream
      reads this`reported, this`spans
    {
      && fed == |stream|
      // The history is exactly the last samples, as many as are kept.
      && historyStart + |history| == fed && history == stream[historyStart..]
      && |history| == (if fed < keep then fed else keep)
      // The snapshot is the history at the detection, and kept as long as its speech goes on.
      && (snapshot.Some? <==> speaking)
      && (snapshot.Some? ==>
            var s := snapshot.value;
            && s.detected <= fed && IsSlice(stream, s.start, s.detected, s.audio)
            && |s.audio| == if s.detected < keep then s.detected else keep)
      && Disjoint(spans) && previousEnd <= fed
      && (if spans == [] then previousEnd == 0 else previousEnd == spans[|spans| - 1].end)
      && EndWith(spans, segments) && Lie(stream, spans, Utterances(reported))
      && Alternate(reported) && (speaking <==> Open(reported))
    }

    constructor (sampleRate: nat, prerollMs: real)
      ensures Valid() && stream == [] && spans == [] && pending == [] && log == [] && reported == [] && !speaking
      ensures keep == preroll + sampleRate
      ensures preroll as real <= sampleRate as real * (if prerollMs < 0.0 then 0.0 else prerollMs) / 1000.0
                              < preroll as real + 1.0
    {
      var roll := (sampleRate as real * (if prerollMs < 0.0 then 0.0 else prerollMs) / 1000.0).Floor;
      preroll := roll;
      keep := roll + sampleRate;
      pending, history, historyStart, fed, speaking, snapshot, previousEnd := [], [], 0, 0, false, None, 0;
      stream, spans, log, reported := [], [], [], [];
    }

    /** Forget everything; the next audio starts a new stream. */
    method Reset()
      modifies this
      ensures Valid() && stream == [] && spans == [] && pending == [] && log == [] && reported == [] && !speaking
    {
      pending, history, historyStart, fed, speaking, snapshot, previousEnd := [], [], 0, 0, false, None, 0;
      stream, spans, log, reported := [], [], [], [];
    }

    /** Feed audio, whole windows at a time. */
    method Accept(samples: Audio) returns (events: seq<Event>)
      requires Valid()
      modifies this
      ensures Valid() && |pending| < 512
      ensures stream + pending == old(stream + pending) + samples
      // What is returned is what the detector said after the windows, every segment among it: see `Valid`.
      ensures reported == old(reported) + events && old(log) <= log && old(spans) <= spans
      ensures Follows(events, log[|old(log)|..], old(speaking))
    {
      hide Segmenter.Valid, Follows, SpeakingAfter;
      events := [];
      assert reported + [] == reported;
      FollowsNone(speaking);
      ghost var said: seq<Answer>, was := [], speaking;
      assert log + said == log;
      pending := pending + samples;
      assert stream + pending == old(stream + pending) + samples;
      while |pending| >= WINDOW
        invariant Valid()
        invariant stream + pending == old(stream + pending) + samples
        invariant reported == old(reported) + events && log == old(log) + said && old(spans) <= spans
        invariant Follows(events, said, was) && speaking == SpeakingAfter(said, was)
        decreases |pending|
      {
        ghost var before := stream + pending;
        var window := pending[..WINDOW];
        pending := pending[WINDOW..];
        var more;
        ghost var answer;
        more, answer := AcceptWindow(window);
        FollowsMore(events, said, was, more, answer);
        assert old(log) + said + [answer] == old(log) + (said + [answer]);
        said := said + [answer];
        assert old(reported) + events + more == old(reported) + (events + more);
        events := events + more;
        assert stream + pending == before;
      }
      assert log[|old(log)|..] == said;
    }

    /** One window: a start once speech is heard, then every segment that is ready. */
    method AcceptWindow(window: Audio) returns (events: seq<Event>, ghost answer: Answer)
      requires Valid() && |window| == WINDOW
      modifies this`fed, this`history, this`historyStart, this`stream, this`snapshot, this`speaking, this`previousEnd,
               this`spans, this`log, this`reported
      ensures Valid() && stream == old(stream) + window && log == old(log) + [answer] && old(spans) <= spans
      ensures reported == old(reported) + events
      ensures Begins(spans[|old(spans)|..], answer.segments,
                     if answer.detected && !old(speaking) then Some(Snapshot(fed, historyStart, history))
                     else old(snapshot),
                     old(previousEnd))
      ensures var starts := answer.detected && !old(speaking);
              && |events| == (if starts then 1 else 0) + |answer.segments|
              && (starts ==> events[0].SpeechStart?)
              && (forall k | (if starts then 1 else 0) <= k < |events| :: events[k].SpeechEnd?)
              && speaking == (answer.segments == [] && (old(speaking) || answer.detected))
              // The pre-roll is cut from what was heard when the start was reported.
              && (speaking && starts ==> snapshot == Some(Snapshot(fed, historyStart, history)))
              && (speaking && !starts ==> snapshot == old(snapshot))
    {
      hide Segmenter.Returned, SegmentsOf;
      Feed(window, SegmentsOf(log));
      var detected: bool := *;
      events := Detect(detected, SegmentsOf(log));
      var segments := DetectorSegments(previousEnd);
      answer := Answer(detected, segments);
      ghost var told := events;
      var more := Drain(segments, SegmentsOf(log));
      events := events + more;
      assert old(reported) + told + more == old(reported) + events;
      SegmentsMore(log, answer);
      log := log + [answer];
    }

    /** Report a start once speech is heard, and keep the history for its pre-roll. */
    method Detect(detected: bool, ghost said: seq<Segment>) returns (events: seq<Event>)
      requires Returned(said)
      modifies this`speaking, this`snapshot, this`reported
      ensures Returned(said) && reported == old(reported) + events && speaking == (old(speaking) || detected)
      ensures events == if detected && !old(speaking) then [SpeechStart] else []
      ensures snapshot == if events != [] then Some(Snapshot(fed, historyStart, history)) else old(snapshot)
    {
      hide Utterances, Disjoint, EndWith, Lie, Alternate;
      events := [];
      if detected && !speaking {
        speaking := true;
        snapshot := Some(Snapshot(fed, historyStart, history));
        UtterancesMore(reported, SpeechStart);
        AlternateMore(reported, SpeechStart);
        events := [SpeechStart];
        reported := reported + [SpeechStart];
      } else {
        assert reported + [] == reported;
      }
    }

    /** The detector takes a window, and so does the history. */
    method Feed(window: Audio, ghost said: seq<Segment>)
      requires Returned(said) && |window| == WINDOW
      modifies this`fed, this`history, this`historyStart, this`stream
      ensures Returned(said) && fed == old(fed) + WINDOW && stream == old(stream) + window
    {
      hide Utterances, Disjoint, EndWith, Alternate;
      LieMore(stream, stream + window, spans, Utterances(reported));
      hide Lie;
      fed := fed + WINDOW;
      history := history + window;
      stream := stream + window;
      assert history == stream[historyStart..];
      if |history| > keep {
        var drop := |history| - keep;
        history := history[drop..];
        historyStart := historyStart + drop;
      }
    }

    /** The segments the detector has ready. */
    method DetectorSegments(from: nat) returns (segments: seq<Segment>)
      ensures IsSegments(stream, from, segments)
    {
      segments := *;
      if !IsSegments(stream, from, segments) {
        segments := [];
      }
    }

    /** Return every segment that is ready, extended by its pre-roll. */
    method Drain(ready: seq<Segment>, ghost said: seq<Segment>) returns (events: seq<Event>)
      requires Returned(said) && IsSegments(stream, previousEnd, ready)
      modifies this`snapshot, this`speaking, this`previousEnd, this`spans, this`reported
      ensures Returned(said + ready) && old(spans) <= spans
      ensures |events| == |ready| && reported == old(reported) + events && forall e | e in events :: e.SpeechEnd?
      ensures if ready == [] then speaking == old(speaking) && snapshot == old(snapshot) else !speaking
      // The first one gets the pre-roll.
      ensures Begins(spans[|old(spans)|..], ready, old(snapshot), old(previousEnd))
    {
      hide Segmenter.Returned, IsSlice;
      events := [];
      var segments := ready;
      assert said + ready[..0] == said && reported + [] == reported;
      while |segments| > 0
        invariant |segments| <= |ready| && segments == ready[|ready| - |segments|..]
        invariant Returned(said + ready[..|ready| - |segments|]) && IsSegments(stream, previousEnd, segments)
        invariant old(spans) <= spans && |events| == |ready| - |segments|
        invariant reported == old(reported) + events && forall e | e in events :: e.SpeechEnd?
        invariant if segments == ready then speaking == old(speaking) && snapshot == old(snapshot) else !speaking
        invariant segments == ready ==> previousEnd == old(previousEnd) && spans == old(spans)
        invariant segments != ready ==> snapshot.None?
        invariant Begins(spans[|old(spans)|..], ready[..|ready| - |segments|], old(snapshot), old(previousEnd))
        decreases |segments|
      {
        var segment := segments[0];
        ghost var n := |ready| - |segments|;
        segments := segments[1..];
        var utterance := Return(segment, said + ready[..n]);
        assert said + ready[..n] + [segment] == said + ready[..n + 1];
        assert old(reported) + events + [SpeechEnd(utterance)] == old(reported) + (events + [SpeechEnd(utterance)]);
        events := events + [SpeechEnd(utterance)];
      }
      assert said + ready[..|ready|] == said + ready;
    }

    /** Return one segment, extended by its pre-roll. */
    method Return(segment: Segment, ghost said: seq<Segment>) returns (utterance: Audio)
      requires Returned(said) && previousEnd <= segment.start
      requires IsSlice(stream, segment.start, segment.End(), segment.samples)
      modifies this`snapshot, this`speaking, this`previousEnd, this`spans, this`reported
      ensures Returned(said + [segment]) && previousEnd == segment.End() && !speaking
      ensures |spans| == |old(spans)| + 1 && old(spans) <= spans && snapshot.None?
      ensures reported == old(reported) + [SpeechEnd(utterance)]
      ensures Extends(old(snapshot), old(previousEnd), segment.start, spans[|old(spans)|].begin)
    {
      hide Utterances, Disjoint, Lie, EndWith, Alternate, Segmenter.Extends;
      speaking := false;
      ghost var begin;
      utterance, begin := Extend(segment.start, segment.samples);
      UtterancesMore(reported, SpeechEnd(utterance));
      AlternateMore(reported, SpeechEnd(utterance));
      reported := reported + [SpeechEnd(utterance)];
      LieNext(stream, spans, Utterances(old(reported)), Span(begin, segment.End()), utterance);
      DisjointNext(spans, Span(begin, segment.End()));
      EndWithMore(spans, said, Span(begin, segment.End()), segment);
      spans := spans + [Span(begin, segment.End())];
      previousEnd := segment.start + |segment.samples|;
    }

    /** The segment with as much of its pre-roll as is allowed. */
    method Extend(start: nat, audio: Audio) returns (utterance: Audio, ghost begin: nat)
      requires previousEnd <= start && IsSlice(stream, start, start + |audio|, audio)
      requires snapshot.Some? ==>
                 IsSlice(stream, snapshot.value.start, snapshot.value.detected, snapshot.value.audio)
      modifies this`snapshot
      ensures snapshot.None? && IsSlice(stream, begin, start + |audio|, utterance)
      ensures Extends(old(snapshot), previousEnd, start, begin) && previousEnd <= begin <= start
    {
      hide Disjoint;
      var snap := snapshot;
      snapshot := None;
      begin := start;
      if snap.None? || preroll == 0 {
        return audio, begin;
      }
      var Snapshot(detected, snapStart, heard) := snap.value;
      if !(snapStart <= start <= snapStart + |heard|) {
        return audio, begin;
      }
      var first: int := detected - preroll;
      first := if first < snapStart then snapStart else first;
      first := if first < previousEnd then previousEnd else first;
      if first >= start {
        return audio, begin;
      }
      begin := first;
      utterance := heard[first - snapStart..start - snapStart] + audio;
      SliceOfSlice(stream, snapStart, detected, heard, first, start);
      SliceJoins(stream, begin, start, start + |audio|);
    }

    /**
     * An utterance begins with its segment, or as early before it as is allowed: at most the pre-roll before the
     * detection, within what was heard then, and after the last utterance. Only a segment that began within what was
     * heard when speech was detected is extended.
     */
    ghost predicate Extends(snap: Option<Snapshot>, previousEnd: nat, start: nat, begin: nat) {
      && previousEnd <= begin <= start
      && (begin < start ==>
            && preroll > 0 && snap.Some? && snap.value.detected - preroll <= begin && snap.value.start <= begin
            && start <= snap.value.start + |snap.value.audio|)
      && (snap.Some? && preroll > 0 && snap.value.start <= start <= snap.value.start + |snap.value.audio| ==>
            // It begins at the latest of the three, unless the segment begins no later.
            var Snapshot(detected, heardFrom, _) := snap.value;
            if begin < start then begin == detected - preroll || begin == heardFrom || begin == previousEnd
            else start <= detected - preroll || start <= heardFrom || start <= previousEnd)
    }

    /** Utterances of segments that are ready together: only the first may begin before its segment. */
    ghost predicate Begins(spans: seq<Span>, segments: seq<Segment>, snap: Option<Snapshot>, previousEnd: nat) {
      && |spans| == |segments|
      && (segments != [] ==> Extends(snap, previousEnd, segments[0].start, spans[0].begin))
      && forall k | 0 < k < |segments| :: spans[k].begin == segments[k].start
    }
  }

  // ---------------------------------------------------------------- what is reported for what the detector said

  /** Speech is reported to go on after these answers. */
  function SpeakingAfter(log: seq<Answer>, was: bool): bool {
    if log == [] then was else
      var a := log[|log| - 1];
      a.segments == [] && (SpeakingAfter(log[..|log| - 1], was) || a.detected)
  }

  /** The events of the answers, one after the other. */
  ghost predicate Follows(events: seq<Event>, log: seq<Answer>, was: bool)
    decreases log
  {
    if log == [] then events == [] else
      var before, a := log[..|log| - 1], log[|log| - 1];
      var n := (if a.detected && !SpeakingAfter(before, was) then 1 else 0) + |a.segments|;
      && n <= |events| && Follows(events[..|events| - n], before, was)
      && forall k | |events| - n <= k < |events| ::
           events[k].SpeechStart? <==> k == |events| - |a.segments| - 1
  }

  lemma FollowsNone(was: bool)
    ensures Follows([], [], was) && SpeakingAfter([], was) == was
  {
  }

  lemma FollowsMore(events: seq<Event>, log: seq<Answer>, was: bool, more: seq<Event>, a: Answer)
    requires Follows(events, log, was)
    requires var starts := a.detected && !SpeakingAfter(log, was);
             && |more| == (if starts then 1 else 0) + |a.segments| && (starts ==> more[0].SpeechStart?)
             && forall k | (if starts then 1 else 0) <= k < |more| :: more[k].SpeechEnd?
    ensures Follows(events + more, log + [a], was)
    ensures SpeakingAfter(log + [a], was) == (a.segments == [] && (SpeakingAfter(log, was) || a.detected))
  {
    assert (log + [a])[..|log|] == log;
    var all := events + more;
    assert all[..|all| - |more|] == events;
    assert forall k | 0 <= k < |more| :: all[|events| + k] == more[k];
  }

  lemma AlternateMore(events: seq<Event>, e: Event)
    requires Alternate(events) && (e.SpeechStart? ==> !Open(events))
    ensures Alternate(events + [e])
  {
  }

  lemma SliceOfSlice(stream: Audio, from: nat, to: nat, slice: Audio, begin: nat, end: nat)
    requires IsSlice(stream, from, to, slice) && from <= begin <= end <= to
    ensures slice[begin - from..end - from] == stream[begin..end]
  {
    var a, b := slice[begin - from..end - from], stream[begin..end];
    assert |a| == |b|;
    forall k | 0 <= k < |a| ensures a[k] == b[k] {
      assert a[k] == slice[begin - from + k] == stream[from + (begin - from + k)];
    }
  }

  lemma LieMore(stream: Audio, longer: Audio, spans: seq<Span>, utterances: seq<Audio>)
    requires Lie(stream, spans, utterances) && stream <= longer
    ensures Lie(longer, spans, utterances)
  {
  }

  lemma SliceJoins(stream: Audio, a: nat, b: nat, c: nat)
    requires a <= b <= c <= |stream|
    ensures stream[a..b] + stream[b..c] == stream[a..c]
  {
  }

  lemma LieNext(stream: Audio, spans: seq<Span>, utterances: seq<Audio>, span: Span, utterance: Audio)
    requires Lie(stream, spans, utterances) && IsSlice(stream, span.begin, span.end, utterance)
    ensures Lie(stream, spans + [span], utterances + [utterance])
  {
    hide IsSlice;
  }

  lemma DisjointNext(spans: seq<Span>, span: Span)
    requires Disjoint(spans) && span.begin <= span.end
    requires spans != [] ==> spans[|spans| - 1].end <= span.begin
    ensures Disjoint(spans + [span])
  {
  }

  lemma UtterancesMore(events: seq<Event>, e: Event)
    ensures Utterances(events + [e]) ==
            if e.SpeechEnd? then Utterances(events) + [e.utterance] else Utterances(events)
  {
    assert (events + [e])[..|events|] == events;
  }
}
