/**
 * `AudioFramer`: PCM chunks of any size, cut into wire frames.
 *
 * What the sink gets is a function of the samples pushed, however they were chunked.
 */
module Framer {

  type Sample = x: int | -0x8000 <= x < 0x8000

  type Samples = seq<Sample>

  datatype Wire = JsonWire | Protobuf

  datatype FrameState = First | Middle | Last

  datatype Option<+T> = None | Some(value: T)

  datatype Frame = Frame(samples: Samples, state: Option<FrameState>)

  function Silence(n: nat): (s: Samples)
    ensures |s| == n && forall i | 0 <= i < n :: s[i] == 0
  {
    seq(n, _ => 0)
  }

  function Join(frames: seq<Samples>): Samples {
    if frames == [] then [] else frames[0] + Join(frames[1..])
  }

  lemma JoinNone()
    ensures Join([]) == []
  {
  }

  lemma JoinNext(first: Samples, more: seq<Samples>)
    ensures Join([first] + more) == first + Join(more)
  {
    assert ([first] + more)[1..] == more;
  }

  lemma {:induction false} JoinConcat(a: seq<Samples>, b: seq<Samples>)
    ensures Join(a + b) == Join(a) + Join(b)
  {
    hide Join;
    if a == [] {
      JoinNone();
      assert a + b == b && [] + Join(b) == Join(b);
    } else {
      JoinConcat(a[1..], b);
      JoinNext(a[0], a[1..] + b);
      JoinNext(a[0], a[1..]);
      assert a == [a[0]] + a[1..] && a + b == [a[0]] + (a[1..] + b);
      assert a[0] + (Join(a[1..]) + Join(b)) == a[0] + Join(a[1..]) + Join(b);
    }
  }

  // ---------------------------------------------------------------- what is sent

  /** The full frames of the pushed samples, and the samples left over. */
  function Full(pushed: Samples, n: nat): (frames: seq<Samples>)
    requires n > 0
    ensures forall i | 0 <= i < |frames| :: |frames[i]| == n
    decreases |pushed|
  {
    if |pushed| < n then [] else [pushed[..n]] + Full(pushed[n..], n)
  }

  function Rest(pushed: Samples, n: nat): (rest: Samples)
    requires n > 0
    ensures |rest| < n
    decreases |pushed|
  {
    if |pushed| < n then pushed else Rest(pushed[n..], n)
  }

  lemma {:induction false} FullAndRest(pushed: Samples, n: nat)
    requires n > 0
    ensures Join(Full(pushed, n)) + Rest(pushed, n) == pushed
    decreases |pushed|
  {
    if |pushed| >= n {
      FullAndRest(pushed[n..], n);
      assert pushed == pushed[..n] + pushed[n..];
    }
  }

  /** Samples that fill the pending frame, or not quite. */
  lemma {:induction false} FullMore(pushed: Samples, more: Samples, n: nat)
    requires n > 0 && |Rest(pushed, n)| + |more| <= n
    ensures if |Rest(pushed, n)| + |more| == n then
              Full(pushed + more, n) == Full(pushed, n) + [Rest(pushed, n) + more] && Rest(pushed + more, n) == []
            else Full(pushed + more, n) == Full(pushed, n) && Rest(pushed + more, n) == Rest(pushed, n) + more
    decreases |pushed|
  {
    if |pushed| >= n {
      FullMore(pushed[n..], more, n);
      assert (pushed + more)[..n] == pushed[..n] && (pushed + more)[n..] == pushed[n..] + more;
    } else if |pushed| + |more| == n {
      assert (pushed + more)[..n] == pushed + more && (pushed + more)[n..] == [];
      assert Full([], n) == [];
    }
  }

  /** The last samples padded to a frame, then the silent tail. */
  function Flushed(rest: Samples, n: nat, tail: nat): (frames: seq<Samples>)
    requires |rest| < n
    ensures forall i | 0 <= i < |frames| :: |frames[i]| == n
  {
    (if rest == [] then [] else [rest + Silence(n - |rest|)]) + seq(tail, _ => Silence(n))
  }

  /** Every frame of a finished stream. */
  function AllFrames(wire: Wire, pushed: Samples, n: nat, tail: nat): (frames: seq<Samples>)
    requires n > 0
    ensures forall i | 0 <= i < |frames| :: |frames[i]| == n
  {
    var full, flushed := Full(pushed, n), Flushed(Rest(pushed, n), n, tail);
    full + flushed +
    if wire.JsonWire? then
      // Only a session that sent nothing sends a silent frame of its own.
      if full == [] && flushed == [] then [Silence(n)] else []
    else
      // A last frame, and a first one before it.
      (if full == [] && flushed == [] then [Silence(n)] else []) +
      if (full == [] && |flushed| <= 1) || flushed == [] then [Silence(n)] else []
  }

  function State(wire: Wire, i: nat, last: bool): Option<FrameState> {
    if wire.JsonWire? then None else Some(if last then Last else if i == 0 then First else Middle)
  }

  /** The frames with the states the protobuf wire gives them. */
  function Framed(wire: Wire, frames: seq<Samples>, finished: bool): (r: seq<Frame>)
    ensures |r| == |frames|
    ensures forall i | 0 <= i < |r| :: r[i] == Frame(frames[i], State(wire, i, finished && i == |frames| - 1))
  {
    seq(|frames|, i requires 0 <= i < |frames| => Frame(frames[i], State(wire, i, finished && i == |frames| - 1)))
  }

  /** On the protobuf wire: at least two frames, first, middle, ..., last. */
  lemma StatesGrammar(pushed: Samples, n: nat, tail: nat)
    requires n > 0
    ensures var frames := Framed(Protobuf, AllFrames(Protobuf, pushed, n, tail), true);
            && |frames| >= 2 && frames[0].state == Some(First) && frames[|frames| - 1].state == Some(Last)
            && forall i | 0 < i < |frames| - 1 :: frames[i].state == Some(Middle)
  {
  }

  lemma {:induction false} JoinSilence(n: nat, count: nat) returns (total: nat)
    ensures Join(seq(count, _ => Silence(n))) == Silence(total)
  {
    if count == 0 {
      total := 0;
    } else {
      var rest := JoinSilence(n, count - 1);
      assert seq(count, _ => Silence(n))[1..] == seq(count - 1, _ => Silence(n));
      total := n + rest;
    }
  }

  // ---------------------------------------------------------------- which frames these are

  /** As many frames of the samples, one after the other and with silence after the last one */
  ghost predicate Carries(frames: seq<Samples>, pushed: Samples, n: nat, count: nat) {
    |frames| == count && forall i | 0 <= i < count :: IsFrame(frames[i], pushed, n, i * n)
  }

  ghost predicate IsFrame(frame: Samples, pushed: Samples, n: nat, at: nat) {
    |frame| == n && forall k | 0 <= k < n :: frame[k] == if at + k < |pushed| then pushed[at + k] else 0
  }

  /**
   * How many frames a finished stream has: those of the samples and of the tail. A stream of none has a silent one, and
   * on the protobuf wire there are two at least, and one after the samples when they end with a frame and no tail
   * follows.
   */
  function FrameCount(wire: Wire, samples: nat, n: nat, tail: nat): nat
    requires n > 0
  {
    var all := (samples + n - 1) / n + tail;
    if wire.JsonWire? then (if all == 0 then 1 else all)
    else if all < 2 then 2
    else if samples % n == 0 && tail == 0 then all + 1
    else all
  }

  lemma Shift(i: nat, n: nat)
    ensures (i + 1) * n == i * n + n
  {
  }

  lemma DivShift(a: nat, n: nat)
    requires n > 0
    ensures (a + n) / n == a / n + 1 && (a + n) % n == a % n
    ensures a < n ==> a / n == 0 && a % n == a
    ensures a / n * n + a % n == a
  {
    Divided(a, n);
    var q, r := a / n, a % n;
    Shift(q, n);
    assert a + n == (q + 1) * n + r;
    DivIs(q + 1, r, n);
    if a < n {
      DivIs(0, a, n);
    }
  }

  lemma Divided(a: nat, n: nat)
    requires n > 0
    ensures a / n * n + a % n == a && a % n < n
  {
  }

  lemma DivIs(q: nat, r: nat, n: nat)
    requires r < n
    ensures (q * n + r) / n == q && (q * n + r) % n == r
  {
    var a := q * n + r;
    Divided(a, n);
    var p := a / n;
    if p < q {
      Times(p + 1, q, n);
      Shift(p, n);
    } else if p > q {
      Times(q + 1, p, n);
      Shift(q, n);
    }
  }

  lemma Times(a: nat, b: nat, n: nat)
    requires a <= b
    ensures a * n <= b * n
  {
  }

  lemma {:induction false} FullAre(pushed: Samples, n: nat)
    requires n > 0
    ensures Carries(Full(pushed, n), pushed, n, |pushed| / n)
    ensures |Rest(pushed, n)| == |pushed| % n && Rest(pushed, n) == pushed[|pushed| / n * n..]
    decreases |pushed|
  {
    if |pushed| >= n {
      var more := pushed[n..];
      FullAre(more, n);
      DivShift(|more|, n);
      Shift(|more| / n, n);
      assert Full(pushed, n) == [pushed[..n]] + Full(more, n);
      forall i | 0 <= i < |pushed| / n ensures IsFrame(Full(pushed, n)[i], pushed, n, i * n) {
        if i > 0 {
          Shift(i - 1, n);
          assert IsFrame(Full(more, n)[i - 1], more, n, (i - 1) * n);
        }
      }
    } else {
      DivShift(|pushed|, n);
    }
  }

  /** What a finished stream sends, frame by frame. */
  lemma AllFramesAre(wire: Wire, pushed: Samples, n: nat, tail: nat)
    requires n > 0
    ensures Carries(AllFrames(wire, pushed, n, tail), pushed, n, FrameCount(wire, |pushed|, n, tail))
  {
    hide Full, Rest, IsFrame;
    FullAre(pushed, n);
    var q := |pushed| / n;
    DivShift(|pushed|, n);
    FramesUp(|pushed|, n);
    var frames := AllFrames(wire, pushed, n, tail);
    assert |frames| == FrameCount(wire, |pushed|, n, tail);
    forall i | 0 <= i < |frames| ensures IsFrame(frames[i], pushed, n, i * n) {
      if i < q {
        assert frames[i] == Full(pushed, n)[i];
      } else if i == q && Rest(pushed, n) != [] {
        assert frames[i] == Rest(pushed, n) + Silence(n - |Rest(pushed, n)|);
        LastIsFrame(pushed, n);
      } else {
        assert frames[i] == Silence(n);
        SilentIsFrame(pushed, n, i);
      }
    }
  }

  lemma FramesUp(a: nat, n: nat)
    requires n > 0
    ensures (a + n - 1) / n == a / n + if a % n == 0 then 0 else 1
  {
    var q, r := a / n, a % n;
    assert a + n - 1 == q * n + (r + n - 1);
    if r == 0 {
      DivIs(q, n - 1, n);
    } else {
      Shift(q, n);
      DivIs(q + 1, r - 1, n);
    }
  }

  lemma LastIsFrame(pushed: Samples, n: nat)
    requires n > 0
    ensures IsFrame(Rest(pushed, n) + Silence(n - |Rest(pushed, n)|), pushed, n, |pushed| / n * n)
  {
    hide Rest;
    FullAre(pushed, n);
    DivShift(|pushed|, n);
  }

  lemma SilentIsFrame(pushed: Samples, n: nat, i: nat)
    requires n > 0 && i >= |pushed| / n && (i == |pushed| / n ==> |pushed| % n == 0)
    ensures IsFrame(Silence(n), pushed, n, i * n)
  {
    var q := |pushed| / n;
    DivShift(|pushed|, n);
    if i > q {
      Shift(q, n);
      Times(q + 1, i, n);
    }
  }

  lemma {:induction false} JoinLength(frames: seq<Samples>, n: nat)
    requires forall i | 0 <= i < |frames| :: |frames[i]| == n
    ensures |Join(frames)| == |frames| * n
  {
    if frames != [] {
      JoinLength(frames[1..], n);
      Shift(|frames| - 1, n);
    }
  }

  /** The frames joined are the pushed samples, followed by silence up to the end of the last frame. */
  lemma FramesAreStream(wire: Wire, pushed: Samples, n: nat, tail: nat) returns (silent: nat)
    requires n > 0
    ensures Join(AllFrames(wire, pushed, n, tail)) == pushed + Silence(silent)
    ensures |pushed| + silent == FrameCount(wire, |pushed|, n, tail) * n
  {
    hide AllFrames, Join, FrameCount;
    silent := FramesJoin(wire, pushed, n, tail);
    AllFramesAre(wire, pushed, n, tail);
    JoinLength(AllFrames(wire, pushed, n, tail), n);
  }

  lemma FramesJoin(wire: Wire, pushed: Samples, n: nat, tail: nat) returns (silent: nat)
    requires n > 0
    ensures Join(AllFrames(wire, pushed, n, tail)) == pushed + Silence(silent)
  {
    hide Full, Rest, Join;
    var full, rest := Full(pushed, n), Rest(pushed, n);
    var silence := seq(tail, _ => Silence(n));
    var extra := |AllFrames(wire, pushed, n, tail)| - |full| - |Flushed(rest, n, tail)|;
    var more := seq(extra, _ => Silence(n));
    var pad := PadJoins(rest, n, silence + more);
    var a := JoinSilence(n, tail);
    var b := JoinSilence(n, extra);
    JoinConcat(silence, more);
    var padding := if rest == [] then [] else [rest + Silence(n - |rest|)];
    assert AllFrames(wire, pushed, n, tail) == full + (padding + (silence + more));
    JoinConcat(full, padding + (silence + more));
    FullAndRest(pushed, n);
    silent := pad + a + b;
    assert Silence(silent) == Silence(pad) + (Silence(a) + Silence(b));
    assert Join(full) + (rest + (Silence(pad) + (Silence(a) + Silence(b))))
        == (Join(full) + rest) + (Silence(pad) + (Silence(a) + Silence(b)));
  }

  /** The padded frame joins as the samples left over and silence. */
  lemma PadJoins(rest: Samples, n: nat, after: seq<Samples>) returns (pad: nat)
    requires |rest| < n
    ensures Join((if rest == [] then [] else [rest + Silence(n - |rest|)]) + after) ==
            rest + (Silence(pad) + Join(after))
  {
    if rest == [] {
      pad := 0;
      assert [] + after == after;
      assert rest + (Silence(0) + Join(after)) == Join(after);
    } else {
      pad := n - |rest|;
      assert ([rest + Silence(pad)] + after)[1..] == after;
      assert rest + Silence(pad) + Join(after) == rest + (Silence(pad) + Join(after));
    }
  }

  // ---------------------------------------------------------------- the framer

  class AudioFramer {
    const wire: Wire
    const frameSamples: nat
    const frameMs: nat
    const tailMs: real

    const pending: array<Sample>
    var pendingCount: nat
    var started: bool
    var finished: bool
    var framesSent: nat
    var samplesSent: nat
    /** What the sink got. */
    var sent: seq<Frame>

    ghost var pushed: Samples

    ghost predicate Valid()
      reads this, pending
    {
      && Counts()
      && if finished then sent == Framed(wire, AllFrames(wire, pushed, frameSamples, Tail()), true)
         else
           && sent == Framed(wire, Full(pushed, frameSamples), false)
           && pendingCount < frameSamples && pending[..pendingCount] == Rest(pushed, frameSamples)
    }

    ghost predicate Counts()
      reads this
    {
      && frameSamples > 0 && frameMs > 0 && tailMs >= 0.0 && pending.Length == frameSamples
      && (started <==> sent != []) && framesSent == |sent| && samplesSent == |sent| * frameSamples
    }

    /** `Math.round(tailMs / frameMs)` */
    function Tail(): (tail: nat)
      requires frameMs > 0 && tailMs >= 0.0
      ensures tail as real - 0.5 <= tailMs / frameMs as real < tail as real + 0.5
    {
      (tailMs / frameMs as real + 0.5).Floor
    }

    constructor (wire: Wire, sampleRate: nat, frameMs: nat, tailMs: real)
      requires sampleRate > 0 && frameMs > 0 && sampleRate * frameMs % 1000 == 0
      ensures Valid() && pushed == [] && !finished && fresh(pending)
      ensures this.wire == wire && this.frameMs == frameMs && frameSamples == sampleRate * frameMs / 1000
      ensures this.tailMs == (if tailMs < 0.0 then 0.0 else tailMs) && sent == []
    {
      this.wire, this.frameMs := wire, frameMs;
      frameSamples := sampleRate * frameMs / 1000;
      this.tailMs := if tailMs < 0.0 then 0.0 else tailMs;
      pending := new Sample[sampleRate * frameMs / 1000];
      pendingCount, started, finished, framesSent, samplesSent, sent := 0, false, false, 0, 0, [];
      pushed := [];
      new;
      assert pending[..0] == [];
    }

    /** The sink got this many frames of the samples, each with the state its place calls for. */
    ghost predicate Sends(count: nat)
      reads this
    {
      && |sent| == count
      && (forall i | 0 <= i < count :: IsFrame(sent[i].samples, pushed, frameSamples, i * frameSamples))
      && (forall i | 0 <= i < count ::
            sent[i].state == if wire.JsonWire? then None
                             else if finished && i == count - 1 then Some(Last)
                             else if i == 0 then Some(First) else Some(Middle))
    }

    lemma PushedAreSent()
      requires Valid() && !finished
      ensures Sends(|pushed| / frameSamples)
    {
      hide Full, Rest, IsFrame;
      FullAre(pushed, frameSamples);
    }

    lemma FinishedAreSent()
      requires Valid() && finished
      ensures Sends(FrameCount(wire, |pushed|, frameSamples, Tail()))
    {
      hide AllFrames, IsFrame;
      AllFramesAre(wire, pushed, frameSamples, Tail());
    }

    /** Take samples; every full frame goes out. False where the source throws. */
    method Push(samples: Samples) returns (ok: bool)
      requires Valid()
      modifies this, pending
      ensures Valid() && ok == !old(finished) && finished == old(finished)
      ensures pushed == old(pushed) + if ok then samples else []
      // Every full frame was sent, and nothing else.
      ensures if ok then Sends(|pushed| / frameSamples) else sent == old(sent)
    {
      hide Full, Rest, Framed, AllFrames, Flushed;
      if finished {
        assert pushed + [] == pushed;
        return false;
      }
      var offset := 0;
      while offset < |samples|
        invariant Valid() && !finished && offset <= |samples|
        invariant pushed == old(pushed) + samples[..offset]
      {
        var room, left := frameSamples - pendingCount, |samples| - offset;
        var take := if room < left then room else left;
        PushSome(samples, offset, take);
        assert samples[..offset + take] == samples[..offset] + samples[offset..offset + take];
        offset := offset + take;
      }
      assert samples[..|samples|] == samples;
      PushedAreSent();
      return true;
    }

    /** Take samples up to the end of the pending frame, which goes out when it is full. */
    method PushSome(samples: Samples, offset: nat, take: nat)
      requires Valid() && !finished && offset + take <= |samples| && pendingCount + take <= frameSamples
      modifies this`pendingCount, this`started, this`framesSent, this`samplesSent, this`sent, this`pushed, pending
      ensures Valid() && pushed == old(pushed) + samples[offset..offset + take]
    {
      hide Full, Rest, Framed;
      ghost var taken := samples[offset..offset + take];
      Fill(samples, offset, take);
      FullMore(pushed, taken, frameSamples);
      pushed := pushed + taken;
      if pendingCount == frameSamples {
        var frame := TakePending();
        assert frame == Rest(old(pushed), frameSamples) + taken;
        FramedMore(wire, Full(old(pushed), frameSamples), frame);
        Emit(frame, None);
        assert pending[..pendingCount] == [];
      }
    }

    /** Copy `take` samples behind the pending ones. */
    method Fill(samples: Samples, offset: nat, take: nat)
      requires offset + take <= |samples| && pendingCount + take <= pending.Length
      modifies pending, this`pendingCount
      ensures pendingCount == old(pendingCount) + take
      ensures pending[..pendingCount] == old(pending[..pendingCount]) + samples[offset..offset + take]
    {
      for k := 0 to take
        modifies pending
        invariant pending[..pendingCount] == old(pending[..pendingCount])
        invariant pending[pendingCount..pendingCount + k] == samples[offset..offset + k]
      {
        pending[pendingCount + k] := samples[offset + k];
      }
      assert pending[..pendingCount + take] == pending[..pendingCount] + pending[pendingCount..pendingCount + take];
      pendingCount := pendingCount + take;
    }

    /** The pending samples as a frame, padded with silence. */
    method TakePending() returns (frame: Samples)
      requires pendingCount <= pending.Length == frameSamples
      modifies this`pendingCount
      ensures pendingCount == 0
      ensures frame == old(pending[..pendingCount]) + Silence(frameSamples - old(pendingCount))
    {
      var buffer := new Sample[frameSamples](_ => 0);
      for k := 0 to pendingCount
        modifies buffer
        invariant forall i | 0 <= i < k :: buffer[i] == pending[i]
        invariant forall i | k <= i < frameSamples :: buffer[i] == 0
      {
        buffer[k] := pending[k];
      }
      frame := buffer[..];
      pendingCount := 0;
    }

    /** Hand a frame to the sink. A forced state is honoured on the protobuf wire only. */
    method Emit(samples: Samples, forced: Option<FrameState>)
      requires Counts() && |samples| == frameSamples
      modifies this`started, this`framesSent, this`samplesSent, this`sent
      ensures Counts()
      ensures sent == old(sent) + [Frame(samples, if wire.JsonWire? then None else if forced.Some? then forced
                                                  else Some(if old(sent) == [] then First else Middle))]
    {
      var state := if wire == Protobuf then
                     if forced.Some? then forced else Some(if started then Middle else First)
                   else None;
      started := true;
      framesSent := framesSent + 1;
      samplesSent := samplesSent + |samples|;
      sent := sent + [Frame(samples, state)];
    }

    /** The partial frame and the silent tail. */
    method FlushFrames() returns (frames: seq<Samples>)
      requires Valid() && !finished
      modifies this`pendingCount
      ensures frames == Flushed(Rest(pushed, frameSamples), frameSamples, Tail())
    {
      ghost var rest := Rest(pushed, frameSamples);
      frames := [];
      if pendingCount > 0 {
        var last := TakePending();
        frames := [last];
      }
      var tailFrames := Tail();
      for i := 0 to tailFrames
        invariant frames == (if rest == [] then [] else [rest + Silence(frameSamples - |rest|)]) +
                  seq(i, _ => Silence(frameSamples))
      {
        frames := frames + [Silence(frameSamples)];
      }
    }

    /** Pad what is left to a frame, add the tail, and mark the last frame. */
    method Finish()
      requires Valid()
      modifies this
      ensures Valid() && finished && pushed == old(pushed)
      ensures old(finished) ==> sent == old(sent)
      // The frames of the samples and of the tail, but one at least; two on the protobuf wire, which also needs a last
      // frame after full ones without a tail.
      ensures var all := (|pushed| + frameSamples - 1) / frameSamples + Tail();
              Sends(if wire.JsonWire? then (if all == 0 then 1 else all)
                    else if all < 2 then 2
                    else if |pushed| % frameSamples == 0 && Tail() == 0 then all + 1 else all)
    {
      if finished {
        FinishedAreSent();
        return;
      }
      var frames := FlushFrames();
      finished := true;
      Close(frames);
      FinishedAreSent();
    }

    /** Emit what is left; the protobuf wire needs a first frame and a last one after it. */
    method Close(flushed: seq<Samples>)
      requires Counts() && sent == Framed(wire, Full(pushed, frameSamples), false)
      requires flushed == Flushed(Rest(pushed, frameSamples), frameSamples, Tail())
      modifies this`started, this`framesSent, this`samplesSent, this`sent
      ensures Counts() && sent == Framed(wire, AllFrames(wire, pushed, frameSamples, Tail()), true)
    {
      hide Full, Rest, Flushed;
      var frames := flushed;
      if wire == JsonWire {
        if |frames| == 0 && !started {
          Emit(Silence(frameSamples), None);
        }
        EmitAll(frames, false);
      } else {
        if !started {
          // A stream of one frame would need two states for it, so a second one follows.
          if |frames| > 0 {
            Emit(frames[0], Some(First));
            frames := frames[1..];
          } else {
            Emit(Silence(frameSamples), Some(First));
          }
        }
        EmitAll(if |frames| == 0 then [Silence(frameSamples)] else frames, true);
      }
    }

    /** Emit frames; `closing` forces the last one's state. */
    method EmitAll(frames: seq<Samples>, closing: bool)
      requires Counts() && forall k | 0 <= k < |frames| :: |frames[k]| == frameSamples
      requires wire.Protobuf? ==> sent != [] && closing
      modifies this`started, this`framesSent, this`samplesSent, this`sent
      ensures Counts() && |sent| == |old(sent)| + |frames| && old(sent) <= sent
      ensures forall k | 0 <= k < |frames| ::
                sent[|old(sent)| + k] ==
                Frame(frames[k], if wire.JsonWire? then None else Some(if k == |frames| - 1 then Last else Middle))
    {
      for index := 0 to |frames|
        invariant Counts() && |sent| == |old(sent)| + index && old(sent) <= sent
        invariant forall k | 0 <= k < index ::
                    sent[|old(sent)| + k] ==
                    Frame(frames[k], if wire.JsonWire? then None else Some(if k == |frames| - 1 then Last else Middle))
      {
        Emit(frames[index], if closing && index == |frames| - 1 then Some(Last) else None);
      }
    }
  }

  lemma FramedMore(wire: Wire, frames: seq<Samples>, frame: Samples)
    ensures Framed(wire, frames + [frame], false) ==
            Framed(wire, frames, false) + [Frame(frame, State(wire, |frames|, false))]
  {
  }
}
