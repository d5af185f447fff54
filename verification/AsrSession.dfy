/**
 * A streaming speech session: what it publishes, which samples reach the framer, and how `finish()` settles.
 * Every `await` is a step boundary; the network, the timers and the caller act in any order.
 */
module AsrSession {

  datatype Option<T> = None | Some(value: T)

  // ---------------------------------------------------------------- events

  datatype AsrEvent =
    | Open
    | Ended
    | Error
    | Received
    | Heartbeat
    | Results
    | Text(text: string, final: bool)
  {
    /** Neither the first nor the last kind of event */
    predicate Inner() {
      !Open? && !Ended?
    }
  }

  datatype Answer = Yields(event: AsrEvent) | Ends

  /** What the `i`-th call of `next()` has been answered, when `pushed` was published so far. */
  function AnswerTo(pushed: seq<AsrEvent>, done: bool, i: nat): Option<Answer> {
    if i < |pushed| then Some(Yields(pushed[i])) else if done then Some(Ends) else None
  }

  function Numbers(from: nat, to: nat): (s: seq<nat>)
    ensures |s| == if from < to then to - from else 0
    ensures forall i | 0 <= i < |s| :: s[i] == from + i
  {
    if from < to then Numbers(from, to - 1) + [to - 1] else []
  }

  function Min(a: nat, b: nat): nat {
    if a < b then a else b
  }

  class EventQueue {
    var items: seq<AsrEvent>
    var waiters: seq<nat>
    var done: bool
    /** The promises `next()` has handed out */
    var promises: seq<Option<Answer>>
    ghost var pushed: seq<AsrEvent>

    ghost predicate Valid()
      reads this
    {
      && (forall i | 0 <= i < |promises| :: promises[i] == AnswerTo(pushed, done, i))
      && items == pushed[Min(|promises|, |pushed|)..]
      && waiters == if done then [] else Numbers(|pushed|, |promises|)
    }

    constructor ()
      ensures Valid() && pushed == [] && !done && promises == []
    {
      items, waiters, done, promises, pushed := [], [], false, [], [];
    }

    method Push(event: AsrEvent)
      requires Valid()
      modifies this
      ensures Valid() && done == old(done) && |promises| == old(|promises|)
      ensures pushed == if done then old(pushed) else old(pushed) + [event]
    {
      if done {
        return;
      }
      if waiters != [] {
        var waiter := waiters[0];
        waiters := waiters[1..];
        promises := promises[waiter := Some(Yields(event))];
      } else {
        items := items + [event];
      }
      pushed := pushed + [event];
    }

    method End()
      requires Valid()
      modifies this
      ensures Valid() && done && pushed == old(pushed) && |promises| == old(|promises|)
    {
      if done {
        return;
      }
      done := true;
      ghost var from := |pushed|;
      ghost var was := promises;
      while waiters != []
        invariant |promises| == |was| && |waiters| <= |was|
        invariant forall k | 0 <= k < |waiters| :: waiters[k] == |was| - |waiters| + k
        invariant waiters != [] ==> |was| - |waiters| >= from
        invariant forall i | 0 <= i < |was| - |waiters| :: promises[i] == AnswerTo(pushed, true, i)
        invariant forall i | |was| - |waiters| <= i < |was| :: promises[i] == was[i]
        modifies `promises, `waiters
        decreases |waiters|
      {
        var waiter := waiters[0];
        waiters := waiters[1..];
        promises := promises[waiter := Some(Ends)];
      }
    }

    /** `next()`: the promise is answered now or by a later `push` or `end`. */
    method Next() returns (call: nat)
      requires Valid()
      modifies this
      ensures Valid() && done == old(done) && pushed == old(pushed)
      ensures call == old(|promises|) && |promises| == call + 1
    {
      call := |promises|;
      if items != [] {
        promises := promises + [Some(Yields(items[0]))];
        items := items[1..];
      } else if done {
        promises := promises + [Some(Ends)];
      } else {
        waiters := waiters + [call];
        promises := promises + [None];
      }
    }
  }

  // ---------------------------------------------------------------- the session's state

  datatype Wire = JsonWire | ProtobufWire

  datatype SessionPhase = Idle | Connecting | Handshaking | Streaming | Finishing | Closed

  /** Where `connect()` is: not called, at one of its awaits, or over. */
  datatype Stage = NotCalled | Credentials | Transport | Reply(rounds: nat) | Connected | Failed

  datatype Failure = TimedOut | Expired | ServerFailed

  datatype Outcome = Outcome(text: Option<string>, timedOut: bool, expired: bool, failure: Option<Failure>)

  /** The promise of `finish()` */
  datatype Finish = NotAsked | Pending | Settled(outcome: Outcome) | Rejected

  datatype Track = Track(track: int, text: string, interim: bool, vadFinished: bool)
  datatype Payload = Nothing | Beat | Tracks(tracks: seq<Track>)
  datatype Kind = Terminal | Failing | Plain
  datatype Message = Message(kind: Kind, ok: bool, payload: Payload)

  /** Whether a track carries the session's text: the wires differ in what ends it. */
  predicate IsFinalTrack(wire: Wire, t: Track) {
    t.track == 0 && !t.interim && (wire.JsonWire? || t.vadFinished)
  }

  function TrackEvents(wire: Wire, tracks: seq<Track>): seq<AsrEvent> {
    if tracks == [] then [] else
      var n := |tracks| - 1;
      TrackEvents(wire, tracks[..n]) + [Text(tracks[n].text, IsFinalTrack(wire, tracks[n]))]
  }

  /** The text of the last final track that has one */
  function LastFinal(wire: Wire, tracks: seq<Track>, was: Option<string>): Option<string> {
    if tracks == [] then was else
      var n := |tracks| - 1;
      if tracks[n].text != "" && IsFinalTrack(wire, tracks[n]) then Some(tracks[n].text) else
        LastFinal(wire, tracks[..n], was)
  }

  /** The text of the first one */
  function FirstFinal(wire: Wire, tracks: seq<Track>): Option<string> {
    if tracks == [] then None else
      var n := |tracks| - 1;
      var first := FirstFinal(wire, tracks[..n]);
      if first.None? && tracks[n].text != "" && IsFinalTrack(wire, tracks[n]) then Some(tracks[n].text) else first
  }

  function PayloadText(wire: Wire, p: Payload): Option<string> {
    if p.Tracks? then FirstFinal(wire, p.tracks) else None
  }

  /** What is published for a message */
  function MessageEvents(wire: Wire, m: Message): seq<AsrEvent> {
    [Received] + PayloadEvents(wire, m.payload) + if m.ok then [] else [Error]
  }

  function PayloadEvents(wire: Wire, p: Payload): seq<AsrEvent> {
    match p
    case Nothing => []
    case Beat => [Heartbeat]
    case Tracks(tracks) => [Results] + TrackEvents(wire, tracks)
  }

  function TextAfter(wire: Wire, m: Message, was: Option<string>): Option<string> {
    if m.payload.Tracks? then LastFinal(wire, m.payload.tracks, was) else was
  }

  /** What is published for a message, event by event */
  lemma MessageReads(wire: Wire, m: Message)
    ensures var events := MessageEvents(wire, m);
            var n := if m.payload.Nothing? then 1 else if m.payload.Beat? then 2 else 2 + |m.payload.tracks|;
            && |events| == (if m.ok then n else n + 1) && events[0] == Received
            && (m.payload.Beat? ==> events[1] == Heartbeat)
            && (m.payload.Tracks? ==> events[1] == Results)
            && (m.payload.Tracks? ==> forall i | 0 <= i < |m.payload.tracks| ::
                  var t := m.payload.tracks[i];
                  events[2 + i] == Text(t.text, t.track == 0 && !t.interim && (wire.JsonWire? || t.vadFinished)))
            && (!m.ok ==> events[n] == Error)
  {
    if m.payload.Tracks? {
      TracksRead(wire, m.payload.tracks);
    }
  }

  lemma {:induction false} TracksRead(wire: Wire, tracks: seq<Track>)
    ensures |TrackEvents(wire, tracks)| == |tracks|
    ensures forall i | 0 <= i < |tracks| ::
              var t := tracks[i];
              TrackEvents(wire, tracks)[i] ==
              Text(t.text, t.track == 0 && !t.interim && (wire.JsonWire? || t.vadFinished))
  {
    if tracks != [] {
      TracksRead(wire, tracks[..|tracks| - 1]);
    }
  }

  /** A message leaves the text of its last final track that has one; a waiting `finish()` gets the first. */
  lemma TextReads(wire: Wire, m: Message, was: Option<string>, first: nat, last: nat)
    requires m.payload.Tracks? && first <= last < |m.payload.tracks|
    requires forall i | 0 <= i < |m.payload.tracks| ::
               var t := m.payload.tracks[i];
               (i == first || i == last ==>
                  t.text != "" && t.track == 0 && !t.interim && (wire.JsonWire? || t.vadFinished)) &&
               (i < first || i > last ==>
                  !(t.text != "" && t.track == 0 && !t.interim && (wire.JsonWire? || t.vadFinished)))
    ensures TextAfter(wire, m, was) == Some(m.payload.tracks[last].text)
    ensures PayloadText(wire, m.payload) == Some(m.payload.tracks[first].text)
  {
    FirstReads(wire, m.payload.tracks, first);
    LastReads(wire, m.payload.tracks, was, last);
  }

  /** A message without such a track leaves the text as it was. */
  lemma NoTextReads(wire: Wire, m: Message, was: Option<string>)
    requires m.payload.Tracks? ==>
               forall i | 0 <= i < |m.payload.tracks| ::
                 var t := m.payload.tracks[i];
                 !(t.text != "" && t.track == 0 && !t.interim && (wire.JsonWire? || t.vadFinished))
    ensures TextAfter(wire, m, was) == was && PayloadText(wire, m.payload).None?
  {
    if m.payload.Tracks? {
      NoneFinal(wire, m.payload.tracks, was);
    }
  }

  lemma {:induction false} FirstReads(wire: Wire, tracks: seq<Track>, first: nat)
    requires first < |tracks| && tracks[first].text != "" && IsFinalTrack(wire, tracks[first])
    requires forall i | 0 <= i < first :: !(tracks[i].text != "" && IsFinalTrack(wire, tracks[i]))
    ensures FirstFinal(wire, tracks) == Some(tracks[first].text)
  {
    var n := |tracks| - 1;
    if first < n {
      FirstReads(wire, tracks[..n], first);
    } else {
      NoneFinal(wire, tracks[..n], None);
    }
  }

  lemma {:induction false} LastReads(wire: Wire, tracks: seq<Track>, was: Option<string>, last: nat)
    requires last < |tracks| && tracks[last].text != "" && IsFinalTrack(wire, tracks[last])
    requires forall i | last < i < |tracks| :: !(tracks[i].text != "" && IsFinalTrack(wire, tracks[i]))
    ensures LastFinal(wire, tracks, was) == Some(tracks[last].text)
  {
    if last < |tracks| - 1 {
      LastReads(wire, tracks[..|tracks| - 1], was, last);
    }
  }

  lemma {:induction false} NoneFinal(wire: Wire, tracks: seq<Track>, was: Option<string>)
    requires forall i | 0 <= i < |tracks| ::
               var t := tracks[i];
               !(t.text != "" && t.track == 0 && !t.interim && (wire.JsonWire? || t.vadFinished))
    ensures LastFinal(wire, tracks, was) == was && FirstFinal(wire, tracks).None?
  {
    if tracks != [] {
      NoneFinal(wire, tracks[..|tracks| - 1], was);
    }
  }

  /** `open` only first, `closed` only last, and the queue has ended exactly when `closed` is there. */
  ghost predicate Shape(pushed: seq<AsrEvent>, done: bool) {
    && (forall i | 0 <= i < |pushed| :: pushed[i].Open? ==> i == 0)
    && (forall i | 0 <= i < |pushed| :: pushed[i].Ended? ==> i == |pushed| - 1)
    && (done <==> pushed != [] && pushed[|pushed| - 1].Ended?)
  }

  ghost predicate AllInner(deferred: Option<seq<AsrEvent>>) {
    deferred.Some? ==> forall e | e in deferred.value :: e.Inner()
  }

  /** Nothing is published before `open` while the session lives. */
  ghost predicate Held(phase: SessionPhase, stage: Stage, deferred: Option<seq<AsrEvent>>, closed: bool,
                       pushed: seq<AsrEvent>, done: bool)
  {
    && (closed <==> done)
    && (phase.Closed? || stage.Failed? ==> done)
    && (!done ==> (deferred.None? <==> stage.Connected?))
    && (!done && deferred.Some? ==> pushed == [])
    && AllInner(deferred)
    && (phase.Idle? ==> stage.NotCalled?)
    && (stage.NotCalled? ==> phase.Idle? || phase.Closed?)
    && (phase.Streaming? || phase.Finishing? ==> stage.Connected?)
    && (stage.Failed? ==> phase.Closed?)
    && (stage.Connected? ==> phase.Streaming? || phase.Finishing? || phase.Closed?)
  }

  /** A finish that is still waited for will be settled by a timer, a message or the end of the session. */
  ghost predicate Awaited(phase: SessionPhase, serverFinished: bool, text: Option<string>, grace: bool,
                          finish: Finish) {
    finish.Pending? ==> phase.Finishing? && (serverFinished ==> grace && text.None?)
  }

  // ---------------------------------------------------------------- samples

  function Flat(chunks: seq<seq<nat>>): seq<nat> {
    if chunks == [] then [] else Flat(chunks[..|chunks| - 1]) + chunks[|chunks| - 1]
  }

  lemma FlatOne(chunks: seq<seq<nat>>, c: seq<nat>)
    ensures Flat(chunks + [c]) == Flat(chunks) + c
  {
    assert (chunks + [c])[..|chunks|] == chunks;
  }

  lemma {:induction false} FlatSplit(chunks: seq<seq<nat>>, k: nat)
    requires k <= |chunks|
    ensures Flat(chunks) == Flat(chunks[..k]) + Flat(chunks[k..])
  {
    if k == |chunks| {
      assert chunks[..k] == chunks && chunks[k..] == [];
    } else {
      var n := |chunks| - 1;
      FlatSplit(chunks[..n], k);
      assert chunks[..n][..k] == chunks[..k] && chunks[k..][..n - k] == chunks[..n][k..];
    }
  }

  /** `kept` is the longest run of whole latest chunks within the budget. */
  ghost predicate Latest(chunks: seq<seq<nat>>, kept: seq<seq<nat>>, budget: nat) {
    Run(chunks, kept, budget) && |Flat(kept)| <= budget
  }

  /** A run of whole latest chunks, no shorter than the longest within the budget */
  ghost predicate Run(chunks: seq<seq<nat>>, kept: seq<seq<nat>>, budget: nat) {
    && |kept| <= |chunks|
    && kept == chunks[|chunks| - |kept|..]
    && (|kept| < |chunks| ==> |Flat(chunks[|chunks| - |kept| - 1..])| > budget)
  }

  /** No other run is. */
  lemma LatestUnique(chunks: seq<seq<nat>>, kept: seq<seq<nat>>, kept': seq<seq<nat>>, budget: nat)
    requires Latest(chunks, kept, budget) && Latest(chunks, kept', budget)
    ensures kept == kept'
  {
    if |kept| < |kept'| {
      LongerNotLatest(chunks, kept, kept', budget);
    } else if |kept'| < |kept| {
      LongerNotLatest(chunks, kept', kept, budget);
    }
  }

  lemma LongerNotLatest(chunks: seq<seq<nat>>, kept: seq<seq<nat>>, longer: seq<seq<nat>>, budget: nat)
    requires Latest(chunks, kept, budget) && |kept| < |longer| <= |chunks|
    requires longer == chunks[|chunks| - |longer|..]
    ensures |Flat(longer)| > budget
  {
    var k := |longer| - |kept| - 1;
    FlatSplit(longer, k);
    assert longer[k..] == chunks[|chunks| - |kept| - 1..];
  }

  /** Nothing was accepted after something was dropped; a sample is its number in what the caller pushed. */
  ghost predicate Gapless(accepted: seq<nat>) {
    forall i | 0 <= i < |accepted| :: accepted[i] == i
  }

  /**
   * Every offered sample was accepted, in order, or dropped. Only a session that is over drops, and only one that went
   * on after its end accepted something after what it dropped.
   */
  ghost predicate Counted(offered: nat, accepted: seq<nat>, dropped: set<nat>, reopened: bool, over: bool) {
    && (forall i, j | 0 <= i < j < |accepted| :: accepted[i] < accepted[j])
    && (forall i | 0 <= i < |accepted| :: accepted[i] < offered && accepted[i] !in dropped)
    && (forall n | n in dropped :: n < offered)
    && (forall n | 0 <= n < offered :: n in accepted || n in dropped)
    && (dropped != {} ==> reopened || over)
    && (!reopened ==> Gapless(accepted))
  }

  function Those(samples: seq<nat>): set<nat> {
    set n | n in samples
  }

  /** Consecutive samples */
  ghost predicate IsBlock(samples: seq<nat>) {
    forall i | 0 <= i < |samples| :: samples[i] == samples[0] + i
  }

  /** A slice of the accepted samples is one block exactly when nothing between its ends was dropped. */
  lemma BlockIff(offered: nat, accepted: seq<nat>, dropped: set<nat>, reopened: bool, over: bool, start: nat, end: nat)
    requires Counted(offered, accepted, dropped, reopened, over) && start < end <= |accepted|
    ensures IsBlock(accepted[start..end]) <==> NoneWithin(dropped, accepted[start], accepted[end - 1])
  {
    hide Counted, IsBlock, NoneWithin;
    if IsBlock(accepted[start..end]) {
      BlockMissesNone(offered, accepted, dropped, reopened, over, start, end);
    }
    if NoneWithin(dropped, accepted[start], accepted[end - 1]) {
      NoneMissedBlock(offered, accepted, dropped, reopened, over, start, end);
    }
  }

  lemma BlockMissesNone(offered: nat, accepted: seq<nat>, dropped: set<nat>, reopened: bool, over: bool, start: nat,
                        end: nat)
    requires Counted(offered, accepted, dropped, reopened, over) && start < end <= |accepted|
    requires IsBlock(accepted[start..end])
    ensures NoneWithin(dropped, accepted[start], accepted[end - 1])
  {
    hide IsBlock;
    var slice := accepted[start..end];
    BlockHolds(slice);
    assert slice[0] == accepted[start] && slice[|slice| - 1] == accepted[end - 1];
    assert forall n | n in slice :: n !in dropped;
  }

  lemma NoneMissedBlock(offered: nat, accepted: seq<nat>, dropped: set<nat>, reopened: bool, over: bool, start: nat,
                        end: nat)
    requires Counted(offered, accepted, dropped, reopened, over) && start < end <= |accepted|
    requires NoneWithin(dropped, accepted[start], accepted[end - 1])
    ensures IsBlock(accepted[start..end])
  {
    forall i | start <= i < end - 1 ensures accepted[i + 1] == accepted[i] + 1 {
      NextInLine(offered, accepted, dropped, reopened, over, i);
      Ordered(accepted, i + 1, end - 1);
      Ordered(accepted, start, i);
    }
    hide Counted, IsBlock;
    StepsBlock(accepted[start..end]);
  }

  lemma BlockHolds(samples: seq<nat>)
    requires IsBlock(samples) && samples != []
    ensures forall n | samples[0] < n < samples[|samples| - 1] :: n in samples
  {
    assert samples[|samples| - 1] == samples[0] + (|samples| - 1);
    forall n | samples[0] < n < samples[|samples| - 1] ensures n in samples {
      assert samples[n - samples[0]] == n;
    }
  }

  predicate NoneWithin(dropped: set<nat>, first: nat, last: nat) {
    forall n | n in dropped :: n <= first || n >= last
  }

  lemma {:induction false} StepsBlock(samples: seq<nat>)
    requires forall i | 0 <= i < |samples| - 1 :: samples[i + 1] == samples[i] + 1
    ensures IsBlock(samples)
  {
    if |samples| > 1 {
      var n := |samples| - 1;
      StepsBlock(samples[..n]);
      assert samples[..n][n - 1] == samples[..n][0] + (n - 1);
      assert forall i | 0 <= i < n :: samples[i] == samples[..n][i] == samples[..n][0] + i;
    }
  }

  lemma Ordered(samples: seq<nat>, i: nat, j: nat)
    requires forall i, j | 0 <= i < j < |samples| :: samples[i] < samples[j]
    requires i < |samples| && j < |samples|
    ensures samples[i] < samples[j] <==> i < j
  {
  }

  /** Between two accepted samples there is nothing, or something that was dropped. */
  lemma NextInLine(offered: nat, accepted: seq<nat>, dropped: set<nat>, reopened: bool, over: bool, i: nat)
    requires Counted(offered, accepted, dropped, reopened, over) && i + 1 < |accepted|
    ensures accepted[i + 1] == accepted[i] + 1 || accepted[i] < accepted[i] + 1 < accepted[i + 1]
    ensures accepted[i + 1] == accepted[i] + 1 || accepted[i] + 1 in dropped
  {
    var n := accepted[i] + 1;
    assert accepted[i] < accepted[i + 1] < offered;
    if n !in dropped {
      var j :| 0 <= j < |accepted| && accepted[j] == n;
      Ordered(accepted, i, j);
      Ordered(accepted, j, i + 1);
    }
  }

  /** The framer gets one block of the accepted samples, which begins where the pre-roll does. */
  ghost predicate Fed(stage: Stage, accepted: seq<nat>, chunks: seq<seq<nat>>, preRoll: seq<seq<nat>>, given: seq<nat>,
                      shed: nat, budget: nat)
  {
    && shed + |given| <= |accepted|
    && given == accepted[shed..shed + |given|]
    && if stage.Connected? then
         preRoll == [] && shed + |given| == |accepted| && shed == ShedOf(chunks, budget)
       else if stage.Failed? then
         true
       else
         && given == [] && accepted == Flat(chunks) && Latest(chunks, preRoll, budget)
         && shed == |accepted| - |Flat(preRoll)|
  }

  /** How many of the oldest chunks a budget sheds, and their samples. */
  function FirstKept(chunks: seq<seq<nat>>, budget: nat): (k: nat)
    ensures k <= |chunks|
  {
    if |Flat(chunks)| <= budget || chunks == [] then 0 else 1 + FirstKept(chunks[1..], budget)
  }

  function ShedOf(chunks: seq<seq<nat>>, budget: nat): nat {
    |Flat(chunks[..FirstKept(chunks, budget)])|
  }

  /** A chunk is shed exactly when it and what follows it exceed the budget. */
  lemma {:induction false} ShedIff(chunks: seq<seq<nat>>, k: nat, budget: nat)
    requires k <= |chunks|
    ensures k < FirstKept(chunks, budget) <==> |Flat(chunks[k..])| > budget
  {
    FlatSplit(chunks, k);
    FlatNone([]);
    if |Flat(chunks)| > budget && k > 0 {
      ShedIff(chunks[1..], k - 1, budget);
      assert chunks[1..][k - 1..] == chunks[k..];
    } else if k == 0 {
      assert chunks[k..] == chunks;
    }
  }

  /** What the pre-roll keeps is what the budget does not shed. */
  lemma LatestSheds(chunks: seq<seq<nat>>, kept: seq<seq<nat>>, budget: nat)
    requires Latest(chunks, kept, budget)
    ensures ShedOf(chunks, budget) == |Flat(chunks)| - |Flat(kept)|
  {
    hide Flat, FirstKept;
    var k := |chunks| - |kept|;
    ShedIff(chunks, k, budget);
    if k > 0 {
      ShedIff(chunks, k - 1, budget);
    }
    assert FirstKept(chunks, budget) == k;
    FlatSplit(chunks, k);
  }

  /** No chunk is empty. */
  ghost predicate Chunked(chunks: seq<seq<nat>>) {
    forall i | 0 <= i < |chunks| :: chunks[i] != []
  }

  /** Once a session streams nothing is dropped between two samples that are accepted. */
  ghost predicate Unbroken(stage: Stage, offered: nat, accepted: seq<nat>, chunks: seq<seq<nat>>, over: bool) {
    && Chunked(chunks)
    && (stage.Connected? ==>
          && Flat(chunks) <= accepted && IsBlock(accepted[|Flat(chunks)|..])
          && (over || |accepted| == |Flat(chunks)| || accepted[|accepted| - 1] == offered - 1))
  }

  lemma UnbrokenOver(stage: Stage, offered: nat, accepted: seq<nat>, chunks: seq<seq<nat>>, over: bool, more: nat)
    requires Unbroken(stage, offered, accepted, chunks, over)
    ensures Unbroken(stage, offered + more, accepted, chunks, true)
  {
  }

  /** Before streaming only the chunks matter. */
  lemma UnbrokenWaiting(stage: Stage, next: Stage, offered: nat, accepted: seq<nat>, chunks: seq<seq<nat>>, over: bool,
                        still: bool)
    requires Unbroken(stage, offered, accepted, chunks, over)
    requires next.Connected? ==> accepted == Flat(chunks)
    ensures Unbroken(next, offered, accepted, chunks, still)
  {
    hide Chunked, Flat;
  }

  lemma UnbrokenWait(stage: Stage, offered: nat, accepted: seq<nat>, samples: seq<nat>, chunks: seq<seq<nat>>,
                     over: bool)
    requires Unbroken(stage, offered, accepted, chunks, over) && !stage.Connected?
    requires samples == Numbers(offered, offered + |samples|) && samples != []
    ensures Unbroken(stage, offered + |samples|, accepted + samples, chunks + [samples], over)
  {
  }

  lemma UnbrokenGive(stage: Stage, offered: nat, accepted: seq<nat>, samples: seq<nat>, chunks: seq<seq<nat>>)
    requires Unbroken(stage, offered, accepted, chunks, false) && stage.Connected?
    requires samples == Numbers(offered, offered + |samples|) && samples != []
    ensures Unbroken(stage, offered + |samples|, accepted + samples, chunks, false)
  {
    NumbersBlock(offered, offered + |samples|);
    hide Flat, Chunked, Numbers, IsBlock;
    StreamGrows(Flat(chunks), accepted, samples, offered);
  }

  lemma StreamGrows(waited: seq<nat>, accepted: seq<nat>, samples: seq<nat>, offered: nat)
    requires waited <= accepted && IsBlock(accepted[|waited|..])
    requires |accepted| == |waited| || accepted[|accepted| - 1] == offered - 1
    requires samples != [] && IsBlock(samples) && samples[0] == offered
    ensures waited <= accepted + samples && IsBlock((accepted + samples)[|waited|..])
    ensures (accepted + samples)[|accepted + samples| - 1] == offered + |samples| - 1
  {
    var streamed := accepted[|waited|..];
    assert samples[|samples| - 1] == samples[0] + (|samples| - 1);
    hide IsBlock;
    BlockGrows(streamed, samples);
    assert (accepted + samples)[|waited|..] == streamed + samples;
  }

  lemma NumbersBlock(from: nat, to: nat)
    ensures IsBlock(Numbers(from, to)) && (from < to ==> Numbers(from, to)[0] == from)
  {
  }

  lemma BlockGrows(a: seq<nat>, b: seq<nat>)
    requires IsBlock(a) && IsBlock(b) && (a != [] && b != [] ==> b[0] == a[|a| - 1] + 1)
    ensures IsBlock(a + b)
  {
    assert a != [] ==> a[|a| - 1] == a[0] + (|a| - 1);
  }

  /** One more chunk before streaming */
  lemma OneMoreChunk(chunks: seq<seq<nat>>, kept: seq<seq<nat>>, c: seq<nat>, budget: nat)
    requires Latest(chunks, kept, budget)
    ensures Run(chunks + [c], kept + [c], budget) && |Flat(kept + [c])| == |Flat(kept)| + |c|
  {
    FlatOne(kept, c);
    if |kept| < |chunks| {
      var wider := chunks[|chunks| - |kept| - 1..];
      FlatOne(wider, c);
      assert (chunks + [c])[|chunks| - |kept| - 1..] == wider + [c];
    }
  }

  lemma FlatNone(chunks: seq<seq<nat>>)
    requires chunks == []
    ensures Flat(chunks) == []
  {
  }

  lemma FlatFirst(chunks: seq<seq<nat>>)
    requires chunks != []
    ensures Flat(chunks) == chunks[0] + Flat(chunks[1..])
  {
    FlatSplit(chunks, 1);
    assert chunks[..1] == [] + [chunks[0]];
    FlatOne([], chunks[0]);
  }

  lemma RunShorter(chunks: seq<seq<nat>>, kept: seq<seq<nat>>, budget: nat)
    requires Run(chunks, kept, budget) && |Flat(kept)| > budget && kept != []
    ensures Run(chunks, kept[1..], budget) && |Flat(kept[1..])| == |Flat(kept)| - |kept[0]|
  {
    FlatFirst(kept);
  }

  lemma LatestWithin(chunks: seq<seq<nat>>, kept: seq<seq<nat>>, budget: nat)
    requires Latest(chunks, kept, budget)
    ensures |Flat(kept)| <= |Flat(chunks)| && Flat(kept) == Flat(chunks)[|Flat(chunks)| - |Flat(kept)|..]
  {
    FlatSplit(chunks, |chunks| - |kept|);
  }

  lemma CountedMore(offered: nat, accepted: seq<nat>, samples: seq<nat>, dropped: set<nat>, reopened: bool, over: bool)
    requires Counted(offered, accepted, dropped, reopened, over) && !over
    requires samples == Numbers(offered, offered + |samples|)
    ensures Counted(offered + |samples|, accepted + samples, dropped, reopened, over)
  {
    var all := accepted + samples;
    forall n | 0 <= n < offered + |samples| ensures n in all || n in dropped {
      if n >= offered {
        assert samples[n - offered] == n;
      }
    }
    if !reopened {
      GaplessAll(offered, accepted);
    }
  }

  lemma GaplessAll(offered: nat, accepted: seq<nat>)
    requires Gapless(accepted) && forall n | 0 <= n < offered :: n in accepted
    requires forall i | 0 <= i < |accepted| :: accepted[i] < offered
    ensures |accepted| == offered
  {
    assert |accepted| !in accepted;
    if accepted != [] {
      assert accepted[|accepted| - 1] < offered;
    }
  }

  lemma CountedOver(offered: nat, accepted: seq<nat>, samples: seq<nat>, dropped: set<nat>, reopened: bool, over: bool)
    requires Counted(offered, accepted, dropped, reopened, over) && samples == Numbers(offered, offered + |samples|)
    ensures Counted(offered + |samples|, accepted, dropped + Those(samples), reopened, true)
  {
    forall n | 0 <= n < offered + |samples| ensures n in accepted || n in dropped + Those(samples) {
      if n >= offered {
        assert samples[n - offered] == n;
      }
    }
  }

  lemma FedWaiting(stage: Stage, next: Stage, accepted: seq<nat>, chunks: seq<seq<nat>>, preRoll: seq<seq<nat>>,
                   given: seq<nat>, shed: nat, budget: nat)
    requires Fed(stage, accepted, chunks, preRoll, given, shed, budget) && !stage.Connected? && !stage.Failed?
    ensures !next.Connected? ==> Fed(next, accepted, chunks, preRoll, given, shed, budget)
  {
    hide Flat, Latest;
  }

  /** The first `k` chunks of the pre-roll went to the framer. */
  lemma FedFlushed(stage: Stage, accepted: seq<nat>, chunks: seq<seq<nat>>, preRoll: seq<seq<nat>>, given: seq<nat>,
                   shed: nat, budget: nat, k: nat)
    requires Fed(stage, accepted, chunks, preRoll, given, shed, budget) && !stage.Connected? && !stage.Failed?
    requires k <= |preRoll|
    ensures accepted == Flat(chunks)
    ensures given == [] && Fed(Failed, accepted, chunks, [], Flat(preRoll[..k]), shed, budget)
    ensures k == |preRoll| ==> Fed(Connected, accepted, chunks, [], Flat(preRoll[..k]), shed, budget)
  {
    LatestWithin(chunks, preRoll, budget);
    LatestSheds(chunks, preRoll, budget);
    FlatSplit(preRoll, k);
    assert preRoll[..|preRoll|] == preRoll;
    var all, some := Flat(preRoll), Flat(preRoll[..k]);
    hide Flat, Latest, ShedOf;
    assert all == accepted[shed..];
    assert some == all[..|some|];
  }

  lemma CountedReopened(offered: nat, accepted: seq<nat>, dropped: set<nat>, reopened: bool, over: bool, closed: bool,
                        still: bool)
    requires Counted(offered, accepted, dropped, reopened, over) && (over ==> closed || still)
    ensures Counted(offered, accepted, dropped, reopened || closed, still)
    ensures Counted(offered, accepted, dropped, reopened || closed, true)
  {
  }

  lemma FedMore(stage: Stage, accepted: seq<nat>, samples: seq<nat>, chunks: seq<seq<nat>>, preRoll: seq<seq<nat>>,
                given: seq<nat>, shed: nat, budget: nat)
    requires Fed(stage, accepted, chunks, preRoll, given, shed, budget) && !stage.Failed?
    ensures stage.Connected? ==> Fed(stage, accepted + samples, chunks, preRoll, given + samples, shed, budget)
    ensures !stage.Connected? ==> accepted == Flat(chunks) && Latest(chunks, preRoll, budget) && given == []
    ensures !stage.Connected? ==> forall chunks', preRoll' |
              Latest(chunks', preRoll', budget) && Flat(chunks') == accepted + samples
                && |Flat(preRoll')| <= |Flat(chunks')| ::
              Fed(stage, accepted + samples, chunks', preRoll', given, |Flat(chunks')| - |Flat(preRoll')|, budget)
  {
    hide Flat, Latest;
  }

  /** What is published when a session ends early: what waited for `open`, and an error after it */
  function Released(deferred: Option<seq<AsrEvent>>, error: bool): seq<AsrEvent> {
    var waiting := if deferred.None? then [] else deferred.value;
    if error then waiting + [Error] else waiting
  }

  lemma ReleasedReads(waiting: seq<AsrEvent>)
    ensures Released(Some(waiting), true) == waiting + [Error] && Released(Some(waiting), false) == waiting
    ensures Released(None, true) == [Error] && Released(None, false) == []
  {
  }

  lemma ShapeMore(pushed: seq<AsrEvent>, more: seq<AsrEvent>)
    requires Shape(pushed, false) && forall e | e in more :: e.Inner()
    ensures Shape(pushed + more, false)
  {
    var all := pushed + more;
    assert forall i | |pushed| <= i < |all| :: all[i] in more;
  }

  lemma ShapeOpens(pushed: seq<AsrEvent>, deferred: Option<seq<AsrEvent>>)
    requires pushed == [] && deferred.Some? && AllInner(deferred)
    ensures Shape(pushed + [Open] + deferred.value, false)
    ensures pushed + [Open] + deferred.value == [Open] + deferred.value
  {
    ShapeMore([Open], deferred.value);
    assert pushed + [Open] == [Open];
  }

  lemma ShapeEnds(pushed: seq<AsrEvent>)
    requires Shape(pushed, false)
    ensures Shape(pushed + [Ended], true)
  {
  }

  // ---------------------------------------------------------------- the session

  class AsrSession {
    const wire: Wire
    const budget: nat
    const graceMs: int
    const idleMs: int
    const queue: EventQueue

    var phase: SessionPhase
    var stage: Stage
    /** The message `connect()` waits for: still, arrived, or given up */
    var reply: Reply
    var preRoll: seq<seq<nat>>
    var preRollSamples: int
    var deferred: Option<seq<AsrEvent>>
    var closedEmitted: bool
    var audioAfterEndReported: bool
    var serverFinished: bool
    var finishRequested: bool
    var expired: bool
    var failure: Option<Failure>
    var finalText: Option<string>
    /** What `finish()` returns, every time */
    var finishPromise: Finish
    var finishTimer: bool
    var graceArmed: bool
    var idleArmed: bool
    var pumping: bool

    ghost var offered: nat
    ghost var accepted: seq<nat>
    ghost var chunks: seq<seq<nat>>
    ghost var given: seq<nat>
    ghost var shed: nat
    ghost var dropped: set<nat>
    /** A step of `connect()` left the phase `closed`. */
    ghost var reopened: bool

    /** Nothing more is accepted. */
    ghost predicate Over()
      reads this
    {
      serverFinished || phase.Finishing? || phase.Closed?
    }

    ghost predicate Valid()
      reads this, queue
    {
      && Events()
      && Awaited(phase, serverFinished, finalText, graceArmed, finishPromise)
      && Audio(Over())
      && (phase.Closed? ==> !idleArmed)
    }

    ghost predicate Events()
      reads this`phase, this`stage, this`deferred, this`closedEmitted, queue
    {
      && queue.Valid()
      && Shape(queue.pushed, queue.done)
      && Held(phase, stage, deferred, closedEmitted, queue.pushed, queue.done)
    }

    /** The events that were published or wait for `open` */
    ghost function Emitted(): seq<AsrEvent>
      reads this`deferred, queue
    {
      if deferred.Some? then queue.pushed + deferred.value else queue.pushed
    }

    ghost predicate Audio(over: bool)
      reads this`offered, this`accepted, this`dropped, this`reopened, this`stage, this`chunks, this`preRoll
      reads this`preRollSamples, this`given, this`shed
    {
      && Counted(offered, accepted, dropped, reopened, over)
      && Fed(stage, accepted, chunks, preRoll, given, shed, budget)
      && Unbroken(stage, offered, accepted, chunks, over)
      && preRollSamples == |Flat(preRoll)|
    }

    /** What became of the pushes */
    ghost function Heard(): AudioHeard
      reads this`accepted, this`dropped, this`chunks
    {
      AudioHeard(accepted, dropped, chunks)
    }

    lemma AudioOver(over: bool)
      requires Audio(over)
      ensures Audio(true)
    {
    }

    /** What no step takes back */
    twostate predicate Onward()
      reads this, queue
    {
      && old(queue.pushed) <= queue.pushed
      && (old(queue.done) ==> queue.done && queue.pushed == old(queue.pushed))
      && old(given) <= given
      && (old(finishPromise).Settled? || old(finishPromise).Rejected? ==> finishPromise == old(finishPromise))
    }

    constructor (wire: Wire, budget: nat, graceMs: int, idleMs: int)
      ensures Valid() && fresh(queue)
      ensures given == [] && offered == 0 && Heard() == NOTHING && !reopened
      ensures queue.pushed == [] && !queue.done && deferred == Some([])
      ensures phase.Idle? && stage.NotCalled? && reply.Refused? && finishPromise.NotAsked? && finalText.None?
      ensures !audioAfterEndReported && !serverFinished && !finishRequested && !expired && failure.None?
      ensures !graceArmed && !idleArmed && !finishTimer && !pumping
      ensures this.graceMs == graceMs && this.idleMs == idleMs && this.wire == wire && this.budget == budget
    {
      this.wire, this.budget, this.graceMs, this.idleMs := wire, budget, graceMs, idleMs;
      queue := new EventQueue();
      phase, stage, reply := Idle, NotCalled, Refused;
      preRoll, preRollSamples, deferred := [], 0, Some([]);
      closedEmitted, audioAfterEndReported, serverFinished, finishRequested := false, false, false, false;
      expired, failure, finalText, finishPromise := false, None, None, NotAsked;
      graceArmed, idleArmed, pumping, finishTimer := false, false, false, false;
      offered, accepted, chunks, given, shed, dropped, reopened := 0, [], [], [], 0, {}, false;
    }

    // ---------------------------------------------------------------- events

    method Enqueue(event: AsrEvent)
      requires Events() && event.Inner()
      modifies this`deferred, queue
      ensures Events()
      ensures old(queue.pushed) <= queue.pushed && queue.done == old(queue.done)
      ensures queue.done ==> queue.pushed == old(queue.pushed)
      ensures !queue.done ==> Emitted() == old(Emitted()) + [event]
      ensures deferred == if old(deferred).Some? then Some(old(deferred).value + [event]) else None
      ensures queue.pushed ==
              if old(deferred).Some? || queue.done then old(queue.pushed) else old(queue.pushed) + [event]
    {
      if deferred.None? {
        if !queue.done {
          ShapeMore(queue.pushed, [event]);
        }
        queue.Push(event);
      } else {
        deferred := Some(deferred.value + [event]);
      }
    }

    method PushAll(events: seq<AsrEvent>)
      requires queue.Valid()
      modifies queue
      ensures queue.Valid() && queue.done == old(queue.done)
      ensures queue.pushed == if queue.done then old(queue.pushed) else old(queue.pushed) + events
    {
      hide EventQueue.Valid;
      ghost var before := queue.pushed;
      assert before + events[..0] == before;
      for i := 0 to |events|
        invariant queue.Valid() && queue.done == old(queue.done)
        invariant queue.pushed == if queue.done then before else before + events[..i]
      {
        assert before + events[..i + 1] == before + events[..i] + [events[i]];
        queue.Push(events[i]);
      }
      assert events[..|events|] == events;
    }

    /** Publish `closed` and end the queue, once. */
    method EmitClosed()
      requires queue.Valid() && Shape(queue.pushed, queue.done) && closedEmitted == queue.done
      modifies this`closedEmitted, queue
      ensures queue.Valid() && Shape(queue.pushed, queue.done) && closedEmitted && queue.done
      ensures queue.pushed == if old(queue.done) then old(queue.pushed) else old(queue.pushed) + [Ended]
    {
      if !closedEmitted {
        closedEmitted := true;
        ShapeEnds(queue.pushed);
        queue.Push(Ended);
        queue.End();
      }
    }

    // ---------------------------------------------------------------- finish

    function Result(timedOut: bool): Outcome
      reads this
    {
      Outcome(finalText, timedOut, expired, failure)
    }

    method Settle(outcome: Outcome)
      modifies this`finishPromise
      ensures finishPromise == if old(finishPromise).Pending? then Settled(outcome) else old(finishPromise)
    {
      if finishPromise.Pending? {
        finishPromise := Settled(outcome);
      }
    }

    method SettleTerminal()
      modifies this`finishPromise, this`graceArmed
      ensures finishPromise == if old(finishPromise).Pending? then Settled(Result(false)) else old(finishPromise)
      ensures !graceArmed
    {
      graceArmed := false;
      Settle(Result(false));
    }

    method ArmTerminalGrace()
      modifies this`finishPromise, this`graceArmed
      ensures if graceMs <= 0 then
                finishPromise == (if old(finishPromise).Pending? then Settled(Result(false)) else old(finishPromise))
              else
                finishPromise == old(finishPromise)
      ensures graceArmed == (graceMs > 0)
    {
      if graceMs <= 0 {
        SettleTerminal();
      } else {
        graceArmed := true;
      }
    }

    /** `close()` */
    method Close()
      requires Valid()
      modifies this`phase, this`idleArmed, this`graceArmed, this`reply, this`finishPromise, this`closedEmitted, queue
      ensures Valid() && Onward() && phase.Closed? && queue.done && !finishPromise.Pending?
      ensures queue.pushed == if old(queue.done) then old(queue.pushed) else old(queue.pushed) + [Ended]
      ensures !idleArmed && graceArmed == (old(graceArmed) && old(phase).Closed?)
      ensures finishPromise == if old(finishPromise).Pending? then Settled(old(Result(false))) else old(finishPromise)
      ensures reply == if old(reply).Waits? && !old(phase).Closed? then Refused else old(reply)
    {
      if !phase.Closed? {
        Finale();
      }
    }

    /** The session ends: timers, the waiter and the finish first, then `closed`. */
    method Finale()
      requires queue.Valid() && Shape(queue.pushed, queue.done) && closedEmitted == queue.done && AllInner(deferred)
      requires Audio(Over())
      modifies this`phase, this`idleArmed, this`graceArmed, this`reply, this`finishPromise, this`closedEmitted, queue
      ensures Valid() && phase.Closed? && queue.done
      ensures queue.pushed == if old(queue.done) then old(queue.pushed) else old(queue.pushed) + [Ended]
      ensures !idleArmed && !graceArmed
      ensures finishPromise == if old(finishPromise).Pending? then Settled(old(Result(false))) else old(finishPromise)
      ensures reply == if old(reply).Waits? then Refused else old(reply)
    {
      hide AsrSession.Audio, Shape, AllInner, EventQueue.Valid;
      AudioOver(Over());
      LetGo();
      EmitClosed();
      phase := Closed;
    }

    method LetGo()
      modifies this`idleArmed, this`graceArmed, this`reply, this`finishPromise
      ensures finishPromise == if old(finishPromise).Pending? then Settled(Result(false)) else old(finishPromise)
      ensures reply == (if old(reply).Waits? then Refused else old(reply)) && !idleArmed && !graceArmed
    {
      idleArmed, graceArmed := false, false;
      RejectWaiter();
      Settle(Result(false));
    }

    method RejectWaiter()
      modifies this`reply
      ensures reply == if old(reply).Waits? then Refused else old(reply)
    {
      if reply.Waits? {
        reply := Refused;
      }
    }

    // ---------------------------------------------------------------- audio

    /** `push()`: dropped, kept for later, or given to the framer. */
    method Push(samples: seq<nat>)
      requires Valid() && samples == Numbers(offered, offered + |samples|)
      modifies this`dropped, this`offered, this`accepted, this`given, this`preRoll, this`preRollSamples, this`chunks
      modifies this`shed, this`audioAfterEndReported, this`deferred, queue
      ensures Valid() && Onward() && offered == old(offered) + |samples|
      ensures accepted == if old(Over()) then old(accepted) else old(accepted) + samples
      ensures given == if old(Over()) || !phase.Streaming? then old(given) else old(given) + samples
      ensures dropped == if old(Over()) then old(dropped) + Those(samples) else old(dropped)
      ensures chunks ==
              if old(Over()) || phase.Streaming? || samples == [] then old(chunks) else old(chunks) + [samples]
      // The first push after the end is reported.
      ensures audioAfterEndReported == old(audioAfterEndReported || Over())
      ensures queue.done == old(queue.done) && (deferred.None? <==> old(deferred).None?)
      ensures !queue.done ==>
                if old(Over() && !audioAfterEndReported) then Emitted() == old(Emitted()) + [Error]
                else Emitted() == old(Emitted())
    {
      hide AsrSession.Audio, AsrSession.Events, Numbers, Awaited, Those;
      if serverFinished || phase.Closed? || phase.Finishing? {
        DropLate(samples);
      } else if |samples| > 0 {
        Accept(samples);
      }
    }

    method DropLate(samples: seq<nat>)
      requires Valid() && Over() && samples == Numbers(offered, offered + |samples|)
      modifies this`offered, this`dropped, this`audioAfterEndReported, this`deferred, queue
      ensures Valid() && Onward() && offered == old(offered) + |samples| && dropped == old(dropped) + Those(samples)
      ensures audioAfterEndReported && queue.done == old(queue.done) && (deferred.None? <==> old(deferred).None?)
      ensures !queue.done ==>
                if old(!audioAfterEndReported) then Emitted() == old(Emitted()) + [Error]
                else Emitted() == old(Emitted())
    {
      hide Fed, Flat, Counted, Unbroken, AsrSession.Events, AsrSession.Emitted, Numbers, Those;
      UnbrokenOver(stage, offered, accepted, chunks, true, |samples|);
      CountedOver(offered, accepted, samples, dropped, reopened, true);
      offered, dropped := offered + |samples|, dropped + Those(samples);
      assert Audio(true);
      hide AsrSession.Audio;
      if !audioAfterEndReported {
        audioAfterEndReported := true;
        Enqueue(Error);
      }
    }

    method Accept(samples: seq<nat>)
      requires Valid() && !Over() && samples == Numbers(offered, offered + |samples|) && samples != []
      modifies this`offered, this`accepted, this`given, this`preRoll, this`preRollSamples, this`chunks, this`shed
      ensures Valid() && Onward()
      ensures offered == old(offered) + |samples| && accepted == old(accepted) + samples
      ensures given == if phase.Streaming? then old(given) + samples else old(given)
      ensures chunks == if phase.Streaming? then old(chunks) else old(chunks) + [samples]
    {
      hide AsrSession.Events, AsrSession.Audio, Numbers, Awaited;
      StageNow();
      if phase.Streaming? {
        Give(samples);
      } else {
        Wait(samples);
      }
    }

    lemma StageNow()
      requires Events() && !phase.Closed? && !phase.Finishing?
      ensures if phase.Streaming? then stage.Connected? else !stage.Connected? && !stage.Failed?
    {
      hide Shape, EventQueue.Valid, AllInner;
    }

    method Give(samples: seq<nat>)
      requires Audio(false) && samples == Numbers(offered, offered + |samples|) && samples != [] && stage.Connected?
      modifies this`offered, this`accepted, this`given
      ensures Audio(false) && offered == old(offered) + |samples| && accepted == old(accepted) + samples
      ensures given == old(given) + samples
    {
      hide Counted, Flat, Latest, Numbers, Fed, Unbroken;
      CountedMore(offered, accepted, samples, dropped, reopened, false);
      FedMore(stage, accepted, samples, chunks, preRoll, given, shed, budget);
      UnbrokenGive(stage, offered, accepted, samples, chunks);
      offered, accepted := offered + |samples|, accepted + samples;
      given := given + samples;
    }

    method Wait(samples: seq<nat>)
      requires Audio(false) && samples == Numbers(offered, offered + |samples|) && samples != []
      requires !stage.Connected? && !stage.Failed?
      modifies this`offered, this`accepted, this`preRoll, this`preRollSamples, this`chunks, this`shed
      ensures Audio(false) && offered == old(offered) + |samples| && accepted == old(accepted) + samples
      ensures chunks == old(chunks) + [samples]
    {
      hide Counted, Flat, Latest, Numbers, Fed, Unbroken;
      CountedMore(offered, accepted, samples, dropped, reopened, false);
      UnbrokenWait(stage, offered, accepted, samples, chunks, false);
      FedMore(stage, accepted, samples, chunks, preRoll, given, shed, budget);
      offered, accepted := offered + |samples|, accepted + samples;
      Keep(samples);
    }

    /** A chunk is kept until streaming starts, as far as the budget goes. */
    method Keep(samples: seq<nat>)
      requires preRollSamples == |Flat(preRoll)| && Latest(chunks, preRoll, budget)
      modifies this`preRoll, this`preRollSamples, this`chunks, this`shed
      ensures preRollSamples == |Flat(preRoll)| && Latest(chunks, preRoll, budget)
      ensures Flat(chunks) == old(Flat(chunks)) + samples && chunks == old(chunks) + [samples]
      ensures |Flat(preRoll)| <= |Flat(chunks)| && shed == |Flat(chunks)| - |Flat(preRoll)|
    {
      hide Flat, Run;
      OneMoreChunk(chunks, preRoll, samples, budget);
      FlatOne(chunks, samples);
      chunks := chunks + [samples];
      preRoll := preRoll + [samples];
      preRollSamples := preRollSamples + |samples|;
      DropOldest();
      LatestWithin(chunks, preRoll, budget);
      shed := |Flat(chunks)| - |Flat(preRoll)|;
    }

    /** The pre-roll drops its oldest chunks until it is within its budget. */
    method DropOldest()
      requires preRollSamples == |Flat(preRoll)| && Run(chunks, preRoll, budget)
      modifies this`preRoll, this`preRollSamples
      ensures preRollSamples == |Flat(preRoll)| && Latest(chunks, preRoll, budget)
    {
      hide Flat, Run;
      while preRollSamples > budget && |preRoll| > 0
        invariant preRollSamples == |Flat(preRoll)| && Run(chunks, preRoll, budget)
        decreases |preRoll|
      {
        RunShorter(chunks, preRoll, budget);
        preRollSamples := preRollSamples - |preRoll[0]|;
        preRoll := preRoll[1..];
      }
      if preRoll == [] {
        FlatNone(preRoll);
      }
    }

    // ---------------------------------------------------------------- connect

    /** `failStart`: what was deferred is published, then the error unless it already was, then `closed`. */
    method FailStart(reported: bool)
      requires Valid() && !stage.Connected?
      modifies this`phase, this`stage, this`deferred, this`closedEmitted, this`idleArmed, this`graceArmed, queue
      ensures Valid() && Onward() && StartFails(reported)
      ensures phase.Closed? && stage.Failed? && !idleArmed && !graceArmed
    {
      AudioFails(Over());
      FailEvents(reported);
    }

    /** The events of a failed start: what was deferred, an error unless it was reported, and the end */
    twostate predicate StartFails(reported: bool)
      reads this, queue
    {
      && queue.done && deferred.None?
      && queue.pushed == if old(queue.done) then old(queue.pushed)
                         else old(queue.pushed) + Released(old(deferred), !reported) + [Ended]
    }

    /** No event is published, nor kept for later. */
    twostate predicate Silent()
      reads this, queue
    {
      queue.done == old(queue.done) && queue.pushed == old(queue.pushed) && deferred == old(deferred)
    }

    method FailEvents(reported: bool)
      requires Events() && !stage.Connected?
      modifies this`phase, this`stage, this`deferred, this`closedEmitted, this`idleArmed, this`graceArmed, queue
      ensures Events() && StartFails(reported) && old(queue.pushed) <= queue.pushed
      ensures phase.Closed? && stage.Failed? && !idleArmed && !graceArmed
    {
      hide Shape, EventQueue.Valid;
      idleArmed, graceArmed := false, false;
      phase := Closed;
      var pending := if deferred.None? then [] else deferred.value;
      deferred := None;
      if !reported {
        pending := pending + [Error];
      }
      if !queue.done {
        ShapeMore(queue.pushed, pending);
      }
      PushAll(pending);
      EmitClosed();
      stage := Failed;
    }

    lemma AudioFails(over: bool)
      requires Audio(over)
      ensures Audio(true) && Fed(Failed, accepted, chunks, preRoll, given, shed, budget)
      ensures Unbroken(Failed, offered, accepted, chunks, true)
    {
    }

    /** The first step of `connect()`; false when it throws for being called twice. */
    method Connect(supported: bool) returns (called: bool)
      requires Valid()
      modifies this`phase, this`stage, this`deferred, this`closedEmitted, this`idleArmed, this`graceArmed, queue
      ensures Valid() && Onward() && called == old(phase).Idle?
      ensures if called && !supported then StartFails(false) else Silent()
      ensures phase == if !called then old(phase) else if supported then Connecting else Closed
      ensures stage == if !called then old(stage) else if supported then Credentials else Failed
      ensures idleArmed == (old(idleArmed) && !(called && !supported))
      ensures graceArmed == (old(graceArmed) && !(called && !supported))
    {
      hide AsrSession.Audio;
      if !phase.Idle? {
        return false;
      }
      ConnectBegins();
      if !supported {
        FailStart(false);
      }
      return true;
    }

    method ConnectBegins()
      requires Valid() && phase.Idle?
      modifies this`phase, this`stage
      ensures Valid() && phase.Connecting? && stage.Credentials?
    {
      hide Counted, Flat, Latest, Chunked, EventQueue.Valid, Shape, AllInner;
      phase, stage := Connecting, Credentials;
    }

    /** The credentials are there, or not. */
    method CredentialsArrive(ok: bool)
      requires Valid() && stage.Credentials?
      modifies this`phase, this`stage, this`deferred, this`closedEmitted, this`idleArmed, this`graceArmed, queue
      ensures Valid() && Onward()
      ensures if ok then Silent() else StartFails(false)
      ensures phase == (if ok then old(phase) else Closed) && stage == (if ok then Transport else Failed)
      ensures idleArmed == (ok && old(idleArmed)) && graceArmed == (ok && old(graceArmed))
    {
      hide AsrSession.Valid;
      if ok {
        AwaitTransport();
      } else {
        FailStart(false);
      }
    }

    method AwaitTransport()
      requires Valid() && stage.Credentials?
      modifies this`stage
      ensures Valid() && stage.Transport?
    {
      hide Counted, Flat, Latest, Chunked, EventQueue.Valid, Shape, AllInner;
      stage := Transport;
    }

    /** The transport is connected, or not; `sent`: the first message went out. */
    method TransportConnects(ok: bool, sent: bool)
      requires Valid() && stage.Transport?
      modifies this`phase, this`stage, this`deferred, this`closedEmitted, this`idleArmed, this`graceArmed, this`reply
      modifies this`pumping, this`reopened, queue
      ensures Valid() && Onward()
      ensures if ok && sent then Silent() else StartFails(false)
      ensures phase == if ok && sent then Handshaking else Closed
      ensures stage == if ok && sent then Reply(if wire.ProtobufWire? then 2 else 1) else Failed
      ensures reply == (if ok && sent then Waits else old(reply)) && pumping == (ok || old(pumping))
      ensures idleArmed == (ok && sent && old(idleArmed)) && graceArmed == (ok && sent && old(graceArmed))
      ensures reopened == (old(reopened) || (ok && old(phase).Closed?))
    {
      hide AsrSession.Valid;
      if ok {
        Handshake(sent);
      }
      if !ok || !sent {
        FailStart(false);
      }
    }

    lemma HandshakeAudio(rounds: nat)
      requires Audio(Over()) && stage.Transport? && !phase.Finishing?
      ensures Counted(offered, accepted, dropped, reopened || phase.Closed?, serverFinished)
      ensures Fed(Reply(rounds), accepted, chunks, preRoll, given, shed, budget)
      ensures Unbroken(Reply(rounds), offered, accepted, chunks, serverFinished)
    {
      hide Flat, Latest, Counted, Fed, Unbroken;
      FedWaiting(stage, Reply(rounds), accepted, chunks, preRoll, given, shed, budget);
      UnbrokenWaiting(stage, Reply(rounds), offered, accepted, chunks, Over(), serverFinished);
      CountedReopened(offered, accepted, dropped, reopened, Over(), phase.Closed?, serverFinished);
    }

    method Handshake(sent: bool)
      requires Valid() && stage.Transport?
      modifies this`phase, this`stage, this`reply, this`reopened, this`pumping
      ensures Valid() && phase.Handshaking? && stage == Reply(if wire.ProtobufWire? then 2 else 1) && pumping
      ensures reply == if sent then Waits else old(reply)
      ensures reopened == (old(reopened) || old(phase).Closed?)
    {
      hide Flat, EventQueue.Valid, Shape, AllInner, Counted, Fed, Unbroken;
      var rounds := if wire.ProtobufWire? then 2 else 1;
      HandshakeAudio(rounds);
      pumping := true;
      reopened := reopened || phase.Closed?;
      phase := Handshaking;
      stage := Reply(rounds);
      if sent {
        reply := Waits;
      }
    }

    /** The message waited for does not come in time. */
    method HandshakeTimesOut()
      requires Valid() && stage.Reply?
      modifies this`reply
      ensures Valid() && reply == (if old(reply).Waits? then Refused else old(reply))
    {
      hide AsrSession.Audio, AsrSession.Events, Awaited;
      RejectWaiter();
    }

    /**
     * `connect()` goes on with the answer it waited for: the next round, or streaming. `thrown`: how many chunks of
     * the pre-roll went to the framer when it threw.
     */
    method ConnectResumes(sent: bool, thrown: Option<nat>)
      requires Valid() && stage.Reply? && !reply.Waits?
      requires thrown.Some? ==> thrown.value <= |preRoll|
      modifies this`phase, this`stage, this`deferred, this`closedEmitted, this`idleArmed, this`graceArmed, this`reply
      modifies this`reopened, this`preRoll, this`preRollSamples, this`given, queue
      ensures Valid() && Onward()
      ensures stage.Connected? <==> old(stage).rounds <= 1 && old(reply) == Arrived(true) && thrown.None?
      ensures stage.Connected? ==>
              phase.Streaming? && given == old(Flat(preRoll)) && reopened == (old(reopened) || old(phase).Closed?)
      ensures stage.Connected? && !old(queue.done) ==> queue.pushed == [Open] + old(deferred).value
      ensures var good := old(reply) == Arrived(true) && if old(stage).rounds > 1 then sent else thrown.None?;
              if !good then
                // Only a message that said so reports the failure it stands for.
                && StartFails(old(reply) == Arrived(false)) && phase.Closed? && stage.Failed? && !idleArmed
                && !graceArmed && reply == old(reply)
              else if old(stage).rounds > 1 then
                && phase == old(phase) && stage == Reply(old(stage).rounds - 1) && Silent()
                && reply == (if phase.Closed? then Refused else Waits)
                && unchanged(this`preRoll, this`given, this`reopened, this`idleArmed, this`graceArmed)
              else
                && phase.Streaming? && stage.Connected? && idleArmed == (idleMs > 0) && graceArmed == old(graceArmed)
                && reply == old(reply) && queue.done == old(queue.done) && deferred.None? && preRoll == []
    {
      hide AsrSession.Valid, AsrSession.Onward, AsrSession.Silent, AsrSession.StartFails, Flat;
      if reply.Refused? {
        FailStart(false);
      } else if !reply.ok {
        FailStart(true);
      } else if stage.rounds > 1 {
        if sent {
          NextRound();
        } else {
          FailStart(false);
        }
      } else {
        Stream(thrown);
      }
    }

    /** The pre-roll goes to the framer, up to where the framer throws. */
    method FlushPreRoll(thrown: Option<nat>)
      requires given == [] && (thrown.Some? ==> thrown.value <= |preRoll|)
      modifies this`preRoll, this`preRollSamples, this`given
      ensures preRoll == [] && preRollSamples == |Flat(preRoll)|
      ensures given == Flat(old(preRoll)[..if thrown.Some? then thrown.value else |old(preRoll)|])
    {
      var pending := preRoll;
      preRoll, preRollSamples := [], 0;
      var last := if thrown.Some? then thrown.value else |pending|;
      for i := 0 to last
        invariant given == Flat(pending[..i])
      {
        FlatOne(pending[..i], pending[i]);
        assert pending[..i + 1] == pending[..i] + [pending[i]];
        given := given + pending[i];
      }
    }

    method Stream(thrown: Option<nat>)
      requires Valid() && stage.Reply? && (thrown.Some? ==> thrown.value <= |preRoll|)
      modifies this`phase, this`stage, this`deferred, this`closedEmitted, this`idleArmed, this`graceArmed
      modifies this`reopened, this`preRoll, this`preRollSamples, this`given, queue
      ensures Valid() && Onward()
      ensures if thrown.None? then
                && phase.Streaming? && stage.Connected? && idleArmed == (idleMs > 0) && graceArmed == old(graceArmed)
                && queue.done == old(queue.done) && deferred.None? && preRoll == []
              else phase.Closed? && stage.Failed? && !idleArmed && !graceArmed && StartFails(false)
      ensures stage.Connected? ==> given == old(Flat(preRoll)) && reopened == (old(reopened) || old(phase).Closed?)
      ensures stage.Connected? && !old(queue.done) ==> queue.pushed == [Open] + old(deferred).value
    {
      hide EventQueue.Valid, Shape, AllInner, Flat, Fed, Counted, Latest, Unbroken;
      StreamAudio(thrown);
      if thrown.Some? {
        FailEvents(false);
      } else {
        StreamEvents();
      }
    }

    /** The audio of a session that starts to stream, or fails to. */
    method StreamAudio(thrown: Option<nat>)
      requires Valid() && stage.Reply? && (thrown.Some? ==> thrown.value <= |preRoll|)
      modifies this`reopened, this`preRoll, this`preRollSamples, this`given
      ensures old(given) == [] && given == old(Flat(preRoll[..if thrown.Some? then thrown.value else |preRoll|]))
      ensures thrown.None? ==> given == old(Flat(preRoll))
      ensures reopened == (old(reopened) || phase.Closed?) && preRoll == []
      ensures Counted(offered, accepted, dropped, reopened, serverFinished)
      ensures Counted(offered, accepted, dropped, reopened, true)
      ensures preRollSamples == |Flat(preRoll)|
      ensures Unbroken(if thrown.Some? then Failed else Connected, offered, accepted, chunks, serverFinished)
      ensures Unbroken(if thrown.Some? then Failed else Connected, offered, accepted, chunks, true)
      ensures Fed(if thrown.Some? then Failed else Connected, accepted, chunks, preRoll, given, shed, budget)
    {
      hide EventQueue.Valid, Shape, AllInner, Flat, Awaited;
      ghost var last := if thrown.Some? then thrown.value else |preRoll|;
      FedFlushed(stage, accepted, chunks, preRoll, given, shed, budget, last);
      ghost var next := if thrown.Some? then Failed else Connected;
      UnbrokenWaiting(stage, next, offered, accepted, chunks, Over(), serverFinished);
      UnbrokenWaiting(stage, next, offered, accepted, chunks, Over(), true);
      hide Fed, Unbroken;
      CountedReopened(offered, accepted, dropped, reopened, Over(), phase.Closed?, serverFinished);
      hide Counted;
      if phase.Closed? {
        reopened := true;
      }
      assert preRoll[..|preRoll|] == preRoll;
      FlushPreRoll(thrown);
    }

    /** `open` is published, and what was deferred after it. */
    method StreamEvents()
      requires Events() && stage.Reply?
      modifies this`phase, this`stage, this`deferred, this`idleArmed, queue
      ensures Events() && queue.done == old(queue.done) && deferred.None?
      ensures phase.Streaming? && stage.Connected? && idleArmed == (idleMs > 0)
      ensures queue.pushed == if queue.done then old(queue.pushed) else [Open] + old(deferred).value
    {
      if !queue.done {
        ShapeOpens(queue.pushed, deferred);
      }
      hide Shape, EventQueue.Valid;
      phase, stage := Streaming, Connected;
      idleArmed := idleMs > 0;
      var pending := if deferred.None? then [] else deferred.value;
      deferred := None;
      queue.Push(Open);
      PushAll(pending);
    }

    method NextRound()
      requires Valid() && stage.Reply? && stage.rounds > 1
      modifies this`stage, this`reply
      ensures Valid() && Onward() && Silent()
      ensures stage == Reply(old(stage.rounds) - 1) && reply == if phase.Closed? then Refused else Waits
    {
      hide Counted, Flat, Latest, Chunked, EventQueue.Valid, Shape, AllInner;
      stage := Reply(stage.rounds - 1);
      reply := if phase.Closed? then Refused else Waits;
    }

    // ---------------------------------------------------------------- finish, timers and messages

    /** `finish()`; `thrown`: the last frames or the finish message could not be sent, the latter after `noted`. */
    method AskFinish(thrown: bool, noted: bool)
      requires Valid()
      modifies this`phase, this`idleArmed, this`graceArmed, this`reply, this`finishPromise, this`closedEmitted
      modifies this`finishRequested, this`finishTimer, queue
      ensures Valid() && Onward() && !finishPromise.NotAsked?
      ensures !old(finishPromise).NotAsked? || !old(phase).Streaming? ==>
                && unchanged(this`phase, this`idleArmed, this`graceArmed, this`reply, this`finishRequested)
                && unchanged(this`finishTimer, queue)
                && finishPromise == if !old(finishPromise).NotAsked? then old(finishPromise)
                                    else if phase.Closed? then Settled(Result(false)) else Rejected
      ensures old(finishPromise).NotAsked? && old(phase).Streaming? ==> FinishBegins(thrown, noted)
    {
      if !finishPromise.NotAsked? {
        return;
      }
      if !phase.Streaming? {
        hide AsrSession.Audio, AsrSession.Events;
        finishPromise := if phase.Closed? then Settled(Result(false)) else Rejected;
        return;
      }
      FinishStreaming(thrown, noted);
    }

    /** `finish()` while streaming: settled after the end, otherwise awaited, or given up with the session. */
    twostate predicate FinishBegins(thrown: bool, noted: bool)
      reads this, queue
    {
      if serverFinished || !thrown then
        && phase.Finishing? && !idleArmed && graceArmed == old(graceArmed) && reply == old(reply)
        && finishPromise == (if serverFinished then Settled(Result(false)) else Pending)
        && finishRequested == (old(finishRequested) || !serverFinished)
        && finishTimer == (old(finishTimer) || !serverFinished)
        && queue.pushed == old(queue.pushed) && queue.done == old(queue.done)
      else
        && phase.Closed? && !idleArmed && !graceArmed && finishPromise.Rejected? && finishTimer == old(finishTimer)
        && reply == (if old(reply).Waits? then Refused else old(reply))
        && finishRequested == (old(finishRequested) || noted) && queue.done
        && queue.pushed == if old(queue.done) then old(queue.pushed) else old(queue.pushed) + [Ended]
    }

    method FinishStreaming(thrown: bool, noted: bool)
      requires Valid() && finishPromise.NotAsked? && phase.Streaming?
      modifies this`phase, this`idleArmed, this`graceArmed, this`reply, this`finishPromise, this`closedEmitted
      modifies this`finishRequested, this`finishTimer, queue
      ensures Valid() && Onward() && FinishBegins(thrown, noted)
    {
      hide AsrSession.Audio, AsrSession.Events;
      LeaveStreaming();
      if serverFinished {
        finishPromise := Settled(Result(false));
        return;
      }
      finishRequested := finishRequested || noted || !thrown;
      if thrown {
        Close();
        finishPromise := Rejected;
      } else {
        finishPromise, finishTimer := Pending, true;
      }
    }

    method LeaveStreaming()
      requires Valid() && phase.Streaming? && !finishPromise.Pending?
      modifies this`phase, this`idleArmed
      ensures Valid() && phase.Finishing? && !idleArmed
    {
      AudioOver(Over());
      hide AsrSession.Audio, EventQueue.Valid, Shape, AllInner;
      phase, idleArmed := Finishing, false;
    }

    /** No terminal message came within the time `finish()` waits. */
    method FinishTimesOut()
      requires Valid() && finishTimer
      modifies this`phase, this`idleArmed, this`graceArmed, this`reply, this`finishPromise, this`closedEmitted
      modifies this`failure, this`finishTimer, queue
      ensures Valid() && Onward() && phase.Closed?
      ensures queue.pushed == if old(queue.done) then old(queue.pushed) else old(queue.pushed) + [Ended]
      ensures failure == if old(failure).None? then Some(TimedOut) else old(failure)
      ensures !finishTimer && !idleArmed && graceArmed == (old(graceArmed) && old(phase).Closed?)
      ensures reply == if old(reply).Waits? && !old(phase).Closed? then Refused else old(reply)
      ensures finishPromise ==
              if old(finishPromise).Pending? then Settled(Outcome(finalText, true, expired, failure))
              else old(finishPromise)
    {
      hide AsrSession.Audio, AsrSession.Events;
      finishTimer := false;
      if failure.None? {
        failure := Some(TimedOut);
      }
      Settle(Result(true));
      Close();
    }

    /** The last result did not follow the terminal message in time. */
    method GraceFires()
      requires Valid() && graceArmed
      modifies this`finishPromise, this`graceArmed
      ensures Valid() && Onward()
      ensures !graceArmed
      ensures finishPromise == if old(finishPromise).Pending? then Settled(old(Result(false))) else old(finishPromise)
    {
      hide AsrSession.Audio, AsrSession.Events;
      SettleTerminal();
    }

    /** The server was quiet for too long. */
    method IdleFires()
      requires Valid() && idleArmed
      modifies this`phase, this`idleArmed, this`graceArmed, this`reply, this`finishPromise, this`closedEmitted
      modifies this`deferred, this`failure, queue
      ensures Valid() && Onward() && phase.Closed? && deferred.None? && queue.done
      ensures queue.pushed == if old(queue.done) then old(queue.pushed)
                              else old(queue.pushed) + Released(old(deferred), true) + [Ended]
      ensures failure == if old(failure).None? then Some(TimedOut) else old(failure)
      ensures !idleArmed && !graceArmed && reply == (if old(reply).Waits? then Refused else old(reply))
      ensures finishPromise ==
              if old(finishPromise).Pending? then Settled(Outcome(finalText, false, expired, failure))
              else old(finishPromise)
    {
      hide AsrSession.Audio, AsrSession.Events, Shape, EventQueue.Valid;
      if failure.None? {
        failure := Some(TimedOut);
      }
      ReleaseDeferred();
      Finale();
    }

    /** What is deferred is published, and an error after it. */
    method ReleaseDeferred()
      requires Events()
      modifies this`deferred, queue
      ensures queue.Valid() && Shape(queue.pushed, queue.done) && closedEmitted == queue.done && deferred.None?
      ensures old(queue.pushed) <= queue.pushed && queue.done == old(queue.done)
      ensures queue.pushed == if queue.done then old(queue.pushed)
              else old(queue.pushed) + Released(old(deferred), true)
    {
      var pending := (if deferred.None? then [] else deferred.value) + [Error];
      deferred := None;
      if !queue.done {
        ShapeMore(queue.pushed, pending);
      }
      hide Shape, EventQueue.Valid;
      PushAll(pending);
    }

    /** The pump ends: the transport is closed, or receiving failed. */
    method TransportCloses(failed: bool)
      requires Valid() && pumping
      modifies this`phase, this`idleArmed, this`graceArmed, this`reply, this`finishPromise, this`closedEmitted
      modifies this`deferred, this`pumping, queue
      ensures Valid() && Onward() && phase.Closed? && !finishPromise.Pending? && queue.done
      // The error of a failed receive waits for `open` like any other event.
      ensures queue.pushed ==
              if old(queue.done) then old(queue.pushed)
              else if failed && old(deferred).None? then old(queue.pushed) + [Error] + [Ended]
              else old(queue.pushed) + [Ended]
      ensures deferred == if failed && old(deferred).Some? then Some(old(deferred).value + [Error]) else old(deferred)
      ensures !pumping && !idleArmed && !graceArmed && reply == (if old(reply).Waits? then Refused else old(reply))
      ensures finishPromise == if old(finishPromise).Pending? then Settled(old(Result(false))) else old(finishPromise)
    {
      hide AsrSession.Audio, EventQueue.Valid, Shape;
      pumping := false;
      if failed {
        Enqueue(Error);
      }
      Finale();
    }

    /** A message of the server; `answers`: it is the one that `connect()` waits for. */
    method Dispatch(message: Message, answers: bool)
      requires Valid() && pumping
      modifies this`phase, this`idleArmed, this`graceArmed, this`reply, this`finishPromise, this`closedEmitted
      modifies this`deferred, this`finalText, this`serverFinished, this`expired, this`failure, queue
      ensures Valid() && Onward()
      ensures finalText == TextAfter(wire, message, old(finalText))
      ensures serverFinished == (old(serverFinished) || !message.kind.Plain?)
      // An end nobody asked for is an expiry; the first failure is the one that counts.
      ensures expired == (old(expired) || (message.kind.Terminal? && !finishRequested))
      ensures failure == if old(failure).Some? then old(failure)
                         else if message.kind.Terminal? && !finishRequested then Some(Expired)
                         else if message.kind.Failing? then Some(ServerFailed) else None
      ensures reply ==
              if old(reply).Waits? && (answers || message.kind.Failing?) then Arrived(message.ok) else old(reply)
      // A failure ends the session at once, unless `connect()` is to report it.
      ensures var ends := message.kind.Failing? && !old(phase).Connecting? && !old(phase).Handshaking?;
              phase == (if ends then Closed else old(phase)) && queue.done == (old(queue.done) || ends)
      ensures idleArmed == (idleMs > 0 && !phase.Closed?)
      ensures !queue.done ==> Emitted() == old(Emitted()) + MessageEvents(wire, message)
      ensures !old(queue.done) && queue.done && old(deferred).None? ==>
                queue.pushed == old(queue.pushed) + MessageEvents(wire, message) + [Ended]
      ensures var text := PayloadText(wire, message.payload);
              var arrived := old(finishPromise).Pending? && old(serverFinished) && text.Some?;
              finishPromise ==
              if arrived then Settled(Outcome(text, false, old(expired), old(failure)))
              else if old(finishPromise).Pending? &&
                      (message.kind.Failing? || (message.kind.Terminal? && (finalText.Some? || graceMs <= 0))) then
                Settled(Outcome(finalText, false, expired, failure))
              else old(finishPromise)
      ensures graceArmed ==
              if message.kind.Terminal? then finalText.None? && graceMs > 0
              else
                && old(graceArmed) && !message.kind.Failing?
                && !(old(serverFinished) && PayloadText(wire, message.payload).Some?)
    {
      hide AsrSession.Valid, AsrSession.Emitted, MessageEvents, PayloadText, TextAfter;
      Report(message);
      Judge(message);
      Answer(message, answers);
    }

    /** What a message says of the session's end */
    method Judge(message: Message)
      requires Valid()
      modifies this`serverFinished, this`expired, this`failure, this`finishPromise, this`graceArmed
      ensures Valid() && Onward() && serverFinished == (old(serverFinished) || !message.kind.Plain?)
      ensures expired == (old(expired) || (message.kind.Terminal? && !finishRequested))
      ensures failure == if old(failure).Some? then old(failure)
                         else if message.kind.Terminal? && !finishRequested then Some(Expired)
                         else if message.kind.Failing? then Some(ServerFailed) else None
      ensures graceArmed == if message.kind.Terminal? then finalText.None? && graceMs > 0
                            else old(graceArmed) && !message.kind.Failing?
      ensures finishPromise ==
              if old(finishPromise).Pending? && !message.kind.Plain? && !graceArmed then
                Settled(Outcome(finalText, false, expired, failure))
              else old(finishPromise)
    {
      hide AsrSession.Valid;
      match message.kind {
        case Plain =>
        case Terminal => ServerEnds();
        case Failing => ServerFails();
      }
    }

    /** `connect()` gets the message it waits for, and a failure of a session that started closes it. */
    method Answer(message: Message, answers: bool)
      requires Valid()
      modifies this`phase, this`idleArmed, this`graceArmed, this`reply, this`finishPromise, this`closedEmitted, queue
      ensures Valid() && Onward()
      ensures reply ==
              if old(reply).Waits? && (answers || message.kind.Failing?) then Arrived(message.ok) else old(reply)
      ensures var ends := message.kind.Failing? && !old(phase).Connecting? && !old(phase).Handshaking?;
              if ends then
                && phase.Closed? && queue.done && !idleArmed && graceArmed == (old(graceArmed) && old(phase).Closed?)
                && queue.pushed == (if old(queue.done) then old(queue.pushed) else old(queue.pushed) + [Ended])
                && finishPromise == (if old(finishPromise).Pending? then Settled(Result(false)) else old(finishPromise))
              else unchanged(this`phase, this`idleArmed, this`graceArmed, this`finishPromise, queue)
    {
      hide AsrSession.Audio, AsrSession.Events, Awaited;
      if reply.Waits? && (answers || message.kind.Failing?) {
        reply := Arrived(message.ok);
      }
      if message.kind.Failing? && !phase.Connecting? && !phase.Handshaking? {
        Close();
      }
    }

    /** The events of a message, and the text it carries */
    method Report(message: Message)
      requires Valid()
      modifies this`idleArmed, this`graceArmed, this`finishPromise, this`deferred, this`finalText, queue
      ensures Valid() && Onward() && queue.done == old(queue.done)
      ensures !queue.done ==> Emitted() == old(Emitted()) + MessageEvents(wire, message)
      ensures finalText == TextAfter(wire, message, old(finalText)) && idleArmed == (idleMs > 0 && !phase.Closed?)
      ensures if serverFinished && PayloadText(wire, message.payload).Some? then
                SettledWith(PayloadText(wire, message.payload).value)
              else finishPromise == old(finishPromise) && graceArmed == old(graceArmed)
      ensures deferred.None? <==> old(deferred).None?
      ensures deferred.None? && !queue.done ==> queue.pushed == old(queue.pushed) + MessageEvents(wire, message)
    {
      hide AsrSession.Valid, AsrSession.Emitted, PayloadEvents, PayloadText, LastFinal;
      OnlyPushed();
      ArmIdle();
      ReportEvent(Received);
      ReportPayload(message.payload);
      if !message.ok {
        ReportEvent(Error);
      }
      OnlyPushed();
    }

    lemma OnlyPushed()
      ensures deferred.None? ==> Emitted() == queue.pushed
    {
    }

    method ArmIdle()
      requires Valid()
      modifies this`idleArmed
      ensures Valid() && idleArmed == (idleMs > 0 && !phase.Closed?)
    {
      hide AsrSession.Audio, AsrSession.Events;
      idleArmed := idleMs > 0 && !phase.Closed?;
    }

    method ReportEvent(event: AsrEvent)
      requires Valid() && event.Inner()
      modifies this`deferred, queue
      ensures Valid() && Onward() && queue.done == old(queue.done)
      ensures deferred.None? <==> old(deferred).None?
      ensures !queue.done ==> Emitted() == old(Emitted()) + [event]
    {
      hide AsrSession.Audio, AsrSession.Events, AsrSession.Emitted;
      Enqueue(event);
    }

    method ReportPayload(payload: Payload)
      requires Valid()
      modifies this`graceArmed, this`finishPromise, this`deferred, this`finalText, queue
      ensures Valid() && Onward() && queue.done == old(queue.done)
      ensures deferred.None? <==> old(deferred).None?
      ensures !queue.done ==> Emitted() == old(Emitted()) + PayloadEvents(wire, payload)
      ensures finalText == if payload.Tracks? then LastFinal(wire, payload.tracks, old(finalText)) else old(finalText)
      ensures if serverFinished && PayloadText(wire, payload).Some? then SettledWith(PayloadText(wire, payload).value)
              else finishPromise == old(finishPromise) && graceArmed == old(graceArmed)
    {
      hide AsrSession.Valid, AsrSession.Emitted, TrackEvents, LastFinal, FirstFinal;
      match payload {
        case Nothing =>
        case Beat => ReportEvent(Heartbeat);
        case Tracks(tracks) =>
          ReportEvent(Results);
          ReportTracks(tracks);
      }
    }

    method ReportTracks(tracks: seq<Track>)
      requires Valid()
      modifies this`graceArmed, this`finishPromise, this`deferred, this`finalText, queue
      ensures Valid() && Onward() && queue.done == old(queue.done)
      ensures deferred.None? <==> old(deferred).None?
      ensures !queue.done ==> Emitted() == old(Emitted()) + TrackEvents(wire, tracks)
      ensures finalText == LastFinal(wire, tracks, old(finalText))
      ensures if serverFinished && FirstFinal(wire, tracks).Some? then SettledWith(FirstFinal(wire, tracks).value)
              else finishPromise == old(finishPromise) && graceArmed == old(graceArmed)
    {
      hide AsrSession.Valid, AsrSession.Emitted, IsFinalTrack;
      for i := 0 to |tracks|
        invariant Valid() && Onward() && queue.done == old(queue.done) && (deferred.None? <==> old(deferred).None?)
        invariant !queue.done ==> Emitted() == old(Emitted()) + TrackEvents(wire, tracks[..i])
        invariant finalText == LastFinal(wire, tracks[..i], old(finalText))
        invariant if serverFinished && FirstFinal(wire, tracks[..i]).Some? then
                    SettledWith(FirstFinal(wire, tracks[..i]).value)
                  else finishPromise == old(finishPromise) && graceArmed == old(graceArmed)
      {
        assert tracks[..i + 1][..i] == tracks[..i];
        ReportTrack(tracks[i]);
      }
      assert tracks[..|tracks|] == tracks;
    }

    /** The text that `finish()` waits for arrived. */
    twostate predicate SettledWith(text: string)
      reads this
    {
      && !graceArmed
      && finishPromise == if old(finishPromise).Pending? then Settled(Outcome(Some(text), false, expired, failure))
                          else old(finishPromise)
    }

    method ReportTrack(track: Track)
      requires Valid()
      modifies this`graceArmed, this`finishPromise, this`deferred, this`finalText, queue
      ensures Valid() && Onward() && queue.done == old(queue.done)
      ensures deferred.None? <==> old(deferred).None?
      ensures !queue.done ==> Emitted() == old(Emitted()) + [Text(track.text, IsFinalTrack(wire, track))]
      ensures finalText == if track.text != "" && IsFinalTrack(wire, track) then Some(track.text) else old(finalText)
      ensures if serverFinished && track.text != "" && IsFinalTrack(wire, track) then SettledWith(track.text)
              else finishPromise == old(finishPromise) && graceArmed == old(graceArmed)
    {
      hide AsrSession.Audio, AsrSession.Events, AsrSession.Emitted, IsFinalTrack;
      var final := IsFinalTrack(wire, track);
      Enqueue(Text(track.text, final));
      if track.text != "" && final {
        finalText := Some(track.text);
        if serverFinished {
          SettleTerminal();
        }
      }
    }

    method ServerEnds()
      requires Valid()
      modifies this`serverFinished, this`expired, this`failure, this`finishPromise, this`graceArmed
      ensures Valid() && Onward() && serverFinished
      // An end nobody asked for is an expiry.
      ensures expired == (old(expired) || !finishRequested)
      ensures failure == if old(failure).None? && !finishRequested then Some(Expired) else old(failure)
      ensures graceArmed == (finalText.None? && graceMs > 0)
      ensures finishPromise ==
              if old(finishPromise).Pending? && !graceArmed then Settled(Outcome(finalText, false, expired, failure))
              else old(finishPromise)
    {
      hide AsrSession.Audio, AsrSession.Events;
      AudioOver(Over());
      serverFinished := true;
      if !finishRequested {
        expired := true;
        if failure.None? {
          failure := Some(Expired);
        }
      }
      if finalText.Some? {
        SettleTerminal();
      } else {
        ArmTerminalGrace();
      }
    }

    method ServerFails()
      requires Valid()
      modifies this`serverFinished, this`failure, this`finishPromise, this`graceArmed
      ensures Valid() && Onward() && serverFinished && !finishPromise.Pending? && !graceArmed
      ensures failure == if old(failure).None? then Some(ServerFailed) else old(failure)
      ensures finishPromise ==
              if old(finishPromise).Pending? then Settled(Outcome(finalText, false, expired, failure))
              else old(finishPromise)
    {
      hide AsrSession.Audio, AsrSession.Events;
      AudioOver(Over());
      serverFinished := true;
      graceArmed := false;
      if failure.None? {
        failure := Some(ServerFailed);
      }
      Settle(Result(false));
    }
  }

  // ---------------------------------------------------------------- the samples of a run

  /**
   * Unless a step of `connect()` went on after the end, the framer got one block of what was pushed: it starts at
   * `shed`, and nothing is missing in between.
   */
  lemma OneBlock(s: AsrSession)
    requires s.Valid() && !s.reopened
    ensures forall i | 0 <= i < |s.given| :: s.given[i] == s.shed + i
  {
  }

  /** In any session: the framer got one block exactly when nothing between its first and last sample was dropped. */
  lemma GivenBlockIff(s: AsrSession)
    requires s.Valid() && s.given != []
    ensures IsBlock(s.given) <==> NoneWithin(s.dropped, s.given[0], s.given[|s.given| - 1])
  {
    hide Counted, Flat, Latest, EventQueue.Valid, Shape, AllInner, IsBlock, NoneWithin;
    BlockIff(s.offered, s.accepted, s.dropped, s.reopened, s.Over(), s.shed, s.shed + |s.given|);
  }

  // ---------------------------------------------------------------- what a caller can tell of the block

  /** How many chunks begin before the sample `n` */
  function Before(chunks: seq<seq<nat>>, n: nat): (k: nat)
    ensures k <= |chunks|
  {
    if chunks == [] then 0 else
      var last := chunks[|chunks| - 1];
      if last != [] && last[0] < n then |chunks| else Before(chunks[..|chunks| - 1], n)
  }

  /**
   * Dropping `n` leaves no gap: nothing was kept before it, nothing was accepted after it, or the last chunk before it
   * no longer fits into the budget with what was pushed between it and the start of streaming.
   */
  ghost predicate Harmless(chunks: seq<seq<nat>>, accepted: seq<nat>, n: nat, budget: nat) {
    var k := Before(chunks, n);
    k == 0 || |Flat(chunks[k - 1..])| > budget || AllBefore(accepted, n)
  }

  ghost predicate AllBefore(accepted: seq<nat>, n: nat) {
    forall m | m in accepted :: m < n
  }

  lemma {:induction false} FirstOf(chunks: seq<seq<nat>>, i: nat)
    requires i < |chunks| && chunks[i] != []
    ensures |Flat(chunks[..i])| < |Flat(chunks)| && Flat(chunks)[|Flat(chunks[..i])|] == chunks[i][0]
    ensures forall k | 0 <= k < i && chunks[k] != [] :: |Flat(chunks[..k])| < |Flat(chunks[..i])|
  {
    FlatSplit(chunks, i);
    FlatFirst(chunks[i..]);
    forall k | 0 <= k < i && chunks[k] != [] ensures |Flat(chunks[..k])| < |Flat(chunks[..i])| {
      FlatSplit(chunks[..i], k);
      FlatFirst(chunks[..i][k..]);
      assert chunks[..i][..k] == chunks[..k] && chunks[..i][k..][0] == chunks[k];
    }
  }

  /** The chunks before a sample are the first ones. */
  lemma {:induction false} BeforeIff(chunks: seq<seq<nat>>, n: nat, m: nat)
    requires Chunked(chunks) && m < |chunks|
    requires forall i, j | 0 <= i < j < |Flat(chunks)| :: Flat(chunks)[i] < Flat(chunks)[j]
    ensures m < Before(chunks, n) <==> chunks[m][0] < n
  {
    var last := |chunks| - 1;
    hide Flat;
    FirstOf(chunks, last);
    FirstOf(chunks, m);
    FlatOne(chunks[..last], chunks[last]);
    assert chunks == chunks[..last] + [chunks[last]];
    if m < last && !(chunks[last][0] < n) {
      assert forall i | 0 <= i < |Flat(chunks[..last])| :: Flat(chunks[..last])[i] == Flat(chunks)[i];
      BeforeIff(chunks[..last], n, m);
    }
  }

  /** A dropped sample makes no gap exactly when it is harmless. */
  lemma HarmlessIff(offered: nat, accepted: seq<nat>, dropped: set<nat>, reopened: bool, over: bool,
                    chunks: seq<seq<nat>>, budget: nat, n: nat)
    requires Counted(offered, accepted, dropped, reopened, over) && n in dropped
    requires Unbroken(Connected, offered, accepted, chunks, over) && ShedOf(chunks, budget) < |accepted|
    ensures n <= accepted[ShedOf(chunks, budget)] || n >= accepted[|accepted| - 1] <==>
            Harmless(chunks, accepted, n, budget)
  {
    hide Flat, IsBlock;
    var m, k := FirstKept(chunks, budget), Before(chunks, n);
    var shed, last := ShedOf(chunks, budget), accepted[|accepted| - 1];
    assert AllBefore(accepted, n) <==> last < n;
    assert last in accepted && accepted[shed] in accepted;
    if k > 0 {
      ShedIff(chunks, k - 1, budget);
    }
    if m < |chunks| {
      BeforeIff(chunks, n, m);
      FirstOf(chunks, m);
    } else {
      assert chunks[..m] == chunks && accepted[shed..|accepted|] == accepted[|Flat(chunks)|..];
      BlockMissesNone(offered, accepted, dropped, reopened, over, shed, |accepted|);
    }
  }

  /**
   * In any session that streams, whatever was pushed and closed before: the framer got one block exactly when every
   * dropped sample is harmless.
   */
  lemma StreamedBlockIff(s: AsrSession)
    requires s.Valid() && s.stage.Connected?
    ensures IsBlock(s.given) <==> forall n | n in s.dropped :: Harmless(s.chunks, s.accepted, n, s.budget)
  {
    hide Counted, Latest, EventQueue.Valid, Shape, AllInner, IsBlock, Harmless, Unbroken;
    if s.given == [] {
      EmptyBlock(s.chunks, s.accepted, s.offered, s.budget, s.Over());
    } else {
      GivenBlockIff(s);
      forall n | n in s.dropped
        ensures n <= s.given[0] || n >= s.given[|s.given| - 1] <==> Harmless(s.chunks, s.accepted, n, s.budget)
      {
        HarmlessIff(s.offered, s.accepted, s.dropped, s.reopened, s.Over(), s.chunks, s.budget, n);
      }
    }
  }

  lemma EmptyBlock(chunks: seq<seq<nat>>, accepted: seq<nat>, offered: nat, budget: nat, over: bool)
    requires Unbroken(Connected, offered, accepted, chunks, over) && ShedOf(chunks, budget) >= |accepted|
    ensures IsBlock([]) && forall n :: Harmless(chunks, accepted, n, budget)
  {
    hide Flat;
    var m := FirstKept(chunks, budget);
    if m < |chunks| {
      FirstOf(chunks, m);
      assert false;
    }
    forall n ensures Harmless(chunks, accepted, n, budget) {
      var k := Before(chunks, n);
      if k > 0 {
        ShedIff(chunks, k - 1, budget);
      }
    }
  }

  // ---------------------------------------------------------------- close() before connect() went on

  function Sum(sizes: seq<nat>): nat {
    if sizes == [] then 0 else Sum(sizes[..|sizes| - 1]) + sizes[|sizes| - 1]
  }

  /** Pushes of those sizes, from the sample `start` on */
  function Pieces(sizes: seq<nat>, start: nat): (chunks: seq<seq<nat>>)
    ensures |chunks| == |sizes|
  {
    if sizes == [] then [] else
      var before := sizes[..|sizes| - 1];
      Pieces(before, start) + [Numbers(start + Sum(before), start + Sum(sizes))]
  }

  predicate Positive(sizes: seq<nat>) {
    forall i | 0 <= i < |sizes| :: sizes[i] > 0
  }

  lemma PiecesNext(sizes: seq<nat>, size: nat, start: nat)
    ensures Sum(sizes + [size]) == Sum(sizes) + size
    ensures Pieces(sizes + [size], start) ==
            Pieces(sizes, start) + [Numbers(start + Sum(sizes), start + Sum(sizes) + size)]
  {
    assert (sizes + [size])[..|sizes|] == sizes;
  }

  lemma NumbersJoin(from: nat, mid: nat, to: nat)
    requires from <= mid <= to
    ensures Numbers(from, mid) + Numbers(mid, to) == Numbers(from, to)
    ensures Those(Numbers(from, mid)) + Those(Numbers(mid, to)) == Those(Numbers(from, to))
  {
    assert Numbers(from, mid) + Numbers(mid, to) == Numbers(from, to);
  }

  lemma NumbersNone(from: nat)
    ensures Numbers(from, from) == [] && Those(Numbers(from, from)) == {}
  {
  }

  lemma {:induction false} FlatPieces(sizes: seq<nat>, start: nat)
    ensures Flat(Pieces(sizes, start)) == Numbers(start, start + Sum(sizes))
  {
    hide Flat, Numbers, Those, Pieces, Sum;
    if sizes == [] {
      PiecesNone(start);
    } else {
      var n := |sizes| - 1;
      var before, mid := Pieces(sizes[..n], start), start + Sum(sizes[..n]);
      FlatPieces(sizes[..n], start);
      PiecesNext(sizes[..n], sizes[n], start);
      assert sizes == sizes[..n] + [sizes[n]];
      FlatGrows(before, start, mid, mid + sizes[n]);
    }
  }

  lemma FlatGrows(chunks: seq<seq<nat>>, from: nat, mid: nat, to: nat)
    requires from <= mid <= to && Flat(chunks) == Numbers(from, mid)
    ensures Flat(chunks + [Numbers(mid, to)]) == Numbers(from, to)
  {
    hide Flat, Numbers, Those;
    NumbersJoin(from, mid, to);
    FlatOne(chunks, Numbers(mid, to));
  }

  lemma PiecesNone(start: nat)
    ensures Flat(Pieces([], start)) == Numbers(start, start + Sum([]))
  {
  }

  /** What was accepted, what was dropped, and the chunks that waited for streaming. */
  datatype AudioHeard = AudioHeard(accepted: seq<nat>, dropped: set<nat>, chunks: seq<seq<nat>>)

  const NOTHING := AudioHeard([], {}, [])

  /** The pushes of those sizes are all dropped by a session that is over, and kept or handed over by another. */
  function AfterPushes(h: AudioHeard, over: bool, streaming: bool, start: nat, sizes: seq<nat>): AudioHeard {
    var samples := Numbers(start, start + Sum(sizes));
    if over then h.(dropped := h.dropped + Those(samples))
    else if streaming then h.(accepted := h.accepted + samples)
    else h.(accepted := h.accepted + samples, chunks := h.chunks + Pieces(sizes, start))
  }

  lemma AfterNone(h: AudioHeard, over: bool, streaming: bool, start: nat)
    ensures AfterPushes(h, over, streaming, start, []) == h && Sum([]) == 0
  {
    NumbersNone(start);
    assert Pieces([], start) == [] && h.chunks + [] == h.chunks && h.accepted + [] == h.accepted;
    assert h.dropped + {} == h.dropped;
  }

  lemma AfterNext(h: AudioHeard, over: bool, streaming: bool, start: nat, sizes: seq<nat>, size: nat)
    ensures Sum(sizes + [size]) == Sum(sizes) + size
    ensures var before := AfterPushes(h, over, streaming, start, sizes);
            var samples := Numbers(start + Sum(sizes), start + Sum(sizes) + size);
            AfterPushes(h, over, streaming, start, sizes + [size]) ==
            if over then before.(dropped := before.dropped + Those(samples))
            else if streaming then before.(accepted := before.accepted + samples)
            else before.(accepted := before.accepted + samples, chunks := before.chunks + [samples])
  {
    hide Numbers, Those, Pieces, Sum;
    PiecesNext(sizes, size, start);
    NumbersJoin(start, start + Sum(sizes), start + Sum(sizes) + size);
    var now, more := Numbers(start, start + Sum(sizes)), Numbers(start + Sum(sizes), start + Sum(sizes) + size);
    assert h.accepted + now + more == h.accepted + (now + more);
    assert h.dropped + Those(now) + Those(more) == h.dropped + (Those(now) + Those(more));
    assert h.chunks + Pieces(sizes, start) + [more] == h.chunks + (Pieces(sizes, start) + [more]);
  }

  /** Push after push, from the sample `start` on */
  method PushEach(s: AsrSession, sizes: seq<nat>, start: nat)
    requires s.Valid() && start == s.offered && Positive(sizes)
    modifies s`dropped, s`offered, s`accepted, s`given, s`preRoll, s`preRollSamples, s`chunks
    modifies s`shed, s`audioAfterEndReported, s`deferred, s.queue
    ensures s.Valid() && s.offered == start + Sum(sizes)
    ensures s.Heard() == AfterPushes(old(s.Heard()), s.Over(), s.phase.Streaming?, start, sizes)
  {
    hide AsrSession.Valid, AsrSession.Onward, EventQueue.Valid, Numbers, Those, AfterPushes, Sum, AsrSession.Over;
    ghost var heard := s.Heard();
    AfterNone(heard, s.Over(), s.phase.Streaming?, start);
    var offered := start;
    assert sizes[..0] == [];
    for i := 0 to |sizes|
      invariant s.Valid() && s.offered == offered == start + Sum(sizes[..i]) && s.Over() == old(s.Over())
      invariant s.Heard() == AfterPushes(heard, s.Over(), s.phase.Streaming?, start, sizes[..i])
    {
      AfterNext(heard, s.Over(), s.phase.Streaming?, start, sizes[..i], sizes[i]);
      assert sizes[..i + 1] == sizes[..i] + [sizes[i]];
      PushOne(s, offered, sizes[i]);
      offered := offered + sizes[i];
    }
    assert sizes[..|sizes|] == sizes;
  }

  method PushOne(s: AsrSession, start: nat, size: nat)
    requires s.Valid() && start == s.offered && size > 0
    modifies s`dropped, s`offered, s`accepted, s`given, s`preRoll, s`preRollSamples, s`chunks
    modifies s`shed, s`audioAfterEndReported, s`deferred, s.queue
    ensures s.Valid() && s.offered == start + size && s.Over() == old(s.Over())
    ensures var samples, before := Numbers(start, start + size), old(s.Heard());
            s.Heard() ==
            if s.Over() then before.(dropped := before.dropped + Those(samples))
            else if s.phase.Streaming? then before.(accepted := before.accepted + samples)
            else before.(accepted := before.accepted + samples, chunks := before.chunks + [samples])
  {
    hide AsrSession.Valid, AsrSession.Onward, EventQueue.Valid, Numbers, Those;
    s.Push(Numbers(start, start + size));
  }

  /** `connect()` awaits its credentials, and the pushes `xs` were made. */
  method Begun(wire: Wire, budget: nat, xs: seq<nat>) returns (s: AsrSession)
    requires Positive(xs)
    ensures fresh(s) && fresh(s.queue) && s.Valid() && s.budget == budget
    ensures s.phase.Connecting? && s.stage.Credentials? && !s.serverFinished
    ensures s.offered == Sum(xs) && s.Heard() == AfterPushes(NOTHING, false, false, 0, xs)
  {
    hide AsrSession.Valid, AsrSession.Onward, EventQueue.Valid, AfterPushes, Sum;
    hide AsrSession.StartFails, AsrSession.Silent;
    s := new AsrSession(wire, budget, 250, 15000);
    var called := s.Connect(true);
    PushEach(s, xs, 0);
  }

  /** The server answers every message of the handshake. */
  method Answered(s: AsrSession)
    requires s.Valid() && s.stage.Reply? && s.reply.Waits? && s.phase.Handshaking? && !s.serverFinished && s.pumping
    modifies s, s.queue
    ensures s.Valid() && s.stage.Reply? && s.stage.rounds <= 1 && s.reply == Arrived(true) && s.phase.Handshaking?
    ensures s.offered == old(s.offered) && s.Heard() == old(s.Heard()) && !s.serverFinished
  {
    hide AsrSession.Valid, AsrSession.Onward, EventQueue.Valid;
    hide AsrSession.StartFails, AsrSession.Silent;
    s.Dispatch(Message(Plain, true, Nothing), true);
    while s.stage.rounds > 1
      invariant s.Valid() && s.stage.Reply? && s.reply == Arrived(true) && s.phase.Handshaking? && s.pumping
      invariant s.offered == old(s.offered) && s.Heard() == old(s.Heard()) && !s.serverFinished
      decreases s.stage.rounds
    {
      s.ConnectResumes(true, None);
      s.Dispatch(Message(Plain, true, Nothing), true);
    }
  }

  /** The pushes before, while and after a session is closed, and those after its streaming began */
  function Told(xs: seq<nat>, bs: seq<nat>, ys: seq<nat>, zs: seq<nat>): AudioHeard {
    var a, b, c := Sum(xs), Sum(bs), Sum(ys);
    var begun := AfterPushes(NOTHING, false, false, 0, xs);
    var reopened := AfterPushes(AfterPushes(begun, true, false, a, bs), false, false, a + b, ys);
    AfterPushes(reopened, false, true, a + b + c, zs)
  }

  lemma ToldIs(xs: seq<nat>, bs: seq<nat>, ys: seq<nat>, zs: seq<nat>)
    ensures var a, b, c, d := Sum(xs), Sum(bs), Sum(ys), Sum(zs);
            Told(xs, bs, ys, zs) ==
            AudioHeard(Numbers(0, a) + Numbers(a + b, a + b + c) + Numbers(a + b + c, a + b + c + d),
                       Those(Numbers(a, a + b)), Pieces(xs, 0) + Pieces(ys, a + b))
  {
    hide Numbers, Those, Pieces, Sum;
    assert [] + Numbers(0, Sum(xs)) == Numbers(0, Sum(xs)) && [] + Pieces(xs, 0) == Pieces(xs, 0);
  }

  lemma BlockOfPushes(budget: nat, xs: seq<nat>, bs: seq<nat>, ys: seq<nat>, zs: seq<nat>)
    requires Positive(xs) && Positive(bs) && Positive(ys) && Positive(zs)
    ensures var h := Told(xs, bs, ys, zs);
            (forall n | n in h.dropped :: Harmless(h.chunks, h.accepted, n, budget)) <==>
            OneBlockOf(budget, xs, bs, ys, zs)
  {
    hide Told, Pieces, Harmless, Numbers, Those;
    ToldIs(xs, bs, ys, zs);
    var h, a, b := Told(xs, bs, ys, zs), Sum(xs), Sum(bs);
    DroppedAre(a, a + b);
    SumPositive(bs);
    hide Sum;
    forall n | n in h.dropped
      ensures Harmless(h.chunks, h.accepted, n, budget) <==> OneBlockOf(budget, xs, bs, ys, zs)
    {
      HarmlessHere(budget, xs, bs, ys, zs, n);
    }
    assert bs != [] ==> a in h.dropped;
  }

  lemma DroppedAre(from: nat, to: nat)
    ensures forall n :: n in Those(Numbers(from, to)) <==> from <= n < to
  {
    forall n ensures n in Those(Numbers(from, to)) <==> from <= n < to {
      assert from <= n < to ==> Numbers(from, to)[n - from] == n;
    }
  }

  lemma HarmlessHere(budget: nat, xs: seq<nat>, bs: seq<nat>, ys: seq<nat>, zs: seq<nat>, n: nat)
    requires Positive(xs) && Positive(bs) && Positive(ys) && Positive(zs) && Sum(xs) <= n < Sum(xs) + Sum(bs)
    ensures var h := Told(xs, bs, ys, zs);
            Harmless(h.chunks, h.accepted, n, budget) <==> OneBlockOf(budget, xs, bs, ys, zs)
  {
    hide Told, Pieces, Numbers, AllBefore, Flat, Before, Those;
    ToldIs(xs, bs, ys, zs);
    BeforePieces(xs, ys, Sum(xs) + Sum(bs), n);
    AcceptedAfter(Sum(xs), Sum(bs), Sum(ys), Sum(zs), n);
    SumPositive(bs);
    SumPositive(ys);
    SumPositive(zs);
    if xs != [] {
      LastPieces(xs, ys, Sum(xs) + Sum(bs));
    }
  }

  /** The condition in a caller's terms */
  predicate OneBlockOf(budget: nat, xs: seq<nat>, bs: seq<nat>, ys: seq<nat>, zs: seq<nat>) {
    xs == [] || bs == [] || (ys == [] && zs == []) || xs[|xs| - 1] + Sum(ys) > budget
  }

  lemma {:induction false} SumPositive(sizes: seq<nat>)
    requires Positive(sizes)
    ensures Sum(sizes) > 0 <==> sizes != []
  {
  }

  lemma AcceptedAfter(a: nat, b: nat, c: nat, d: nat, n: nat)
    requires a <= n < a + b
    ensures AllBefore(Numbers(0, a) + Numbers(a + b, a + b + c) + Numbers(a + b + c, a + b + c + d), n) <==> c + d == 0
  {
    if c + d > 0 {
      var after := Numbers(a + b, a + b + c) + Numbers(a + b + c, a + b + c + d);
      assert after[0] == a + b;
      assert after[0] in Numbers(0, a) + Numbers(a + b, a + b + c) + Numbers(a + b + c, a + b + c + d);
    }
  }

  /** The pushes before `n`, when those after it begin later */
  lemma {:induction false} BeforePieces(xs: seq<nat>, ys: seq<nat>, start: nat, n: nat)
    requires Positive(xs) && Positive(ys) && Sum(xs) <= n < start
    ensures Before(Pieces(xs, 0) + Pieces(ys, start), n) == |xs|
  {
    var all := Pieces(xs, 0) + Pieces(ys, start);
    if ys != [] {
      var k := |ys| - 1;
      BeforePieces(xs, ys[..k], start, n);
      assert all[..|all| - 1] == Pieces(xs, 0) + Pieces(ys[..k], start);
      assert all[|all| - 1][0] == start + Sum(ys[..k]);
    } else if xs != [] {
      var k := |xs| - 1;
      assert Sum(xs) == Sum(xs[..k]) + xs[k];
      assert all == Pieces(xs, 0) && all[k][0] == Sum(xs[..k]);
    } else {
      assert all == [];
    }
  }

  lemma LastPieces(xs: seq<nat>, ys: seq<nat>, start: nat)
    requires xs != []
    ensures |Flat((Pieces(xs, 0) + Pieces(ys, start))[|xs| - 1..])| == xs[|xs| - 1] + Sum(ys)
  {
    hide Flat, Numbers, Pieces, Sum;
    var k := |xs| - 1;
    PiecesNext(xs[..k], xs[k], 0);
    assert xs == xs[..k] + [xs[k]];
    var last, more := Numbers(Sum(xs[..k]), Sum(xs)), Pieces(ys, start);
    assert (Pieces(xs[..k], 0) + [last] + more)[k..] == [last] + more;
    FlatFirst([last] + more);
    assert ([last] + more)[1..] == more;
    FlatPieces(ys, start);
  }

  lemma Concludes(s: AsrSession, xs: seq<nat>, bs: seq<nat>, ys: seq<nat>, zs: seq<nat>)
    requires s.Valid() && s.stage.Connected? && s.Heard() == Told(xs, bs, ys, zs)
    requires Positive(xs) && Positive(bs) && Positive(ys) && Positive(zs)
    ensures IsBlock(s.given) <==> OneBlockOf(s.budget, xs, bs, ys, zs)
  {
    hide AsrSession.Valid, Told, Positive, IsBlock, OneBlockOf, Harmless;
    StreamedBlockIff(s);
    BlockOfPushes(s.budget, xs, bs, ys, zs);
  }

  /** Where `connect()` waits when `close()` is called */
  datatype Await = ForCredentials | ForTransport

  /** After the pushes `xs` the session is closed, `bs` are pushed, and `connect()` goes on to its handshake. */
  method Reopened(wire: Wire, budget: nat, during: Await, xs: seq<nat>, bs: seq<nat>) returns (s: AsrSession)
    requires Positive(xs) && Positive(bs)
    ensures fresh(s) && fresh(s.queue) && s.Valid() && s.budget == budget && s.stage.Reply? && s.reply.Waits?
    ensures s.phase.Handshaking? && !s.serverFinished && s.pumping && s.offered == Sum(xs) + Sum(bs)
    ensures s.Heard() == AfterPushes(AfterPushes(NOTHING, false, false, 0, xs), true, false, Sum(xs), bs)
  {
    hide AsrSession.Valid, AsrSession.Onward, EventQueue.Valid, AfterPushes, Sum, Positive;
    hide AsrSession.StartFails, AsrSession.Silent;
    s := Begun(wire, budget, xs);
    if during.ForTransport? {
      s.CredentialsArrive(true);
    }
    s.Close();
    PushEach(s, bs, Sum(xs));
    if during.ForCredentials? {
      s.CredentialsArrive(true);
    }
    s.TransportConnects(true, true);
  }

  /**
   * `close()` while `connect()` awaits its credentials or its transport, after the pushes `xs`: the pushes `bs` before
   * `connect()` goes on are dropped, those before streaming, `ys`, and after its start, `zs`, are not.
   */
  method ClosedWhileConnecting(wire: Wire, budget: nat, during: Await, xs: seq<nat>, bs: seq<nat>, ys: seq<nat>,
                               zs: seq<nat>) returns (s: AsrSession)
    requires Positive(xs) && Positive(bs) && Positive(ys) && Positive(zs)
    ensures s.Valid() && s.phase.Streaming? && s.offered == Sum(xs) + Sum(bs) + Sum(ys) + Sum(zs)
    ensures IsBlock(s.given) <==> OneBlockOf(budget, xs, bs, ys, zs)
  {
    hide AsrSession.Valid, AsrSession.Onward, EventQueue.Valid, AfterPushes, Sum, IsBlock, Positive, OneBlockOf;
    hide AsrSession.StartFails, AsrSession.Silent;
    s := Reopened(wire, budget, during, xs, bs);
    PushEach(s, ys, Sum(xs) + Sum(bs));
    Answered(s);
    s.ConnectResumes(true, None);
    PushEach(s, zs, Sum(xs) + Sum(bs) + Sum(ys));
    Concludes(s, xs, bs, ys, zs);
  }

  /** After the pushes `xs` and the server's last answer the session is closed, and `bs` are pushed. */
  method Overtaken(wire: Wire, budget: nat, xs: seq<nat>, bs: seq<nat>) returns (s: AsrSession)
    requires Positive(xs) && Positive(bs)
    ensures fresh(s) && fresh(s.queue) && s.Valid() && s.budget == budget && s.stage.Reply? && s.stage.rounds <= 1
    ensures s.reply == Arrived(true) && s.phase.Closed? && !s.serverFinished && s.offered == Sum(xs) + Sum(bs)
    ensures s.Heard() == AfterPushes(AfterPushes(NOTHING, false, false, 0, xs), true, false, Sum(xs), bs)
  {
    hide AsrSession.Valid, AsrSession.Onward, EventQueue.Valid, AfterPushes, Sum, Positive;
    hide AsrSession.StartFails, AsrSession.Silent;
    s := Begun(wire, budget, xs);
    s.CredentialsArrive(true);
    s.TransportConnects(true, true);
    Answered(s);
    s.Close();
    PushEach(s, bs, Sum(xs));
  }

  /** The same between the server's last answer and the moment `connect()` goes on with it: nothing waits after `bs`. */
  method ClosedBeforeStreaming(wire: Wire, budget: nat, xs: seq<nat>, bs: seq<nat>, zs: seq<nat>)
    returns (s: AsrSession)
    requires Positive(xs) && Positive(bs) && Positive(zs)
    ensures s.Valid() && s.phase.Streaming? && s.offered == Sum(xs) + Sum(bs) + Sum(zs)
    ensures IsBlock(s.given) <==> OneBlockOf(budget, xs, bs, [], zs)
  {
    hide AsrSession.Valid, AsrSession.Onward, EventQueue.Valid, AfterPushes, Sum, IsBlock, OneBlockOf;
    hide AsrSession.StartFails, AsrSession.Silent;
    s := Overtaken(wire, budget, xs, bs);
    s.ConnectResumes(true, None);
    PushEach(s, zs, Sum(xs) + Sum(bs));
    ghost var begun := AfterPushes(NOTHING, false, false, 0, xs);
    AfterNone(AfterPushes(begun, true, false, Sum(xs), bs), false, false, Sum(xs) + Sum(bs));
    Concludes(s, xs, bs, [], zs);
  }

  datatype Reply = Waits | Arrived(ok: bool) | Refused
}
