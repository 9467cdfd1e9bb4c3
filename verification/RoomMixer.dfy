/** The room mixer: interleaved commands of many speakers and 32 ms ticks become one
    stream of segments. */
module RoomMixer {
  import opened Audio
  import opened Common
  import opened RoomProtocol

  const SEGMENT_CLOSE_TICKS: nat := 12
  const MAX_QUEUED_FRAMES_PER_SPEAKER: nat := 48

  type Frame = f: seq<Sample> | |f| == FRAME_SAMPLES witness seq(FRAME_SAMPLES, _ => 0)

  // -------------------------------------------------------------------------- mixing

  /** Sum of one sample position over the speakers, in no particular order. */
  ghost function SumAt(heads: map<UserId, Frame>, i: nat): int
    requires i < FRAME_SAMPLES
    decreases |heads|
  {
    if heads == map[] then 0
    else
      var u :| u in heads;
      heads[u][i] + SumAt(heads - {u}, i)
  }

  lemma {:induction false} SumSplit(heads: map<UserId, Frame>, u: UserId, i: nat)
    requires u in heads && i < FRAME_SAMPLES
    ensures SumAt(heads, i) == heads[u][i] + SumAt(heads - {u}, i)
    decreases |heads|
  {
    var v :| v in heads && SumAt(heads, i) == heads[v][i] + SumAt(heads - {v}, i);
    if v != u {
      SumSplit(heads - {v}, u, i);
      SumSplit(heads - {u}, v, i);
      assert heads - {v} - {u} == heads - {u} - {v};
    }
  }

  lemma {:induction false} SumBounds(heads: map<UserId, Frame>, i: nat)
    requires i < FRAME_SAMPLES
    ensures -0x8000 * |heads| <= SumAt(heads, i) <= 0x7fff * |heads|
    decreases |heads|
  {
    if heads != map[] {
      var u :| u in heads;
      SumSplit(heads, u, i);
      SumBounds(heads - {u}, i);
    }
  }

  /** Division that drops the fraction, as on `i32`. */
  function TruncatedQuotient(a: int, n: nat): int
    requires n > 0
  {
    if a >= 0 then a / n else -((-a) / n)
  }

  /** The quotient without its fraction: nearest to zero, on either side. */
  lemma QuotientTruncates(a: int, n: nat)
    requires n > 0
    ensures a >= 0 ==> QuotientFits(a, n, TruncatedQuotient(a, n))
    ensures a <= 0 ==> QuotientFits(-a, n, -TruncatedQuotient(a, n))
  {
    if a > 0 {
      DivisionIs(a, n);
    } else {
      DivisionIs(-a, n);
    }
  }

  predicate QuotientFits(a: int, n: nat, q: int) {
    q >= 0 && q * n <= a < (q + 1) * n
  }

  lemma DivisionIs(a: nat, n: nat)
    requires n > 0
    ensures QuotientFits(a, n, a / n)
  {
    assert a == a / n * n + a % n;
  }

  function Clamp(x: int): Sample {
    if x < -0x8000 then -0x8000 else if x > 0x7fff then 0x7fff else x
  }

  /** The per-sample mean of the speakers' frames. */
  ghost predicate IsMean(mixed: seq<Sample>, heads: map<UserId, Frame>) {
    && heads != map[]
    && |mixed| == FRAME_SAMPLES
    && (forall i :: 0 <= i < FRAME_SAMPLES ==> mixed[i] == TruncatedQuotient(SumAt(heads, i), |heads|))
  }

  ghost function MeanAt(heads: map<UserId, Frame>, i: nat): Sample
    requires heads != map[] && i < FRAME_SAMPLES
  {
    SumBounds(heads, i);
    TruncatedQuotient(SumAt(heads, i), |heads|)
  }

  ghost function Mixed(heads: map<UserId, Frame>): (mixed: Frame)
    requires heads != map[]
    ensures IsMean(mixed, heads)
  {
    var samples: seq<Sample> := seq(FRAME_SAMPLES, i requires 0 <= i < FRAME_SAMPLES => MeanAt(heads, i));
    samples
  }

  datatype Popped = Popped(user: UserId, identity: Identity, frame: Frame)

  function RunningSum(frames: seq<Popped>, i: nat): int
    requires i < FRAME_SAMPLES
  {
    if frames == [] then 0 else RunningSum(frames[..|frames| - 1], i) + frames[|frames| - 1].frame[i]
  }

  /** The list holds each entry of the map once. */
  ghost predicate Lists(frames: seq<Popped>, heads: map<UserId, Frame>) {
    && (forall k :: 0 <= k < |frames| ==> frames[k].user in heads && heads[frames[k].user] == frames[k].frame)
    && (forall j, k :: 0 <= j < k < |frames| ==> frames[j].user != frames[k].user)
    && (forall u :: u in heads ==> exists k :: 0 <= k < |frames| && frames[k].user == u)
  }

  lemma ListsFront(frames: seq<Popped>, heads: map<UserId, Frame>)
    requires Lists(frames, heads) && frames != []
    ensures Lists(frames[..|frames| - 1], heads - {frames[|frames| - 1].user})
  {
    var front, last := frames[..|frames| - 1], frames[|frames| - 1];
    forall u | u in heads - {last.user}
      ensures exists k :: 0 <= k < |front| && front[k].user == u
    {
      var k :| 0 <= k < |frames| && frames[k].user == u;
      assert front[k].user == u;
    }
  }

  /** Whatever order a hash map yields, the running sum is the sum. */
  lemma {:induction false} RunningSumIsSum(frames: seq<Popped>, heads: map<UserId, Frame>, i: nat)
    requires Lists(frames, heads) && i < FRAME_SAMPLES
    ensures RunningSum(frames, i) == SumAt(heads, i) && |frames| == |heads|
    decreases |frames|
  {
    if frames == [] {
      assert heads == map[];
    } else {
      var last := frames[|frames| - 1];
      ListsFront(frames, heads);
      RunningSumIsSum(frames[..|frames| - 1], heads - {last.user}, i);
      SumSplit(heads, last.user, i);
      assert heads.Keys == (heads - {last.user}).Keys + {last.user};
    }
  }

  /** The iterator chains of `mix_frames`. */
  method MixFrames(frames: seq<Popped>, ghost heads: map<UserId, Frame>) returns (mixed: Frame)
    requires Lists(frames, heads) && heads != map[]
    ensures mixed == Mixed(heads)
  {
    var samples: seq<Sample> := [];
    for i := 0 to FRAME_SAMPLES
      invariant |samples| == i
      invariant forall k :: 0 <= k < i ==> samples[k] == Mixed(heads)[k]
    {
      var sample := MixSample(frames, heads, i);
      samples := samples + [sample];
    }
    mixed := samples;
    assert mixed == Mixed(heads);
  }

  method MixSample(frames: seq<Popped>, ghost heads: map<UserId, Frame>, i: nat) returns (sample: Sample)
    requires Lists(frames, heads) && heads != map[] && i < FRAME_SAMPLES
    ensures sample == MeanAt(heads, i)
  {
    var divisor := if |frames| == 0 then 1 else |frames|;
    var sum: int := 0;
    for k := 0 to |frames|
      invariant sum == RunningSum(frames[..k], i)
    {
      assert frames[..k + 1][..k] == frames[..k];
      sum := sum + frames[k].frame[i];
    }
    assert frames[..|frames|] == frames;
    RunningSumIsSum(frames, heads, i);
    SumBounds(heads, i);
    sample := Clamp(TruncatedQuotient(sum, divisor));
  }

  lemma {:induction false} RunningSumBounds(frames: seq<Popped>, i: nat)
    requires i < FRAME_SAMPLES
    ensures -0x8000 * |frames| <= RunningSum(frames, i) <= 0x7fff * |frames|
  {
    if frames != [] {
      RunningSumBounds(frames[..|frames| - 1], i);
    }
  }

  function Loudest(n: nat): (frames: seq<Popped>)
    ensures |frames| == n
    ensures RunningSum(frames, 0) == -0x8000 * n
  {
    if n == 0 then []
    else
      var frames := Loudest(n - 1) + [Popped(n, Identity(None, ""), seq(FRAME_SAMPLES, _ => -0x8000))];
      assert frames[..n - 1] == Loudest(n - 1);
      frames
  }

  ghost predicate SumsFit(n: nat) {
    forall frames: seq<Popped>, i: nat :: |frames| == n && i < FRAME_SAMPLES ==>
      -0x8000_0000 <= RunningSum(frames, i) <= 0x7fff_ffff
  }

  /** The 32-bit sum cannot overflow, on any frames, for up to 65,536 speakers and no
      more. */
  lemma SumFitsIff(n: nat)
    ensures SumsFit(n) <==> n <= 65_536
  {
    if n <= 65_536 {
      forall frames: seq<Popped>, i: nat | |frames| == n && i < FRAME_SAMPLES
        ensures -0x8000_0000 <= RunningSum(frames, i) <= 0x7fff_ffff
      {
        RunningSumBounds(frames, i);
      }
    } else {
      assert RunningSum(Loudest(n), 0) < -0x8000_0000;
    }
  }

  // ------------------------------------------------------------- the mixer as a value

  datatype SpeakerStream = SpeakerStream(identity: Identity, active: bool, frames: seq<Frame>)

  datatype MixedSegment = MixedSegment(
    id: SegmentId, config: SessionConfig, startedAt: nat,
    sampleCount: nat, idleTicks: nat, speakers: map<UserId, Identity>)

  datatype Mixer = Mixer(
    config: SessionConfig, speakers: map<UserId, SpeakerStream>,
    segment: Option<MixedSegment>, stopped: bool)

  /** `freshId` and `now` are the UUID and the clock a tick reads. */
  datatype Event =
    | SetConfig(config: SessionConfig)
    | Begin(speaker: Identity)
    | Hear(user: UserId, bytes: seq<Byte>)
    | Finish(user: UserId)
    | RemoveSpeaker(user: UserId)
    | Shutdown
    | Tick(now: nat, freshId: SegmentId)

  /** The first queued frame of every speaker that has one. */
  function Heads(speakers: map<UserId, SpeakerStream>): map<UserId, Frame> {
    map u | u in speakers && speakers[u].frames != [] :: speakers[u].frames[0]
  }

  function PopHeads(speakers: map<UserId, SpeakerStream>): map<UserId, SpeakerStream> {
    map u | u in speakers ::
      if speakers[u].frames == [] then speakers[u] else speakers[u].(frames := speakers[u].frames[1..])
  }

  function Identities(speakers: map<UserId, SpeakerStream>, users: set<UserId>): map<UserId, Identity> {
    map u | u in users && u in speakers :: speakers[u].identity
  }

  predicate Busy(speakers: map<UserId, SpeakerStream>) {
    exists u :: u in speakers && (speakers[u].active || speakers[u].frames != [])
  }

  function Elapsed(segment: MixedSegment, now: nat): nat {
    if now >= segment.startedAt then now - segment.startedAt else 0
  }

  predicate TimedOut(segment: MixedSegment, now: nat) {
    Elapsed(segment, now) >= segment.config.maxUtteranceSeconds * 1_000
  }

  function EndMessage(segment: MixedSegment, reason: EndReason): Input {
    End(segment.id, segment.sampleCount < FRAME_SAMPLES * 6,
        Some(VadEnd(reason, segment.sampleCount, Some(segment.sampleCount / FRAME_SAMPLES))))
  }

  /** A segment after taking in one mixed frame, with the messages sent for it. */
  ghost function AddFrame(segment: MixedSegment, heads: map<UserId, Frame>, people: map<UserId, Identity>)
      : (MixedSegment, seq<Input>)
    requires heads != map[]
  {
    AddMixed(segment, Mixed(heads), people)
  }

  function AddMixed(segment: MixedSegment, mixed: Frame, people: map<UserId, Identity>): (MixedSegment, seq<Input>) {
    var known := segment.speakers + people;
    (segment.(speakers := known, sampleCount := segment.sampleCount + |mixed|, idleTicks := 0),
     (if |known| != |segment.speakers| then [Speakers(segment.id, known.Values)] else [])
     + [PcmFrame(EncodeFrame(mixed))])
  }

  function OpenSegment(config: SessionConfig, id: SegmentId, now: nat): MixedSegment {
    MixedSegment(id, config, now, 0, 0, map[])
  }

  ghost function TickSegment(m: Mixer, now: nat, freshId: SegmentId): (Option<MixedSegment>, seq<Input>) {
    var heads := Heads(m.speakers);
    if heads != map[] then
      var people := Identities(m.speakers, heads.Keys);
      match m.segment
      case Some(segment) =>
        var (next, messages) := AddFrame(segment, heads, people);
        (Some(next), messages)
      case None =>
        var (next, messages) := AddFrame(OpenSegment(m.config, freshId, now), heads, people);
        (Some(next), [Start(freshId, Some(MixerVad), m.config)] + messages)
    else
      match m.segment
      case Some(segment) =>
        (Some(segment.(idleTicks := if Busy(PopHeads(m.speakers)) then 0 else segment.idleTicks + 1)), [])
      case None => (None, [])
  }

  /** Closes a segment that was idle long enough or has reached its longest duration. */
  function CloseIfDue(segment: Option<MixedSegment>, now: nat): (Option<MixedSegment>, seq<Input>) {
    if segment.Some? && (segment.value.idleTicks >= SEGMENT_CLOSE_TICKS || TimedOut(segment.value, now)) then
      (None, [EndMessage(segment.value, if TimedOut(segment.value, now) then MaxDuration else Silence)])
    else (segment, [])
  }

  ghost function TickStep(m: Mixer, now: nat, freshId: SegmentId): (Mixer, seq<Input>) {
    var (segment, messages) := TickSegment(m, now, freshId);
    var (kept, closing) := CloseIfDue(segment, now);
    (m.(speakers := PopHeads(m.speakers), segment := kept), messages + closing)
  }

  predicate Accepts(m: Mixer, user: UserId, bytes: seq<Byte>) {
    && !m.stopped
    && DecodeFrame(bytes).Some?
    && user in m.speakers && m.speakers[user].active
    && |m.speakers[user].frames| < MAX_QUEUED_FRAMES_PER_SPEAKER
  }

  ghost function Step(m: Mixer, e: Event): (Mixer, seq<Input>) {
    if m.stopped then (m, [])
    else match e
      case SetConfig(config) => (m.(config := config), [Configure(config)])
      case Begin(speaker) =>
        if speaker.userId.None? then (m, [])
        else
          var u := speaker.userId.value;
          var frames := if u in m.speakers then m.speakers[u].frames else [];
          (m.(speakers := m.speakers[u := SpeakerStream(speaker, true, frames)]), [])
      case Hear(user, bytes) =>
        if Accepts(m, user, bytes) then
          var stream := m.speakers[user];
          (m.(speakers := m.speakers[user := stream.(frames := stream.frames + [DecodeFrame(bytes).value])]), [])
        else (m, [])
      case Finish(user) =>
        (if user in m.speakers then m.(speakers := m.speakers[user := m.speakers[user].(active := false)]) else m, [])
      case RemoveSpeaker(user) => (m.(speakers := m.speakers - {user}), [])
      case Shutdown =>
        (m.(stopped := true, segment := None),
         if m.segment.Some? then [EndMessage(m.segment.value, Manual)] else [])
      case Tick(now, freshId) => TickStep(m, now, freshId)
  }

  // ------------------------------------------------------------- the mixer that changes

  class MixerTask {
    var config: SessionConfig
    var speakers: map<UserId, SpeakerStream>
    var segment: Option<MixedSegment>
    var stopped: bool

    function Value(): Mixer
      reads this
    {
      Mixer(config, speakers, segment, stopped)
    }

    constructor (initial: SessionConfig)
      ensures Value() == Mixer(initial, map[], None, false)
    {
      config, speakers, segment, stopped := initial, map[], None, false;
    }

    method Command(e: Event) returns (sent: seq<Input>)
      requires !stopped && !e.Tick?
      modifies this
      ensures (Value(), sent) == Step(old(Value()), e)
    {
      sent := [];
      match e
      case SetConfig(next) =>
        config := next;
        sent := [Configure(next)];
      case Begin(speaker) =>
        if speaker.userId.Some? {
          var u := speaker.userId.value;
          if u !in speakers {
            speakers := speakers[u := SpeakerStream(speaker, false, [])];
          }
          speakers := speakers[u := speakers[u].(identity := speaker, active := true)];
          ghost var frames := if u in old(speakers) then old(speakers)[u].frames else [];
          assert speakers == old(speakers)[u := SpeakerStream(speaker, true, frames)];
        }
      case Hear(user, bytes) =>
        var frame := DecodeFrame(bytes);
        if frame.Some? && user in speakers {
          var stream := speakers[user];
          if stream.active && |stream.frames| < MAX_QUEUED_FRAMES_PER_SPEAKER {
            speakers := speakers[user := stream.(frames := stream.frames + [frame.value])];
          }
        }
      case Finish(user) =>
        if user in speakers {
          speakers := speakers[user := speakers[user].(active := false)];
        }
      case RemoveSpeaker(user) =>
        speakers := speakers - {user};
      case Shutdown =>
        if segment.Some? {
          sent := [EndMessage(segment.value, Manual)];
        }
        segment, stopped := None, true;
    }

    /** Takes one frame from every speaker that has one, in the map's own order. */
    method PopFrames() returns (frames: seq<Popped>)
      modifies this`speakers
      ensures speakers == PopHeads(old(speakers))
      ensures Lists(frames, Heads(old(speakers)))
      ensures IdentifiedBy(frames, old(speakers))
    {
      ghost var was := speakers;
      frames := [];
      var pending := speakers.Keys;
      assert PopSome(was, {}) == was;
      while pending != {}
        invariant pending <= was.Keys
        invariant speakers == PopSome(was, was.Keys - pending)
        invariant Lists(frames, HeadsOf(was, was.Keys - pending))
        invariant IdentifiedBy(frames, was)
        decreases pending
      {
        var u :| u in pending;
        ghost var done := was.Keys - pending;
        pending := pending - {u};
        assert was.Keys - pending == done + {u};
        var stream := speakers[u];
        PopOne(was, done, u);
        if stream.frames != [] {
          var popped := Popped(u, stream.identity, stream.frames[0]);
          speakers := speakers[u := stream.(frames := stream.frames[1..])];
          ListsMore(frames, HeadsOf(was, done), popped);
          frames := frames + [popped];
        }
      }
      assert was.Keys - pending == was.Keys;
      assert HeadsOf(was, was.Keys) == Heads(was);
      assert PopSome(was, was.Keys) == PopHeads(was);
    }

    /** Takes the popped frames into the open segment, opening one if there is none. */
    method TakeIn(frames: seq<Popped>, ghost was: Mixer, now: nat, freshId: SegmentId) returns (sent: seq<Input>)
      requires Value() == was.(speakers := PopHeads(was.speakers))
      requires Lists(frames, Heads(was.speakers)) && IdentifiedBy(frames, was.speakers)
      requires Heads(was.speakers) != map[]
      modifies this`segment
      ensures (segment, sent) == TickSegment(was, now, freshId)
    {
      sent := [];
      if segment.None? {
        sent := [Start(freshId, Some(MixerVad), config)];
        segment := Some(OpenSegment(config, freshId, now));
      }
      ghost var current := segment.value;
      var next, messages := TakeFrames(segment.value, frames, was.speakers);
      segment := Some(next);
      TickTakes(was, now, freshId, current, next, messages);
      sent := sent + messages;
    }

    method OnTick(now: nat, freshId: SegmentId) returns (sent: seq<Input>)
      requires !stopped
      modifies this
      ensures (Value(), sent) == Step(old(Value()), Tick(now, freshId))
    {
      ghost var was := Value();
      var frames := PopFrames();
      RunningSumIsSum(frames, Heads(was.speakers), 0);
      sent := [];
      if frames != [] {
        sent := TakeIn(frames, was, now, freshId);
      } else if segment.Some? {
        var busy := Busy(speakers);
        segment := Some(segment.value.(idleTicks := if busy then 0 else segment.value.idleTicks + 1));
      }
      assert (segment, sent) == TickSegment(was, now, freshId);
      var (kept, closing) := CloseIfDue(segment, now);
      segment := kept;
      sent := sent + closing;
    }
  }

  lemma TickTakes(m: Mixer, now: nat, freshId: SegmentId, current: MixedSegment, next: MixedSegment,
                  messages: seq<Input>)
    requires Heads(m.speakers) != map[]
    requires current == if m.segment.Some? then m.segment.value else OpenSegment(m.config, freshId, now)
    requires (next, messages) == AddFrame(current, Heads(m.speakers), Identities(m.speakers, Heads(m.speakers).Keys))
    ensures TickSegment(m, now, freshId) ==
            (Some(next), (if m.segment.Some? then [] else [Start(freshId, Some(MixerVad), m.config)]) + messages)
  {
    assert [] + messages == messages;
  }

  method TakeFrames(segment: MixedSegment, frames: seq<Popped>, ghost was: map<UserId, SpeakerStream>)
      returns (next: MixedSegment, messages: seq<Input>)
    requires Lists(frames, Heads(was)) && IdentifiedBy(frames, was) && Heads(was) != map[]
    ensures (next, messages) == AddFrame(segment, Heads(was), Identities(was, Heads(was).Keys))
  {
    PeopleOfIdentities(frames, Heads(was), was);
    var mixed := MixFrames(frames, Heads(was));
    next, messages := TakeMixed(segment, frames, mixed);
  }

  method TakeMixed(segment: MixedSegment, frames: seq<Popped>, mixed: Frame)
      returns (next: MixedSegment, messages: seq<Input>)
    ensures (next, messages) == AddMixed(segment, mixed, PeopleOf(frames))
  {
    var known := Join(segment.speakers, frames);
    messages := if |known| != |segment.speakers| then [Speakers(segment.id, known.Values)] else [];
    messages := messages + [PcmFrame(EncodeFrame(mixed))];
    next := segment.(speakers := known, sampleCount := segment.sampleCount + |mixed|, idleTicks := 0);
  }

  /** Adds the frames' speakers to those known, the latest identity winning. */
  method Join(before: map<UserId, Identity>, frames: seq<Popped>) returns (known: map<UserId, Identity>)
    ensures known == before + PeopleOf(frames)
  {
    known := before;
    for k := 0 to |frames|
      invariant known == before + PeopleOf(frames[..k])
    {
      known := known[frames[k].user := frames[k].identity];
      assert frames[..k + 1][..k] == frames[..k];
    }
    assert frames[..|frames|] == frames;
  }

  function PopSome(was: map<UserId, SpeakerStream>, done: set<UserId>): map<UserId, SpeakerStream> {
    map u | u in was ::
      if u in done && was[u].frames != [] then was[u].(frames := was[u].frames[1..]) else was[u]
  }

  function HeadsOf(was: map<UserId, SpeakerStream>, done: set<UserId>): map<UserId, Frame> {
    map u | u in was && u in done && was[u].frames != [] :: was[u].frames[0]
  }

  lemma PopOne(was: map<UserId, SpeakerStream>, done: set<UserId>, u: UserId)
    requires u in was && u !in done
    ensures was[u].frames != [] ==>
      && HeadsOf(was, done + {u}) == HeadsOf(was, done)[u := was[u].frames[0]]
      && PopSome(was, done + {u}) == PopSome(was, done)[u := was[u].(frames := was[u].frames[1..])]
    ensures was[u].frames == [] ==>
      HeadsOf(was, done + {u}) == HeadsOf(was, done) && PopSome(was, done + {u}) == PopSome(was, done)
  {
  }

  ghost predicate IdentifiedBy(frames: seq<Popped>, was: map<UserId, SpeakerStream>) {
    forall k :: 0 <= k < |frames| ==> frames[k].user in was && frames[k].identity == was[frames[k].user].identity
  }

  lemma ListsMore(frames: seq<Popped>, heads: map<UserId, Frame>, popped: Popped)
    requires Lists(frames, heads) && popped.user !in heads
    ensures Lists(frames + [popped], heads[popped.user := popped.frame])
  {
    var more := frames + [popped];
    forall u | u in heads || u == popped.user
      ensures exists k :: 0 <= k < |more| && more[k].user == u
    {
      if u == popped.user {
        assert more[|frames|].user == u;
      } else {
        var k :| 0 <= k < |frames| && frames[k].user == u;
        assert more[k].user == u;
      }
    }
  }

  function PeopleOf(frames: seq<Popped>): map<UserId, Identity> {
    if frames == [] then map[]
    else PeopleOf(frames[..|frames| - 1])[frames[|frames| - 1].user := frames[|frames| - 1].identity]
  }

  /** Whatever the order, the speakers taken in are those with a frame. */
  lemma {:induction false} PeopleOfIdentities(frames: seq<Popped>, heads: map<UserId, Frame>,
                                              was: map<UserId, SpeakerStream>)
    requires Lists(frames, heads) && IdentifiedBy(frames, was)
    ensures PeopleOf(frames) == Identities(was, heads.Keys)
    decreases |frames|
  {
    if frames == [] {
      assert heads == map[];
    } else {
      ListsFront(frames, heads);
      var last := frames[|frames| - 1];
      PeopleOfIdentities(frames[..|frames| - 1], heads - {last.user}, was);
      assert Identities(was, heads.Keys) == Identities(was, (heads - {last.user}).Keys)[last.user := last.identity];
    }
  }
}
