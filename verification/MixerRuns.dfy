/** What holds of every run of the room mixer. Its output is a sequence of blocks, each a start,
    its frames and an end, under ids never used before; every frame of audio decodes to the
    mean of the frames taken at its tick; every frame accepted from a speaker is mixed, thrown
    away with the speaker, or still queued, in the order it came; and a room in which no
    stream is active any more closes its block within so many ticks. Times are those of the
    ticks: what is sent in between carries the last. */
module MixerRuns {
  import opened Audio
  import opened Common
  import opened RoomProtocol
  import opened RoomMixer

  // ---------------------------------------------------------------------------- runs

  /** The mixer after the events, from a new one. */
  ghost function After(config: SessionConfig, events: seq<Event>): Mixer {
    if events == [] then Mixer(config, map[], None, false)
    else Step(After(config, events[..|events| - 1]), events[|events| - 1]).0
  }

  function Clock(events: seq<Event>): Option<nat> {
    if events == [] then None
    else
      var last := events[|events| - 1];
      if last.Tick? then Some(last.now) else Clock(events[..|events| - 1])
  }

  function Stamp(messages: seq<Input>, at: nat): seq<Sent> {
    seq(|messages|, i requires 0 <= i < |messages| => Sent(messages[i], at))
  }

  /** The messages sent at the last event; between ticks the clock is that of the last. */
  ghost function LastSent(config: SessionConfig, events: seq<Event>): seq<Sent>
    requires events != []
  {
    var messages := Step(After(config, events[..|events| - 1]), events[|events| - 1]).1;
    Stamp(messages, Clock(events).GetOr(0))
  }

  ghost function Output(config: SessionConfig, events: seq<Event>): seq<Sent> {
    if events == [] then [] else Output(config, events[..|events| - 1]) + LastSent(config, events)
  }

  function TickIds(events: seq<Event>): set<SegmentId> {
    set e | e in events && e.Tick? :: e.freshId
  }

  /** The ids drawn at the ticks are never repeated. */
  ghost predicate FreshIds(events: seq<Event>) {
    events == [] ||
    (var front, last := events[..|events| - 1], events[|events| - 1];
     FreshIds(front) && (last.Tick? ==> last.freshId !in TickIds(front)))
  }

  // ------------------------------------------------------------------ block structure

  /** Every stream and every segment speaker is filed under its own user. */
  ghost predicate Filed(m: Mixer) {
    && (forall u :: u in m.speakers ==> m.speakers[u].identity.userId == Some(u))
    && (m.segment.Some? ==> FiledMap(m.segment.value.speakers))
  }

  ghost predicate FiledMap(people: map<UserId, Identity>) {
    forall u :: u in people ==> people[u].userId == Some(u)
  }

  /** The open segment is the open block of the trace. */
  ghost predicate Matches(segment: Option<MixedSegment>, t: Trace) {
    match segment
    case None => t.Closed?
    case Some(s) =>
      && t.Open? && t.id == s.id && t.config == s.config && t.startedAt == s.startedAt
      && s.sampleCount == FRAME_SAMPLES * t.frames
      && Users(t.announced) == s.speakers.Keys
      && FiledMap(s.speakers)
  }

  /** An open segment has had a frame. */
  ghost predicate Underway(segment: Option<MixedSegment>, t: Trace) {
    segment.Some? && t.Open? ==> t.frames > 0
  }

  lemma UsersOfValues(people: map<UserId, Identity>)
    requires FiledMap(people)
    ensures Users(people.Values) == people.Keys
  {
    forall u | u in people
      ensures u in Users(people.Values)
    {
      assert people[u] in people.Values;
    }
  }

  lemma TwoSent(t: Trace, a: seq<Input>, b: seq<Input>, at: nat)
    ensures AcceptAll(t, Stamp(a + b, at)) == AcceptAll(AcceptAll(t, Stamp(a, at)), Stamp(b, at))
  {
    assert Stamp(a + b, at) == Stamp(a, at) + Stamp(b, at);
    AcceptConcat(t, Stamp(a, at), Stamp(b, at));
  }

  lemma OneSent(t: Trace, message: Input, at: nat)
    ensures AcceptAll(t, Stamp([message], at)) == Accept(t, Sent(message, at))
  {
    var out := Stamp([message], at);
    assert out == [Sent(message, at)];
    assert AcceptAll(t, out[..0]) == t;
  }

  lemma SameSize<T>(a: set<T>, b: set<T>)
    requires a <= b && |a| == |b|
    ensures a == b
  {
    assert b == a + (b - a);
  }

  lemma KnownKeys(before: map<UserId, Identity>, people: map<UserId, Identity>)
    ensures var known := before + people;
            if |known| != |before| then before.Keys < known.Keys else before.Keys == known.Keys
  {
    var known := before + people;
    assert before.Keys <= known.Keys;
    assert |known| == |known.Keys| && |before| == |before.Keys|;
    if |known| == |before| {
      SameSize(before.Keys, known.Keys);
    }
  }

  lemma KnownUsers(before: map<UserId, Identity>, people: map<UserId, Identity>)
    requires people != map[] && FiledMap(people) && FiledMap(before)
    ensures var known := before + people;
            FiledMap(known) && Users(known.Values) == known.Keys && known.Keys != {}
  {
    var known := before + people;
    var u :| u in people;
    assert u in known.Keys;
    UsersOfValues(known);
  }

  lemma NobodyAnnounced(announced: set<Identity>)
    requires Users(announced) != {}
    ensures announced != {}
  {
    var u :| u in Users(announced);
    assert exists i :: i in announced && i.userId == Some(u);
  }

  lemma AnnounceAccepted(segment: MixedSegment, people: map<UserId, Identity>, t: Trace, now: nat)
    requires people != map[] && FiledMap(people) && Matches(Some(segment), t)
    ensures var known := segment.speakers + people;
            var messages := if |known| != |segment.speakers| then [Speakers(segment.id, known.Values)] else [];
            var next := AcceptAll(t, Stamp(messages, now));
            && next.Open? && next == t.(announced := next.announced)
            && next.announced != {} && Users(next.announced) == known.Keys
  {
    var known := segment.speakers + people;
    KnownKeys(segment.speakers, people);
    KnownUsers(segment.speakers, people);
    if |known| != |segment.speakers| {
      var message := Speakers(segment.id, known.Values);
      OneSent(t, message, now);
      NobodyAnnounced(known.Values);
      assert Accept(t, Sent(message, now)) == t.(announced := known.Values);
    } else {
      NobodyAnnounced(t.announced);
      assert Stamp([], now) == [];
    }
  }

  lemma AddFrameAccepted(segment: MixedSegment, heads: map<UserId, Frame>, people: map<UserId, Identity>,
                         t: Trace, now: nat)
    requires heads != map[] && people.Keys == heads.Keys && FiledMap(people)
    requires Matches(Some(segment), t)
    ensures var (next, messages) := AddFrame(segment, heads, people);
            var u := AcceptAll(t, Stamp(messages, now));
            && Matches(Some(next), u)
            && u == t.(frames := t.frames + 1, lastFrameAt := now, announced := u.announced)
  {
    var known := segment.speakers + people;
    var announcement := if |known| != |segment.speakers| then [Speakers(segment.id, known.Values)] else [];
    var frame := PcmFrame(EncodeFrame(Mixed(heads)));
    var u :| u in heads;
    assert u in people;
    AnnounceAccepted(segment, people, t, now);
    TwoSent(t, announcement, [frame], now);
    OneSent(AcceptAll(t, Stamp(announcement, now)), frame, now);
    DecodesEncoded(Mixed(heads));
  }

  lemma IdentitiesFiled(speakers: map<UserId, SpeakerStream>, users: set<UserId>)
    requires forall u :: u in speakers ==> speakers[u].identity.userId == Some(u)
    requires users <= speakers.Keys
    ensures FiledMap(Identities(speakers, users)) && Identities(speakers, users).Keys == users
  {
  }

  /** The frames of a tick and the start before them. */
  lemma TickSegmentAccepted(m: Mixer, t: Trace, now: nat, freshId: SegmentId)
    requires Filed(m) && Matches(m.segment, t) && Underway(m.segment, t) && freshId !in t.used
    ensures var (segment, messages) := TickSegment(m, now, freshId);
            var u := AcceptAll(t, Stamp(messages, now));
            Matches(segment, u) && Underway(segment, u) && u.used <= t.used + {freshId}
  {
    var heads := Heads(m.speakers);
    var people := Identities(m.speakers, heads.Keys);
    IdentitiesFiled(m.speakers, heads.Keys);
    if heads == map[] {
      assert Stamp([], now) == [];
    } else if m.segment.Some? {
      AddFrameAccepted(m.segment.value, heads, people, t, now);
    } else {
      var start := Start(freshId, Some(MixerVad), m.config);
      var blank := OpenSegment(m.config, freshId, now);
      var (next, messages) := AddFrame(blank, heads, people);
      var t1 := Accept(t, Sent(start, now));
      assert Users({}) == {};
      OneSent(t, start, now);
      AddFrameAccepted(blank, heads, people, t1, now);
      TwoSent(t, [start], messages, now);
    }
  }

  lemma CloseAccepted(segment: Option<MixedSegment>, t: Trace, now: nat)
    requires Matches(segment, t) && Underway(segment, t)
    ensures var (kept, messages) := CloseIfDue(segment, now);
            var u := AcceptAll(t, Stamp(messages, now));
            Matches(kept, u) && u.used == t.used && Underway(kept, u)
  {
    var (kept, messages) := CloseIfDue(segment, now);
    if messages == [] {
      assert Stamp(messages, now) == [];
    } else {
      OneSent(t, messages[0], now);
    }
  }

  lemma FiledStep(m: Mixer, e: Event)
    requires Filed(m)
    ensures Filed(Step(m, e).0)
  {
    if !m.stopped && e.Tick? {
      FiledTick(m, e.now, e.freshId);
    }
  }

  lemma FiledTick(m: Mixer, now: nat, freshId: SegmentId)
    requires Filed(m)
    ensures Filed(TickStep(m, now, freshId).0)
  {
    assert FiledMap(Identities(m.speakers, Heads(m.speakers).Keys));
  }

  lemma TickAccepted(m: Mixer, t: Trace, now: nat, freshId: SegmentId)
    requires Filed(m) && Matches(m.segment, t) && Underway(m.segment, t) && freshId !in t.used
    ensures var (next, messages) := TickStep(m, now, freshId);
            var u := AcceptAll(t, Stamp(messages, now));
            Matches(next.segment, u) && Underway(next.segment, u) && u.used <= t.used + {freshId}
  {
    var (segment, messages) := TickSegment(m, now, freshId);
    var (kept, closing) := CloseIfDue(segment, now);
    TickSegmentAccepted(m, t, now, freshId);
    CloseAccepted(segment, AcceptAll(t, Stamp(messages, now)), now);
    TwoSent(t, messages, closing, now);
  }

  /** A command that is not a tick. */
  lemma CommandAccepted(m: Mixer, t: Trace, e: Event, at: nat)
    requires Matches(m.segment, t) && Underway(m.segment, t) && !m.stopped && !e.Tick?
    ensures var (next, messages) := Step(m, e);
            var u := AcceptAll(t, Stamp(messages, at));
            Matches(next.segment, u) && Underway(next.segment, u) && u.used == t.used
  {
    var messages := Step(m, e).1;
    if messages == [] {
      assert Stamp(messages, at) == [];
    } else {
      assert messages == [messages[0]];
      OneSent(t, messages[0], at);
    }
  }

  ghost function TraceOf(config: SessionConfig, events: seq<Event>): Trace {
    AcceptAll(Closed({}), Output(config, events))
  }

  /** The mixer and the trace of its output agree. */
  ghost predicate Agree(m: Mixer, t: Trace, ids: set<SegmentId>) {
    && Filed(m) && Matches(m.segment, t) && Underway(m.segment, t) && t.used <= ids
    && (m.stopped ==> m.segment.None?)
  }

  lemma StepAgrees(m: Mixer, t: Trace, ids: set<SegmentId>, e: Event, at: nat)
    requires Agree(m, t, ids)
    requires e.Tick? ==> e.freshId !in ids && at == e.now
    ensures Agree(Step(m, e).0, AcceptAll(t, Stamp(Step(m, e).1, at)), if e.Tick? then ids + {e.freshId} else ids)
  {
    FiledStep(m, e);
    if m.stopped {
      assert Stamp([], at) == [];
    } else if e.Tick? {
      TickAccepted(m, t, e.now, e.freshId);
    } else {
      CommandAccepted(m, t, e, at);
    }
  }

  lemma {:induction false} TraceRun(config: SessionConfig, events: seq<Event>)
    requires FreshIds(events)
    ensures Agree(After(config, events), TraceOf(config, events), TickIds(events))
  {
    if events != [] {
      var front, last := events[..|events| - 1], events[|events| - 1];
      TraceRun(config, front);
      StepAgrees(After(config, front), TraceOf(config, front), TickIds(front), last, Clock(events).GetOr(0));
      AcceptConcat(Closed({}), Output(config, front), LastSent(config, events));
      TickIdsSnoc(events);
    }
  }

  lemma TickIdsSnoc(events: seq<Event>)
    requires events != []
    ensures var front, last := events[..|events| - 1], events[|events| - 1];
            TickIds(events) == if last.Tick? then TickIds(front) + {last.freshId} else TickIds(front)
  {
    assert events == events[..|events| - 1] + [events[|events| - 1]];
  }

  /** The output of every run is a sequence of blocks in the order of `Accept`; an open
      segment is the open block, and its speakers are those last announced. */
  lemma OutputIsBlocks(config: SessionConfig, events: seq<Event>)
    requires FreshIds(events)
    ensures var m := After(config, events);
            match TraceOf(config, events)
            case Closed(_) => m.segment.None?
            case Open(_, id, _, _, frames, _, announced) =>
              && m.segment.Some? && m.segment.value.id == id
              && m.segment.value.sampleCount == FRAME_SAMPLES * frames
              && m.segment.value.speakers.Keys == Users(announced)
            case Broken => false
  {
    TraceRun(config, events);
  }

  // --------------------------------------------------------------- what is in the audio

  /** What a step takes into the audio: at a tick, the frames there are. */
  ghost function NewMix(m: Mixer, e: Event): seq<map<UserId, Frame>> {
    if !m.stopped && e.Tick? && Heads(m.speakers) != map[] then [Heads(m.speakers)] else []
  }

  /** The frames taken in at each tick that had any. */
  ghost function Mixes(config: SessionConfig, events: seq<Event>): seq<map<UserId, Frame>> {
    if events == [] then []
    else
      var front := events[..|events| - 1];
      Mixes(config, front) + NewMix(After(config, front), events[|events| - 1])
  }

  function AudioOf(out: seq<Sent>): seq<seq<Byte>> {
    if out == [] then []
    else
      var message := out[|out| - 1].message;
      AudioOf(out[..|out| - 1]) + if message.PcmFrame? then [message.bytes] else []
  }

  lemma {:induction false} AudioOfConcat(a: seq<Sent>, b: seq<Sent>)
    ensures AudioOf(a + b) == AudioOf(a) + AudioOf(b)
  {
    if b == [] {
      assert a + b == a;
    } else {
      AudioOfConcat(a, b[..|b| - 1]);
      assert (a + b)[..|a + b| - 1] == a + b[..|b| - 1];
    }
  }

  lemma AudioOfTwo(a: seq<Input>, b: seq<Input>, at: nat)
    ensures AudioOf(Stamp(a + b, at)) == AudioOf(Stamp(a, at)) + AudioOf(Stamp(b, at))
  {
    assert Stamp(a + b, at) == Stamp(a, at) + Stamp(b, at);
    AudioOfConcat(Stamp(a, at), Stamp(b, at));
  }

  lemma AudioOfOne(message: Input, at: nat)
    ensures AudioOf(Stamp([message], at)) == if message.PcmFrame? then [message.bytes] else []
  {
    var out := Stamp([message], at);
    assert out == [Sent(message, at)] && AudioOf(out[..0]) == [];
  }

  lemma AudioOfFrame(segment: MixedSegment, heads: map<UserId, Frame>, people: map<UserId, Identity>, at: nat)
    requires heads != map[]
    ensures AudioOf(Stamp(AddFrame(segment, heads, people).1, at)) == [EncodeFrame(Mixed(heads))]
  {
    var known := segment.speakers + people;
    var announcement := if |known| != |segment.speakers| then [Speakers(segment.id, known.Values)] else [];
    AudioOfTwo(announcement, [PcmFrame(EncodeFrame(Mixed(heads)))], at);
    AudioOfOne(PcmFrame(EncodeFrame(Mixed(heads))), at);
    if announcement == [] {
      assert Stamp(announcement, at) == [];
    } else {
      AudioOfOne(announcement[0], at);
    }
  }

  lemma AudioOfTick(m: Mixer, now: nat, freshId: SegmentId, at: nat)
    ensures AudioOf(Stamp(TickStep(m, now, freshId).1, at)) ==
            if Heads(m.speakers) != map[] then [EncodeFrame(Mixed(Heads(m.speakers)))] else []
  {
    var (segment, messages) := TickSegment(m, now, freshId);
    var closing := CloseIfDue(segment, now).1;
    AudioOfTwo(messages, closing, at);
    if closing == [] {
      assert Stamp(closing, at) == [];
    } else {
      AudioOfOne(closing[0], at);
    }
    AudioOfSegment(m, now, freshId, at);
  }

  lemma AudioOfSegment(m: Mixer, now: nat, freshId: SegmentId, at: nat)
    ensures AudioOf(Stamp(TickSegment(m, now, freshId).1, at)) ==
            if Heads(m.speakers) != map[] then [EncodeFrame(Mixed(Heads(m.speakers)))] else []
  {
    var heads := Heads(m.speakers);
    var people := Identities(m.speakers, heads.Keys);
    if heads == map[] {
      assert Stamp(TickSegment(m, now, freshId).1, at) == [];
    } else if m.segment.Some? {
      AudioOfFrame(m.segment.value, heads, people, at);
    } else {
      var start := Start(freshId, Some(MixerVad), m.config);
      var blank := OpenSegment(m.config, freshId, now);
      AudioOfFrame(blank, heads, people, at);
      AudioOfTwo([start], AddFrame(blank, heads, people).1, at);
      AudioOfOne(start, at);
    }
  }

  lemma AudioOfStep(m: Mixer, e: Event, at: nat)
    ensures AudioOf(Stamp(Step(m, e).1, at)) ==
            if !m.stopped && e.Tick? && Heads(m.speakers) != map[] then [EncodeFrame(Mixed(Heads(m.speakers)))] else []
  {
    if !m.stopped && e.Tick? {
      AudioOfTick(m, e.now, e.freshId, at);
    } else {
      AudioOfCommand(m, e, at);
    }
  }

  lemma AudioOfCommand(m: Mixer, e: Event, at: nat)
    requires m.stopped || !e.Tick?
    ensures AudioOf(Stamp(Step(m, e).1, at)) == []
  {
    var messages := Step(m, e).1;
    if messages == [] {
      assert Stamp(messages, at) == [];
    } else {
      AudioOfOne(messages[0], at);
      assert messages == [messages[0]];
    }
  }

  /** The audio sent, frame by frame, decodes to the mean of the frames taken in at the
      tick: as many frames as ticks that had any, in their order. */
  lemma {:induction false} AudioIsMean(config: SessionConfig, events: seq<Event>)
    ensures var audio := AudioOf(Output(config, events));
            && |audio| == |Mixes(config, events)|
            && forall k :: 0 <= k < |audio| ==>
                 DecodeFrame(audio[k]).Some? && IsMean(DecodeFrame(audio[k]).value, Mixes(config, events)[k])
  {
    if events != [] {
      var front, last := events[..|events| - 1], events[|events| - 1];
      var m := After(config, front);
      AudioIsMean(config, front);
      AudioOfConcat(Output(config, front), LastSent(config, events));
      AudioOfStep(m, last, Clock(events).GetOr(0));
      if Heads(m.speakers) != map[] {
        DecodesEncoded(Mixed(Heads(m.speakers)));
      }
    }
  }

  // ----------------------------------------------------------------------- conservation

  datatype Fate = WasMixed(frame: Frame) | WasDropped(frame: Frame)

  ghost function Queue(m: Mixer, u: UserId): seq<Frame> {
    if u in m.speakers then m.speakers[u].frames else []
  }

  ghost function NewlyAccepted(m: Mixer, e: Event, u: UserId): seq<Frame> {
    if e.Hear? && e.user == u && Accepts(m, u, e.bytes) then [DecodeFrame(e.bytes).value] else []
  }

  ghost function NewFates(m: Mixer, e: Event, u: UserId): seq<Fate> {
    if m.stopped then []
    else if e.Tick? && Queue(m, u) != [] then [WasMixed(Queue(m, u)[0])]
    else if e == RemoveSpeaker(u) then
      seq(|Queue(m, u)|, i requires 0 <= i < |Queue(m, u)| => WasDropped(Queue(m, u)[i]))
    else []
  }

  /** The frames of a speaker that were accepted, in order. */
  ghost function Accepted(config: SessionConfig, events: seq<Event>, u: UserId): seq<Frame> {
    if events == [] then []
    else
      var front := events[..|events| - 1];
      Accepted(config, front, u) + NewlyAccepted(After(config, front), events[|events| - 1], u)
  }

  /** What became of a speaker's frames, in the order it happened. */
  ghost function Fates(config: SessionConfig, events: seq<Event>, u: UserId): seq<Fate> {
    if events == [] then []
    else
      var front := events[..|events| - 1];
      Fates(config, front, u) + NewFates(After(config, front), events[|events| - 1], u)
  }

  ghost function FatedFrames(fates: seq<Fate>): seq<Frame> {
    seq(|fates|, i requires 0 <= i < |fates| => fates[i].frame)
  }

  ghost function MixedFates(fates: seq<Fate>): seq<Frame> {
    if fates == [] then []
    else MixedFates(fates[..|fates| - 1]) + match fates[|fates| - 1] case WasMixed(f) => [f] case WasDropped(_) => []
  }

  /** A speaker's share of the mixes. */
  ghost function Contributions(mixes: seq<map<UserId, Frame>>, u: UserId): seq<Frame> {
    if mixes == [] then []
    else
      var last := mixes[|mixes| - 1];
      Contributions(mixes[..|mixes| - 1], u) + if u in last then [last[u]] else []
  }

  lemma {:induction false} MixedFatesConcat(a: seq<Fate>, b: seq<Fate>)
    ensures MixedFates(a + b) == MixedFates(a) + MixedFates(b)
  {
    if b == [] {
      assert a + b == a;
    } else {
      MixedFatesConcat(a, b[..|b| - 1]);
      assert (a + b)[..|a + b| - 1] == a + b[..|b| - 1];
    }
  }

  lemma {:induction false} DroppedNotMixed(fates: seq<Fate>)
    requires forall i :: 0 <= i < |fates| ==> fates[i].WasDropped?
    ensures MixedFates(fates) == []
  {
    if fates != [] {
      DroppedNotMixed(fates[..|fates| - 1]);
    }
  }

  lemma {:induction false} ContributionsConcat(a: seq<map<UserId, Frame>>, b: seq<map<UserId, Frame>>, u: UserId)
    ensures Contributions(a + b, u) == Contributions(a, u) + Contributions(b, u)
  {
    if b == [] {
      assert a + b == a;
    } else {
      ContributionsConcat(a, b[..|b| - 1], u);
      assert (a + b)[..|a + b| - 1] == a + b[..|b| - 1];
    }
  }

  /** One step moves frames of a speaker along, without loss and in order. */
  lemma QueueStep(m: Mixer, e: Event, u: UserId)
    ensures Queue(m, u) + NewlyAccepted(m, e, u) == FatedFrames(NewFates(m, e, u)) + Queue(Step(m, e).0, u)
    ensures |Queue(m, u)| <= MAX_QUEUED_FRAMES_PER_SPEAKER ==> |Queue(Step(m, e).0, u)| <= MAX_QUEUED_FRAMES_PER_SPEAKER
  {
    if !m.stopped && e.Tick? {
      QueueTick(m, e.now, e.freshId, u);
    } else {
      QueueCommand(m, e, u);
    }
  }

  lemma QueueCommand(m: Mixer, e: Event, u: UserId)
    requires m.stopped || !e.Tick?
    ensures Queue(Step(m, e).0, u) ==
            if e == RemoveSpeaker(u) && !m.stopped then [] else Queue(m, u) + NewlyAccepted(m, e, u)
    ensures |NewlyAccepted(m, e, u)| > 0 ==> |Queue(m, u)| < MAX_QUEUED_FRAMES_PER_SPEAKER
  {
  }

  lemma QueueTick(m: Mixer, now: nat, freshId: SegmentId, u: UserId)
    ensures Queue(TickStep(m, now, freshId).0, u) == if Queue(m, u) == [] then [] else Queue(m, u)[1..]
  {
  }

  lemma MixedStep(m: Mixer, e: Event, u: UserId)
    ensures MixedFates(NewFates(m, e, u)) == Contributions(NewMix(m, e), u)
  {
    var fates := NewFates(m, e, u);
    assert u in Heads(m.speakers) <==> Queue(m, u) != [];
    assert MixedFates(fates[..0]) == [] && Contributions(NewMix(m, e)[..0], u) == [];
    if e.RemoveSpeaker? {
      DroppedNotMixed(fates);
    }
  }

  /** First in, first out, nothing lost: the frames accepted from a speaker are those
      mixed or dropped so far followed by those still queued, at most 48; and those mixed
      are the speaker's share of the audio. */
  lemma {:induction false} FramesConserved(config: SessionConfig, events: seq<Event>, u: UserId)
    ensures var fates := Fates(config, events, u);
            var queue := Queue(After(config, events), u);
            && Accepted(config, events, u) == FatedFrames(fates) + queue
            && |queue| <= 48
            && MixedFates(fates) == Contributions(Mixes(config, events), u)
  {
    if events != [] {
      var front, last := events[..|events| - 1], events[|events| - 1];
      var m := After(config, front);
      FramesConserved(config, front, u);
      QueueStep(m, last, u);
      MixedStep(m, last, u);
      MixedFatesConcat(Fates(config, front, u), NewFates(m, last, u));
      ContributionsConcat(Mixes(config, front), NewMix(m, last), u);
      FatedConcat(Fates(config, front, u), NewFates(m, last, u));
      Regroup(FatedFrames(Fates(config, front, u)), Queue(m, u), NewlyAccepted(m, last, u),
              FatedFrames(NewFates(m, last, u)), Queue(Step(m, last).0, u));
    }
  }

  lemma FatedConcat(a: seq<Fate>, b: seq<Fate>)
    ensures FatedFrames(a + b) == FatedFrames(a) + FatedFrames(b)
  {
  }

  lemma Regroup<T>(done: seq<T>, queue: seq<T>, more: seq<T>, gone: seq<T>, rest: seq<T>)
    requires queue + more == gone + rest
    ensures done + queue + more == done + gone + rest
  {
    assert done + queue + more == done + (queue + more);
    assert done + gone + rest == done + (gone + rest);
  }

  // ---------------------------------------------------------------------- bounded close

  /** Nobody is speaking, and within `n` ticks the queues are empty and the segment has
      been idle long enough. */
  ghost predicate QuietWithin(m: Mixer, n: int) {
    && (forall u :: u in m.speakers ==> !m.speakers[u].active)
    && (|| (n >= SEGMENT_CLOSE_TICKS
            && forall u :: u in m.speakers ==> |m.speakers[u].frames| <= n - SEGMENT_CLOSE_TICKS)
        || ((forall u :: u in m.speakers ==> m.speakers[u].frames == [])
            && (m.segment.Some? ==> SEGMENT_CLOSE_TICKS - m.segment.value.idleTicks <= n)))
  }

  lemma QuietTick(m: Mixer, n: nat, now: nat, freshId: SegmentId)
    requires QuietWithin(m, n)
    ensures QuietWithin(TickStep(m, now, freshId).0, Max(n - 1, 0))
  {
    var heads := Heads(m.speakers);
    if forall u :: u in m.speakers ==> m.speakers[u].frames == [] {
      assert heads == map[];
      assert !Busy(PopHeads(m.speakers));
    }
  }

  ghost predicate AllTicks(events: seq<Event>) {
    forall i :: 0 <= i < |events| ==> events[i].Tick?
  }

  ghost function TickOn(m: Mixer, ticks: seq<Event>): Mixer {
    if ticks == [] then m else Step(TickOn(m, ticks[..|ticks| - 1]), ticks[|ticks| - 1]).0
  }

  lemma {:induction false} QuietTicks(m: Mixer, n: nat, ticks: seq<Event>)
    requires QuietWithin(m, n) && !m.stopped && AllTicks(ticks)
    ensures QuietWithin(TickOn(m, ticks), Max(n - |ticks|, 0)) && !TickOn(m, ticks).stopped
  {
    if ticks != [] {
      var front, last := ticks[..|ticks| - 1], ticks[|ticks| - 1];
      QuietTicks(m, n, front);
      QuietTick(TickOn(m, front), Max(n - |front|, 0), last.now, last.freshId);
    }
  }

  lemma {:induction false} AfterConcat(config: SessionConfig, events: seq<Event>, ticks: seq<Event>)
    ensures After(config, events + ticks) == TickOn(After(config, events), ticks)
  {
    if ticks == [] {
      assert events + ticks == events;
    } else {
      AfterConcat(config, events, ticks[..|ticks| - 1]);
      assert (events + ticks)[..|events + ticks| - 1] == events + ticks[..|ticks| - 1];
    }
  }

  lemma {:induction false} OpenNotIdle(config: SessionConfig, events: seq<Event>)
    ensures var m := After(config, events); m.segment.Some? ==> m.segment.value.idleTicks < SEGMENT_CLOSE_TICKS
  {
    if events != [] {
      OpenNotIdle(config, events[..|events| - 1]);
      StepNotIdle(After(config, events[..|events| - 1]), events[|events| - 1]);
    }
  }

  lemma StepNotIdle(m: Mixer, e: Event)
    requires m.segment.Some? ==> m.segment.value.idleTicks < SEGMENT_CLOSE_TICKS
    ensures var next := Step(m, e).0; next.segment.Some? ==> next.segment.value.idleTicks < SEGMENT_CLOSE_TICKS
  {
    if !m.stopped && e.Tick? {
      var segment := TickSegment(m, e.now, e.freshId).0;
      assert CloseIfDue(segment, e.now).0.Some? ==> CloseIfDue(segment, e.now).0 == segment;
    }
  }

  /** Once nobody is speaking and no more commands come, after 48 + 12 ticks and ever
      after no segment is open and nothing is queued. */
  lemma ClosesOnceInactive(config: SessionConfig, events: seq<Event>, ticks: seq<Event>)
    requires AllTicks(ticks) && |ticks| >= MAX_QUEUED_FRAMES_PER_SPEAKER + SEGMENT_CLOSE_TICKS
    requires var m := After(config, events); !m.stopped && forall u :: u in m.speakers ==> !m.speakers[u].active
    ensures var m := After(config, events + ticks);
            m.segment.None? && forall u :: u in m.speakers ==> m.speakers[u].frames == []
  {
    var m := After(config, events);
    var n := MAX_QUEUED_FRAMES_PER_SPEAKER + SEGMENT_CLOSE_TICKS;
    forall u | u in m.speakers
      ensures |m.speakers[u].frames| <= MAX_QUEUED_FRAMES_PER_SPEAKER
    {
      FramesConserved(config, events, u);
      assert Queue(m, u) == m.speakers[u].frames;
    }
    QuietTicks(m, n, ticks);
    AfterConcat(config, events, ticks);
    OpenNotIdle(config, events + ticks);
  }
}
