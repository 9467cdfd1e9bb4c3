/** The mixer and the session together. The mixer's messages reach the session in order; each
    may take any time to be received. */
module RoomPipeline {
  import opened Audio
  import opened Common
  import opened RoomProtocol
  import opened PipelineSession
  import M = MixerRuns
  import P = MixerPacing
  import S = MixerSpeakers
  import RoomMixer

  // The block that is open at the mixer is the segment active at the session, if its
  // configuration is supported; how much of it the session has, and what is made of it,
  // depends on when its messages come, but who spoke in it does not.

  // ------------------------------------------------------------- frames per segment

  /** As many 32 ms periods as the longest duration touches, and one frame more. */
  function MostFrames(seconds: nat): nat {
    (seconds * 1_000 + 31) / 32 + 2
  }

  ghost predicate Paced(t: Trace) {
    t.Open? ==>
      && t.startedAt <= t.lastFrameAt
      && t.frames <= Slot(t.lastFrameAt) - Slot(t.startedAt) + 1
      && t.frames <= MostFrames(t.config.maxUtteranceSeconds)
  }

  lemma {:induction false} PacedRun(out: seq<Sent>)
    requires !AcceptAll(Closed({}), out).Broken? && AllOnTime(Closed({}), out)
    ensures Paced(AcceptAll(Closed({}), out))
  {
    if out != [] {
      PacedRun(out[..|out| - 1]);
    }
  }

  /** In every run of the mixer the open segment has at most `MostFrames` frames, which is
      below the session's hard limit. */
  lemma SegmentBelowHardLimit(config: SessionConfig, events: seq<RoomMixer.Event>)
    requires P.WellTimed(events)
    ensures var segment := M.After(config, events).segment;
            segment.Some? ==>
              && segment.value.sampleCount <= FRAME_SAMPLES * MostFrames(segment.value.config.maxUtteranceSeconds)
              && segment.value.sampleCount < HardLimit(segment.value.config)
  {
    M.TraceRun(config, events);
    P.FramesOnTime(config, events);
    PacedRun(M.Output(config, events));
  }

  // -------------------------------------------------------------- one outcome for each

  /** The same messages, received at some time. */
  ghost predicate Delivered(out: seq<Sent>, inputs: seq<Sent>) {
    |out| == |inputs| && forall i :: 0 <= i < |out| ==> inputs[i].message == out[i].message
  }

  /** The segments the mixer opened with a configuration the session supports. */
  function Opened(out: seq<Sent>): seq<SegmentId> {
    if out == [] then []
    else
      var last := out[|out| - 1].message;
      Opened(out[..|out| - 1]) + if last.Start? && ValidConfig(last.config) then [last.tcId] else []
  }

  /** Those of them that it has closed. */
  ghost function ClosedIds(out: seq<Sent>): seq<SegmentId> {
    if out == [] then []
    else
      var front, last := out[..|out| - 1], out[|out| - 1].message;
      var t := AcceptAll(Closed({}), front);
      ClosedIds(front) + if last.End? && t.Open? && ValidConfig(t.config) then [last.tcId] else []
  }

  /** The block that is open at the mixer is the segment active at the session, if its
      configuration is supported. */
  ghost predicate Linked(t: Trace, s: Session) {
    match t
    case Broken => false
    case Closed(used) => s.active.None? && s.seen <= used
    case Open(used, id, config, _, frames, _, _) =>
      && s.seen <= used
      && (s.active.Some? <==> ValidConfig(config))
      && (s.active.Some? ==>
            && s.active.value.tcId == id && s.active.value.config == config
            && |s.active.value.audio| <= FRAME_SAMPLES * frames)
  }

  lemma LinkedFrame(t: Trace, s: Session, sent: Sent, at: nat)
    requires SessionInv(s) && Linked(t, s) && Paced(Accept(t, sent)) && !Accept(t, sent).Broken?
    requires sent.message.PcmFrame? && s.active.Some?
    ensures var next := Receive(s, sent.message, at);
            && Linked(Accept(t, sent), next)
            && next.started == s.started && next.outcomes == s.outcomes
            && next.warnings <= s.warnings + [TooFast]
            && (|s.active.value.audio| + FRAME_SAMPLES <= RealtimeLimit(Elapsed(s.active.value, at)) ==>
                  next == s.(active := Some(Extend(s.active.value, DecodeFrame(sent.message.bytes).value))))
  {
    var segment := s.active.value;
    var frame := DecodeFrame(sent.message.bytes).value;
    assert FRAME_SAMPLES * (t.frames + 1) <= FRAME_SAMPLES * MostFrames(segment.config.maxUtteranceSeconds);
    assert Accepted(segment, frame) == frame;
    ExtendKeeps(segment, frame, s.newVoice);
  }

  lemma LinkedStep(t: Trace, s: Session, sent: Sent, at: nat)
    requires SessionInv(s) && Linked(t, s) && Paced(Accept(t, sent)) && !Accept(t, sent).Broken?
    ensures var next := Receive(s, sent.message, at);
            && Linked(Accept(t, sent), next)
            && next.started == s.started +
                 (if sent.message.Start? && ValidConfig(sent.message.config) then [sent.message.tcId] else [])
            && OutcomeIds(next.outcomes) == OutcomeIds(s.outcomes) +
                 (if sent.message.End? && t.Open? && ValidConfig(t.config) then [sent.message.tcId] else [])
            && (LimitReached in next.warnings ==> LimitReached in s.warnings)
  {
    if sent.message.PcmFrame? && s.active.Some? {
      LinkedFrame(t, s, sent, at);
    }
  }

  lemma {:induction false} LinkedRun(newVoice: Voice, config: SessionConfig, out: seq<Sent>, inputs: seq<Sent>)
    requires newVoice.fadeIn >= 1 && Delivered(out, inputs)
    requires !AcceptAll(Closed({}), out).Broken? && AllOnTime(Closed({}), out)
    ensures var s := ReceiveAll(NewSession(newVoice, config), inputs);
            && SessionInv(s) && Linked(AcceptAll(Closed({}), out), s)
            && s.started == Opened(out) && OutcomeIds(s.outcomes) == ClosedIds(out)
            && LimitReached !in s.warnings
  {
    ReceiveAllKeeps(NewSession(newVoice, config), inputs);
    if out != [] {
      var front, last := out[..|out| - 1], out[|out| - 1];
      LinkedRun(newVoice, config, front, inputs[..|out| - 1]);
      ReceiveAllKeeps(NewSession(newVoice, config), inputs[..|out| - 1]);
      PacedRun(out);
      LinkedStep(AcceptAll(Closed({}), front), ReceiveAll(NewSession(newVoice, config), inputs[..|out| - 1]),
                 last, inputs[|out| - 1].at);
    }
  }

  /** For every run of the mixer and any delays on the way: the session accepts exactly the
      segments opened with a supported configuration; each that the mixer closed has got
      exactly one outcome, in order, at most the open one has none, and no segment was cut
      off by the hard limit. */
  lemma EverySegmentOneOutcome(newVoice: Voice, roomConfig: SessionConfig, sessionConfig: SessionConfig,
                               events: seq<RoomMixer.Event>, inputs: seq<Sent>)
    requires newVoice.fadeIn >= 1 && P.WellTimed(events)
    requires Delivered(M.Output(roomConfig, events), inputs)
    ensures var out := M.Output(roomConfig, events);
            var s := ReceiveAll(NewSession(newVoice, sessionConfig), inputs);
            && s.started == Opened(out) && DistinctIds(s.started)
            && OutcomeIds(s.outcomes) == ClosedIds(out)
            && |s.started| == |s.outcomes| + (if s.active.Some? then 1 else 0)
            && (M.After(roomConfig, events).segment.None? ==> s.active.None?)
            && LimitReached !in s.warnings
  {
    M.TraceRun(roomConfig, events);
    P.FramesOnTime(roomConfig, events);
    LinkedRun(newVoice, sessionConfig, M.Output(roomConfig, events), inputs);
  }

  // ---------------------------------------------------------- when messages are prompt

  const PROMPT_MS: nat := 1_000

  /** Nothing arrives before it was sent, and a start at most a second after. */
  ghost predicate Prompt(out: seq<Sent>, inputs: seq<Sent>) {
    && Delivered(out, inputs)
    && forall i :: 0 <= i < |out| ==>
         out[i].at <= inputs[i].at && (out[i].message.Start? ==> inputs[i].at <= out[i].at + PROMPT_MS)
  }

  /** The audio of the block that is open. */
  function BlockAudio(out: seq<Sent>): seq<Sample> {
    if out == [] then []
    else
      var front, last := out[..|out| - 1], out[|out| - 1].message;
      if last.Start? then []
      else if last.PcmFrame? then BlockAudio(front) + DecodeFrame(last.bytes).GetOr([])
      else BlockAudio(front)
  }

  /** What should become of a block. */
  function BlockOutcome(newVoice: Voice, id: SegmentId, frames: nat, received: seq<Sample>,
                        speakers: set<Identity>): Outcome
    requires newVoice.fadeIn >= 1
  {
    var cleaned := Cleaned(newVoice, received);
    if frames < 6 then Discarded(id, SilentVad)
    else if AcceptsAsr(Assess(cleaned)) then Queued(id, cleaned, speakers, cleaned, false)
    else Discarded(id, TooQuiet)
  }

  ghost function BlockOutcomes(newVoice: Voice, out: seq<Sent>): seq<Outcome>
    requires newVoice.fadeIn >= 1
  {
    if out == [] then []
    else
      var front, last := out[..|out| - 1], out[|out| - 1].message;
      var t := AcceptAll(Closed({}), front);
      BlockOutcomes(newVoice, front) +
      if last.End? && t.Open? && ValidConfig(t.config)
      then [BlockOutcome(newVoice, t.id, t.frames, BlockAudio(front), t.announced)] else []
  }

  /** The active segment has all of the open block. */
  ghost predicate Complete(t: Trace, s: Session, received: seq<Sample>) {
    t.Open? && s.active.Some? ==>
      var segment := s.active.value;
      && segment.received == received && |segment.audio| == FRAME_SAMPLES * t.frames
      && segment.speakers == t.announced
      && segment.startedAt <= t.startedAt + PROMPT_MS
  }

  ghost predicate Undisturbed(warnings: seq<Warning>) {
    TooFast !in warnings && CountMismatch !in warnings && LimitReached !in warnings
  }

  /** A prompt frame is never ahead of the realtime limit. */
  lemma FrameInTime(t: Trace, segment: Segment, sent: Sent, at: nat)
    requires t.Open? && Paced(t) && Paced(Accept(t, sent)) && sent.message.PcmFrame? && !Accept(t, sent).Broken?
    requires |segment.audio| == FRAME_SAMPLES * t.frames
    requires segment.startedAt <= t.startedAt + PROMPT_MS && sent.at <= at
    ensures |segment.audio| + FRAME_SAMPLES <= RealtimeLimit(Elapsed(segment, at))
  {
    var k := t.frames;
    assert k <= Slot(sent.at) - Slot(t.startedAt);
    assert sent.at >= 32 * Slot(sent.at) && t.startedAt <= 32 * Slot(t.startedAt) + 31;
    assert at - segment.startedAt >= 32 * k - 31 - PROMPT_MS;
  }

  lemma CompleteStep(t: Trace, s: Session, received: seq<Sample>, sent: Sent, at: nat)
    requires SessionInv(s) && Linked(t, s) && Complete(t, s, received) && Undisturbed(s.warnings)
    requires Paced(t) && Paced(Accept(t, sent)) && !Accept(t, sent).Broken?
    requires sent.at <= at && (sent.message.Start? ==> at <= sent.at + PROMPT_MS)
    ensures var next := Receive(s, sent.message, at);
            && Complete(Accept(t, sent), next,
                        if sent.message.Start? then []
                        else if sent.message.PcmFrame? then received + DecodeFrame(sent.message.bytes).GetOr([])
                        else received)
            && Undisturbed(next.warnings)
            && next.outcomes == s.outcomes +
                 (if sent.message.End? && t.Open? && ValidConfig(t.config)
                  then [BlockOutcome(s.newVoice, t.id, t.frames, received, t.announced)] else [])
  {
    if sent.message.PcmFrame? && s.active.Some? {
      FrameInTime(t, s.active.value, sent, at);
      LinkedFrame(t, s, sent, at);
      ExtendKeeps(s.active.value, DecodeFrame(sent.message.bytes).value, s.newVoice);
    }
  }

  lemma {:induction false} CompleteRun(newVoice: Voice, config: SessionConfig, out: seq<Sent>, inputs: seq<Sent>)
    requires newVoice.fadeIn >= 1 && Prompt(out, inputs)
    requires !AcceptAll(Closed({}), out).Broken? && AllOnTime(Closed({}), out)
    ensures var s := ReceiveAll(NewSession(newVoice, config), inputs);
            && Complete(AcceptAll(Closed({}), out), s, BlockAudio(out))
            && Undisturbed(s.warnings) && s.outcomes == BlockOutcomes(newVoice, out)
  {
    if out != [] {
      var front, last := out[..|out| - 1], out[|out| - 1];
      var before := inputs[..|out| - 1];
      CompleteRun(newVoice, config, front, before);
      LinkedRun(newVoice, config, front, before);
      PacedRun(front);
      PacedRun(out);
      CompleteStep(AcceptAll(Closed({}), front), ReceiveAll(NewSession(newVoice, config), before),
                   BlockAudio(front), last, inputs[|out| - 1].at);
    }
  }

  /** When starts are received within a second, nothing is dropped, no count differs, and
      every closed block with a supported configuration is handed on for recognition, as
      its cleaned audio with its announced speakers, exactly when it has six frames and
      passes the quality gate. */
  lemma PromptBlocksHandedOn(newVoice: Voice, roomConfig: SessionConfig, sessionConfig: SessionConfig,
                             events: seq<RoomMixer.Event>, inputs: seq<Sent>)
    requires newVoice.fadeIn >= 1 && P.WellTimed(events)
    requires Prompt(M.Output(roomConfig, events), inputs)
    ensures var s := ReceiveAll(NewSession(newVoice, sessionConfig), inputs);
            && s.outcomes == BlockOutcomes(newVoice, M.Output(roomConfig, events))
            && Undisturbed(s.warnings)
  {
    M.TraceRun(roomConfig, events);
    P.FramesOnTime(roomConfig, events);
    CompleteRun(newVoice, sessionConfig, M.Output(roomConfig, events), inputs);
  }

  // ------------------------------------------------------------- who is handed on, whenever

  /** The outcome is that of the block ended by message `i`, and its speakers are the users
      mixed into that block. */
  ghost predicate EndedAt(out: seq<Sent>, mixes: seq<map<UserId, RoomMixer.Frame>>, i: nat, outcome: Outcome) {
    && i < |out| && out[i].message.End? && outcome.id == out[i].message.tcId
    && (outcome.Queued? ==> Users(outcome.speakers) == S.MixedIn(out[..i + 1], mixes))
  }

  ghost predicate Ended(out: seq<Sent>, mixes: seq<map<UserId, RoomMixer.Frame>>, outcome: Outcome) {
    exists i: nat :: EndedAt(out, mixes, i, outcome)
  }

  ghost predicate AllEnded(out: seq<Sent>, mixes: seq<map<UserId, RoomMixer.Frame>>, outcomes: seq<Outcome>) {
    forall j :: 0 <= j < |outcomes| ==> Ended(out, mixes, outcomes[j])
  }

  lemma EndedStays(out: seq<Sent>, mixes: seq<map<UserId, RoomMixer.Frame>>, outcome: Outcome)
    requires out != [] && Ended(out[..|out| - 1], mixes, outcome)
    ensures Ended(out, mixes, outcome)
  {
    var i: nat :| EndedAt(out[..|out| - 1], mixes, i, outcome);
    assert out[..|out| - 1][..i + 1] == out[..i + 1];
    assert EndedAt(out, mixes, i, outcome);
  }

  lemma EndedNow(out: seq<Sent>, mixes: seq<map<UserId, RoomMixer.Frame>>, outcome: Outcome)
    requires out != [] && S.WellAnnounced(out, mixes) && out[|out| - 1].message.End?
    requires var t := AcceptAll(Closed({}), out[..|out| - 1]);
             t.Open? && outcome.id == out[|out| - 1].message.tcId && OutcomeOf(t, outcome)
    ensures Ended(out, mixes, outcome)
  {
    assert out[..|out| - 1 + 1] == out;
    assert EndedAt(out, mixes, |out| - 1, outcome);
  }

  /** The active segment knows the speakers last announced. */
  ghost predicate Informed(t: Trace, s: Session) {
    t.Open? && s.active.Some? ==> s.active.value.speakers == t.announced
  }

  ghost predicate OutcomeOf(t: Trace, outcome: Outcome)
    requires t.Open?
  {
    outcome.id == t.id && (outcome.Queued? ==> outcome.speakers == t.announced)
  }

  /** However late a message is received, only an end gives an outcome, with the speakers
      last announced: audio may be dropped, announcements are not. */
  lemma InformedStep(t: Trace, s: Session, sent: Sent, at: nat)
    requires SessionInv(s) && Linked(t, s) && Informed(t, s)
    requires Paced(Accept(t, sent)) && !Accept(t, sent).Broken?
    ensures var next := Receive(s, sent.message, at);
            && Informed(Accept(t, sent), next)
            && (|| next.outcomes == s.outcomes
                || (&& sent.message.End? && t.Open? && sent.message.tcId == t.id
                    && |next.outcomes| == |s.outcomes| + 1 && next.outcomes[..|s.outcomes|] == s.outcomes
                    && OutcomeOf(t, next.outcomes[|s.outcomes|])))
  {
    if sent.message.PcmFrame? && s.active.Some? {
      LinkedFrame(t, s, sent, at);
      var frame := DecodeFrame(sent.message.bytes).value;
      ExtendKeeps(s.active.value, frame, s.newVoice);
    }
  }

  lemma {:induction false} InformedRun(newVoice: Voice, config: SessionConfig, out: seq<Sent>, inputs: seq<Sent>,
                                       mixes: seq<map<UserId, RoomMixer.Frame>>)
    requires newVoice.fadeIn >= 1 && Delivered(out, inputs) && S.WellAnnounced(out, mixes)
    requires !AcceptAll(Closed({}), out).Broken? && AllOnTime(Closed({}), out)
    ensures var s := ReceiveAll(NewSession(newVoice, config), inputs);
            Informed(AcceptAll(Closed({}), out), s) && AllEnded(out, mixes, s.outcomes)
  {
    if out != [] {
      var front, last := out[..|out| - 1], out[|out| - 1];
      var before := inputs[..|out| - 1];
      var s := ReceiveAll(NewSession(newVoice, config), before);
      InformedRun(newVoice, config, front, before, mixes);
      LinkedRun(newVoice, config, front, before);
      PacedRun(out);
      InformedStep(AcceptAll(Closed({}), front), s, last, inputs[|out| - 1].at);
      EndedMore(out, mixes, s.outcomes, Receive(s, last.message, inputs[|out| - 1].at).outcomes);
    }
  }

  lemma EndedMore(out: seq<Sent>, mixes: seq<map<UserId, RoomMixer.Frame>>, before: seq<Outcome>, after: seq<Outcome>)
    requires out != [] && S.WellAnnounced(out, mixes) && AllEnded(out[..|out| - 1], mixes, before)
    requires var t := AcceptAll(Closed({}), out[..|out| - 1]);
             || after == before
             || (&& out[|out| - 1].message.End? && t.Open? && out[|out| - 1].message.tcId == t.id
                 && |after| == |before| + 1 && after[..|before|] == before && OutcomeOf(t, after[|before|]))
    ensures AllEnded(out, mixes, after)
  {
    forall j | 0 <= j < |after|
      ensures Ended(out, mixes, after[j])
    {
      if j < |before| {
        assert after[j] == before[j];
        EndedStays(out, mixes, before[j]);
      } else {
        EndedNow(out, mixes, after[j]);
      }
    }
  }

  /** Whatever the delays, every outcome is that of a block the mixer ended, and what is
      handed on of a block has as its speakers exactly the users whose frames were mixed
      into it, even if some of its audio was dropped. */
  lemma SpeakersHandedOn(newVoice: Voice, roomConfig: SessionConfig, sessionConfig: SessionConfig,
                         events: seq<RoomMixer.Event>, inputs: seq<Sent>)
    requires newVoice.fadeIn >= 1 && P.WellTimed(events)
    requires Delivered(M.Output(roomConfig, events), inputs)
    ensures var s := ReceiveAll(NewSession(newVoice, sessionConfig), inputs);
            forall j :: 0 <= j < |s.outcomes| ==>
              Ended(M.Output(roomConfig, events), M.Mixes(roomConfig, events), s.outcomes[j])
  {
    M.TraceRun(roomConfig, events);
    P.FramesOnTime(roomConfig, events);
    S.AnnouncedAreMixed(roomConfig, events);
    InformedRun(newVoice, sessionConfig, M.Output(roomConfig, events), inputs, M.Mixes(roomConfig, events));
  }

  // ------------------------------------------------------- a segment without an outcome

  const Unsupported := SessionConfig(false, 20)
  const Guest := Identity(Some(0), "guest")

  lemma AfterMore(config: SessionConfig, events: seq<RoomMixer.Event>, e: RoomMixer.Event)
    ensures var (m, messages) := RoomMixer.Step(M.After(config, events), e);
            && M.After(config, events + [e]) == m
            && M.Output(config, events + [e]) ==
               M.Output(config, events) + M.Stamp(messages, M.Clock(events + [e]).GetOr(0))
  {
    assert (events + [e])[..|events|] == events;
  }

  /** One speaker is heard. */
  lemma GuestHeard(frame: RoomMixer.Frame) returns (events: seq<RoomMixer.Event>)
    ensures events == [RoomMixer.Begin(Guest), RoomMixer.Hear(0, EncodeFrame(frame))]
    ensures M.Output(Unsupported, events) == []
    ensures M.After(Unsupported, events) ==
            RoomMixer.Mixer(Unsupported, map[0 := RoomMixer.SpeakerStream(Guest, true, [frame])], None, false)
  {
    var first := [RoomMixer.Begin(Guest)];
    var hear := RoomMixer.Hear(0, EncodeFrame(frame));
    AfterMore(Unsupported, [], RoomMixer.Begin(Guest));
    assert [] + first == first;
    var begun := RoomMixer.Mixer(Unsupported, map[0 := RoomMixer.SpeakerStream(Guest, true, [])], None, false);
    assert M.After(Unsupported, first) == begun && M.Output(Unsupported, first) == [];
    AfterMore(Unsupported, first, hear);
    GuestQueued(begun, frame);
    events := first + [hear];
  }

  lemma GuestQueued(m: RoomMixer.Mixer, frame: RoomMixer.Frame)
    requires m == RoomMixer.Mixer(Unsupported, map[0 := RoomMixer.SpeakerStream(Guest, true, [])], None, false)
    ensures RoomMixer.Step(m, RoomMixer.Hear(0, EncodeFrame(frame))) ==
            (m.(speakers := map[0 := RoomMixer.SpeakerStream(Guest, true, [frame])]), [])
  {
    DecodesEncoded(frame);
    assert RoomMixer.Accepts(m, 0, EncodeFrame(frame));
    var stream := RoomMixer.SpeakerStream(Guest, true, [] + [frame]);
    assert [] + [frame] == [frame];
    assert m.speakers[0 := stream] == map[0 := stream];
  }

  /** The tick that opens a segment for them. */
  lemma GuestMixed(m: RoomMixer.Mixer, frame: RoomMixer.Frame)
    requires m == RoomMixer.Mixer(Unsupported, map[0 := RoomMixer.SpeakerStream(Guest, true, [frame])], None, false)
    ensures var (next, messages) := RoomMixer.Step(m, RoomMixer.Tick(0, 0));
            && next.segment.Some? && !next.stopped
            && |messages| == 3 && messages[0] == Start(0, Some(MixerVad), Unsupported)
            && messages[1].Speakers? && messages[2].PcmFrame?
  {
    var heads := RoomMixer.Heads(m.speakers);
    assert 0 in heads;
    var people := RoomMixer.Identities(m.speakers, heads.Keys);
    assert 0 in people;
    M.KnownKeys(map[], people);
  }

  lemma OpenedMore(out: seq<Sent>, sent: Sent)
    ensures Opened(out + [sent]) ==
            Opened(out) + if sent.message.Start? && ValidConfig(sent.message.config) then [sent.message.tcId] else []
  {
    assert (out + [sent])[..|out|] == out;
  }

  lemma NoneOpened(messages: seq<Input>, last: Input, at: nat)
    requires |messages| == 3 && messages[0] == Start(0, Some(MixerVad), Unsupported)
    requires messages[1].Speakers? && messages[2].PcmFrame? && last.End?
    ensures Opened(M.Stamp(messages, at) + M.Stamp([last], at)) == []
  {
    var a, b, c, d := Sent(messages[0], at), Sent(messages[1], at), Sent(messages[2], at), Sent(last, at);
    OpenedMore([], a);
    OpenedMore([a], b);
    OpenedMore([a, b], c);
    OpenedMore([a, b, c], d);
    assert [] + [a] == [a] && [a] + [b] == [a, b] && [a, b] + [c] == [a, b, c];
    assert M.Stamp(messages, at) == [a, b, c] && M.Stamp([last], at) == [d];
  }

  /** A room whose configuration the session does not support: one speaker is heard, a
      segment opened and, at the shutdown, closed. */
  lemma GuestRun(frame: RoomMixer.Frame) returns (events: seq<RoomMixer.Event>)
    ensures P.WellTimed(events) && M.After(Unsupported, events).segment.None?
    ensures var out := M.Output(Unsupported, events);
            |out| == 4 && out[0].message.Start? && out[2].message.PcmFrame? && out[3].message.End? && Opened(out) == []
  {
    var heard := GuestHeard(frame);
    var m := M.After(Unsupported, heard);
    var tick := RoomMixer.Tick(0, 0);
    GuestMixed(m, frame);
    AfterMore(Unsupported, heard, tick);
    AfterMore(Unsupported, heard + [tick], RoomMixer.Shutdown);
    events := heard + [tick] + [RoomMixer.Shutdown];
    var (next, messages) := RoomMixer.Step(m, tick);
    var last := RoomMixer.Step(next, RoomMixer.Shutdown).1;
    GuestTimed(heard, frame);
    assert M.Clock(events) == M.Clock(heard + [tick]) == Some(0);
    NoneOpened(messages, last[0], 0);
    assert last == [last[0]] && [] + M.Stamp(messages, 0) == M.Stamp(messages, 0);
  }

  lemma GuestTimed(heard: seq<RoomMixer.Event>, frame: RoomMixer.Frame)
    requires heard == [RoomMixer.Begin(Guest), RoomMixer.Hear(0, EncodeFrame(frame))]
    ensures P.WellTimed(heard + [RoomMixer.Tick(0, 0)] + [RoomMixer.Shutdown])
    ensures M.Clock(heard + [RoomMixer.Tick(0, 0)]) == Some(0)
    ensures M.Clock(heard + [RoomMixer.Tick(0, 0)] + [RoomMixer.Shutdown]) == Some(0)
  {
    var first := [RoomMixer.Begin(Guest)];
    var ticked := heard + [RoomMixer.Tick(0, 0)];
    assert first[..0] == [] && P.WellTimed([]) && P.WellTimed(first) && M.Clock(first) == None;
    assert heard[..1] == first && P.WellTimed(heard) && M.Clock(heard) == None;
    assert ticked[..2] == heard && P.WellTimed(ticked) && M.Clock(ticked) == Some(0);
    assert (ticked + [RoomMixer.Shutdown])[..3] == ticked;
  }

  /** The segment of that run is refused, and never gets an outcome. */
  lemma RefusedSegment(newVoice: Voice, sessionConfig: SessionConfig, frame: RoomMixer.Frame)
      returns (events: seq<RoomMixer.Event>)
    requires newVoice.fadeIn >= 1
    ensures P.WellTimed(events) && M.After(Unsupported, events).segment.None?
    ensures var out := M.Output(Unsupported, events);
            |out| == 4 && out[0].message.Start? && out[2].message.PcmFrame? && out[3].message.End?
    ensures forall inputs :: Delivered(M.Output(Unsupported, events), inputs) ==>
              ReceiveAll(NewSession(newVoice, sessionConfig), inputs).outcomes == []
  {
    events := GuestRun(frame);
    forall inputs | Delivered(M.Output(Unsupported, events), inputs)
      ensures ReceiveAll(NewSession(newVoice, sessionConfig), inputs).outcomes == []
    {
      EverySegmentOneOutcome(newVoice, Unsupported, sessionConfig, events, inputs);
    }
  }
}
