/** The pipeline session: it cleans and collects the audio of one segment at a time and
    either discards the segment or hands it on for recognition. */
module PipelineSession {
  import opened Audio
  import opened Common
  import opened RoomProtocol

  const CLIENT_PRE_ROLL_SAMPLES: nat := FRAME_SAMPLES * 32
  const MIN_CLIENT_SPEECH_FRAMES: nat := 3
  const MIN_CLIENT_UTTERANCE_SAMPLES: nat := FRAME_SAMPLES * MIN_CLIENT_SPEECH_FRAMES

  // ---------------------------------------------------------------------- validation

  predicate ValidVadStart(vad: VadStart) {
    && vad.engineNamed && vad.sampleRate == SAMPLE_RATE && vad.frameSamples == FRAME_SAMPLES
    && vad.preRollSamples <= CLIENT_PRE_ROLL_SAMPLES
  }

  predicate ValidConfig(config: SessionConfig) {
    config.supported && 5 <= config.maxUtteranceSeconds <= 20
  }

  predicate InsufficientSpeech(vad: Option<VadEnd>) {
    vad.Some? && vad.value.speechFrames.Some? && vad.value.speechFrames.value < MIN_CLIENT_SPEECH_FRAMES
  }

  /** Audio may run ahead of the clock by the pre-roll, and then at one and a half times
      real time: 24 samples a millisecond. */
  function RealtimeLimit(elapsed: nat): nat {
    CLIENT_PRE_ROLL_SAMPLES + elapsed * 24 + FRAME_SAMPLES
  }

  function HardLimit(config: SessionConfig): nat {
    config.maxUtteranceSeconds * SAMPLE_RATE + CLIENT_PRE_ROLL_SAMPLES + FRAME_SAMPLES
  }

  // -------------------------------------------------------------------------- values

  /** `received` is the accepted audio before cleaning; `live` is everything pushed to a
      live transcription, once there is one. */
  datatype Segment = Segment(
    tcId: SegmentId, config: SessionConfig, startedAt: nat, live: Option<seq<Sample>>,
    received: seq<Sample>, audio: seq<Sample>, voice: Voice, quality: Quality, speakers: set<Identity>)

  datatype Reason = SilentVad | TooShort | TooQuiet | Superseded

  /** `streamed` is what the live transcription of a queued utterance was given, and
      `late` whether it was begun only when the segment ended. */
  datatype Outcome =
    | Discarded(id: SegmentId, reason: Reason)
    | Queued(id: SegmentId, audio: seq<Sample>, speakers: set<Identity>, streamed: seq<Sample>, late: bool)

  datatype Warning =
    | BadConfig | BadVadStart | DuplicateId | NoActiveSegment | WrongSegment
    | CountMismatch | BadFrame | TooFast | LimitReached

  /** `started` lists the segments accepted so far, `outcomes` and `warnings` what was
      reported. */
  datatype Session = Session(
    newVoice: Voice, config: SessionConfig, active: Option<Segment>, seen: set<SegmentId>,
    started: seq<SegmentId>, outcomes: seq<Outcome>, warnings: seq<Warning>)

  function NewSession(newVoice: Voice, config: SessionConfig): Session {
    Session(newVoice, config, None, {}, [], [], [])
  }

  function Warn(s: Session, warning: Warning): Session {
    s.(warnings := s.warnings + [warning])
  }

  function FinishSegment(segment: Segment, silent: bool): Outcome {
    if silent then Discarded(segment.tcId, SilentVad)
    else if |segment.audio| < MIN_CLIENT_UTTERANCE_SAMPLES then Discarded(segment.tcId, TooShort)
    else if !AcceptsAsr(segment.quality) then Discarded(segment.tcId, TooQuiet)
    else Queued(segment.tcId, segment.audio, segment.speakers, segment.live.GetOr(segment.audio), segment.live.None?)
  }

  function Finished(s: Session, segment: Segment, silent: bool): Session {
    s.(active := None, outcomes := s.outcomes + [FinishSegment(segment, silent)])
  }

  function BeginSegment(s: Session, id: SegmentId, config: SessionConfig, at: nat): Session {
    var replaced :=
      if s.active.Some? then s.(outcomes := s.outcomes + [Discarded(s.active.value.tcId, Superseded)]) else s;
    replaced.(config := config, seen := s.seen + {id}, started := s.started + [id],
              active := Some(Segment(id, config, at, None, [], [], s.newVoice, Quality(0, 0), {})))
  }

  function Elapsed(segment: Segment, at: nat): nat {
    if at >= segment.startedAt then at - segment.startedAt else 0
  }

  /** A segment after part of a frame was accepted. */
  function Extend(segment: Segment, accepted: seq<Sample>): Segment
    requires segment.voice.fadeIn >= 1
  {
    var cleaned := Cleaned(segment.voice, accepted);
    var audio := segment.audio + cleaned;
    var quality := Observe(segment.quality, cleaned);
    segment.(received := segment.received + accepted, audio := audio,
             voice := VoiceAfterAll(segment.voice, accepted), quality := quality,
             live := match segment.live
                     case Some(pushed) => Some(pushed + cleaned)
                     case None => if AcceptsAsr(quality) then Some(audio) else None)
  }

  /** As much of the frame as the hard limit leaves room for. */
  function Accepted(segment: Segment, frame: seq<Sample>): seq<Sample> {
    var limit := HardLimit(segment.config);
    frame[..Min(|frame|, if limit >= |segment.audio| then limit - |segment.audio| else 0)]
  }

  function TakeFrame(s: Session, segment: Segment, frame: seq<Sample>, at: nat): Session
    requires segment.voice.fadeIn >= 1
  {
    if |segment.audio| + |frame| > RealtimeLimit(Elapsed(segment, at)) then Warn(s, TooFast)
    else
      var next := Extend(segment, Accepted(segment, frame));
      if |next.audio| >= HardLimit(segment.config) then Warn(Finished(s, next, false), LimitReached)
      else s.(active := Some(next))
  }

  ghost predicate Fading(s: Session) {
    s.newVoice.fadeIn >= 1 && (s.active.Some? ==> s.active.value.voice.fadeIn >= 1)
  }

  function Receive(s: Session, message: Input, at: nat): (r: Session)
    requires Fading(s)
    ensures Fading(r) && r.newVoice == s.newVoice
  {
    match message
    case Configure(config) => if ValidConfig(config) then s.(config := config) else Warn(s, BadConfig)
    case Start(id, vad, config) =>
      if vad.Some? && !ValidVadStart(vad.value) then Warn(s, BadVadStart)
      else if !ValidConfig(config) then Warn(s, BadConfig)
      else if id in s.seen then Warn(s, DuplicateId)
      else BeginSegment(s, id, config, at)
    case End(id, silent, vad) =>
      if s.active.None? then Warn(s, NoActiveSegment)
      else if s.active.value.tcId != id then Warn(s, WrongSegment)
      else
        var segment := s.active.value;
        var counted := if vad.Some? && vad.value.sampleCount != |segment.audio| then Warn(s, CountMismatch) else s;
        Finished(counted, segment, silent || InsufficientSpeech(vad))
    case Flush => if s.active.Some? then Finished(s, s.active.value, false) else s
    case PcmFrame(bytes) =>
      if s.active.None? then s
      else (match DecodeFrame(bytes)
            case None => Warn(s, BadFrame)
            case Some(frame) => TakeFrame(s, s.active.value, frame, at))
    case Speakers(id, speakers) =>
      if s.active.Some? && s.active.value.tcId == id then s.(active := Some(s.active.value.(speakers := speakers)))
      else s
  }

  function ReceiveAll(s: Session, inputs: seq<Sent>): (r: Session)
    requires Fading(s)
    ensures Fading(r) && r.newVoice == s.newVoice
  {
    if inputs == [] then s
    else
      var last := inputs[|inputs| - 1];
      Receive(ReceiveAll(s, inputs[..|inputs| - 1]), last.message, last.at)
  }

  // ------------------------------------------------------------ the session that changes

  class RoomSession {
    const newVoice: Voice
    var config: SessionConfig
    var active: Option<Segment>
    var seen: set<SegmentId>
    var started: seq<SegmentId>
    var outcomes: seq<Outcome>
    var warnings: seq<Warning>

    function Value(): Session
      reads this
    {
      Session(newVoice, config, active, seen, started, outcomes, warnings)
    }

    constructor (newVoice: Voice, config: SessionConfig)
      requires newVoice.fadeIn >= 1
      ensures Value() == NewSession(newVoice, config) && Fading(Value())
    {
      this.newVoice, this.config := newVoice, config;
      active, seen, started, outcomes, warnings := None, {}, [], [], [];
    }

    method OnStart(id: SegmentId, vad: Option<VadStart>, next: SessionConfig, at: nat)
      requires Fading(Value())
      modifies this
      ensures Value() == Receive(old(Value()), Start(id, vad, next), at)
    {
      if vad.Some? && !ValidVadStart(vad.value) {
        warnings := warnings + [BadVadStart];
        return;
      }
      if !ValidConfig(next) {
        warnings := warnings + [BadConfig];
        return;
      }
      if id in seen {
        warnings := warnings + [DuplicateId];
        return;
      }
      seen := seen + {id};
      if active.Some? {
        outcomes := outcomes + [Discarded(active.value.tcId, Superseded)];
      }
      config := next;
      active := Some(Segment(id, next, at, None, [], [], newVoice, Quality(0, 0), {}));
      started := started + [id];
    }

    method OnEnd(id: SegmentId, silent: bool, vad: Option<VadEnd>)
      requires Fading(Value())
      modifies this
      ensures Value() == Receive(old(Value()), End(id, silent, vad), 0)
    {
      if active.None? {
        warnings := warnings + [NoActiveSegment];
        return;
      }
      var segment := active.value;
      if segment.tcId != id {
        warnings := warnings + [WrongSegment];
        return;
      }
      active := None;
      if vad.Some? && vad.value.sampleCount != |segment.audio| {
        warnings := warnings + [CountMismatch];
      }
      outcomes := outcomes + [FinishSegment(segment, silent || InsufficientSpeech(vad))];
    }

    method OnFrame(bytes: seq<Byte>, at: nat)
      requires Fading(Value())
      modifies this
      ensures Value() == Receive(old(Value()), PcmFrame(bytes), at)
    {
      if active.None? {
        return;
      }
      var segment := active.value;
      var decoded := DecodeFrame(bytes);
      if decoded.None? {
        warnings := warnings + [BadFrame];
        return;
      }
      var frame := decoded.value;
      if |segment.audio| + |frame| > RealtimeLimit(Elapsed(segment, at)) {
        warnings := warnings + [TooFast];
        return;
      }
      var limit := HardLimit(segment.config);
      var remaining := if limit >= |segment.audio| then limit - |segment.audio| else 0;
      var accepted := frame[..Min(|frame|, remaining)];
      var cleaned := Cleaned(segment.voice, accepted);
      segment := segment.(
        received := segment.received + accepted, audio := segment.audio + cleaned,
        voice := VoiceAfterAll(segment.voice, accepted), quality := Observe(segment.quality, cleaned));
      if segment.live.Some? {
        segment := segment.(live := Some(segment.live.value + cleaned));
      } else if AcceptsAsr(segment.quality) {
        segment := segment.(live := Some(segment.audio));
      }
      if |segment.audio| >= limit {
        active := None;
        outcomes := outcomes + [FinishSegment(segment, false)];
        warnings := warnings + [LimitReached];
      } else {
        active := Some(segment);
      }
    }

    method OnMessage(message: Input, at: nat)
      requires Fading(Value())
      modifies this
      ensures Value() == Receive(old(Value()), message, at)
    {
      match message
      case Configure(next) =>
        if ValidConfig(next) {
          config := next;
        } else {
          warnings := warnings + [BadConfig];
        }
      case Start(id, vad, next) => OnStart(id, vad, next, at);
      case End(id, silent, vad) => OnEnd(id, silent, vad);
      case Flush =>
        if active.Some? {
          outcomes := outcomes + [FinishSegment(active.value, false)];
          active := None;
        }
      case PcmFrame(bytes) => OnFrame(bytes, at);
      case Speakers(id, speakers) =>
        if active.Some? && active.value.tcId == id {
          active := Some(active.value.(speakers := speakers));
        }
    }

    /** The receive loop, over the messages there are. */
    method Run(inputs: seq<Sent>)
      requires Fading(Value())
      modifies this
      ensures Fading(Value()) && Value() == ReceiveAll(old(Value()), inputs)
    {
      for i := 0 to |inputs|
        invariant Fading(Value()) && Value() == ReceiveAll(old(Value()), inputs[..i])
      {
        assert inputs[..i + 1][..i] == inputs[..i];
        OnMessage(inputs[i].message, inputs[i].at);
      }
      assert inputs[..|inputs|] == inputs;
    }
  }

  // ------------------------------------------------------------------ what always holds

  /** The counters are those of the whole audio; a live transcription exists exactly when
      they accept it and was given all of it; the audio is the cleaned input. */
  ghost predicate Gathered(segment: Segment, newVoice: Voice)
    requires newVoice.fadeIn >= 1
  {
    && segment.quality == Assess(segment.audio)
    && (segment.live.Some? <==> AcceptsAsr(segment.quality))
    && (segment.live.Some? ==> segment.live.value == segment.audio)
    && segment.audio == Cleaned(newVoice, segment.received)
    && segment.voice == VoiceAfterAll(newVoice, segment.received)
  }

  /** An open segment holds whole frames and is below the hard limit. */
  ghost predicate SegmentInv(segment: Segment, newVoice: Voice)
    requires newVoice.fadeIn >= 1
  {
    && ValidConfig(segment.config)
    && |segment.audio| % FRAME_SAMPLES == 0 && |segment.audio| < HardLimit(segment.config)
    && Gathered(segment, newVoice)
  }

  function OutcomeIds(outcomes: seq<Outcome>): seq<SegmentId> {
    seq(|outcomes|, i requires 0 <= i < |outcomes| => outcomes[i].id)
  }

  function ActiveIds(active: Option<Segment>): seq<SegmentId> {
    if active.Some? then [active.value.tcId] else []
  }

  ghost predicate DistinctIds(ids: seq<SegmentId>) {
    forall i, j :: 0 <= i < j < |ids| ==> ids[i] != ids[j]
  }

  /** What is handed on passes the same gate again, was streamed whole, and its live
      transcription was never begun late. */
  ghost predicate GoodOutcome(outcome: Outcome) {
    outcome.Queued? ==>
      && AcceptsAsr(Assess(outcome.audio))
      && |outcome.audio| >= MIN_CLIENT_UTTERANCE_SAMPLES
      && outcome.streamed == outcome.audio && !outcome.late
  }

  ghost predicate SessionInv(s: Session) {
    && Fading(s)
    && (s.active.Some? ==> SegmentInv(s.active.value, s.newVoice))
    && s.started == OutcomeIds(s.outcomes) + ActiveIds(s.active)
    && DistinctIds(s.started)
    && (forall id :: id in s.seen <==> id in s.started)
    && (forall i :: 0 <= i < |s.outcomes| ==> GoodOutcome(s.outcomes[i]))
  }

  /** Whatever part of a frame is accepted, the segment stays in order. */
  lemma ExtendKeeps(segment: Segment, accepted: seq<Sample>, newVoice: Voice)
    requires newVoice.fadeIn >= 1 && SegmentInv(segment, newVoice) && segment.voice.fadeIn >= 1
    ensures var next := Extend(segment, accepted);
            && Gathered(next, newVoice)
            && |next.audio| == |segment.audio| + |accepted|
            && next.config == segment.config && next.tcId == segment.tcId && next.voice.fadeIn >= 1
  {
    var cleaned := Cleaned(segment.voice, accepted);
    ObserveConcat(Quality(0, 0), segment.audio, cleaned);
    ObserveGrows(segment.quality, cleaned);
    VoiceConcat(newVoice, segment.received, accepted);
    CleanedConcat(newVoice, segment.received, accepted);
  }

  lemma FinishKeeps(s: Session, segment: Segment, silent: bool)
    requires SessionInv(s) && s.active.Some? && s.active.value.tcId == segment.tcId
    requires Gathered(segment, s.newVoice)
    ensures SessionInv(Finished(s, segment, silent))
  {
    assert OutcomeIds(s.outcomes + [FinishSegment(segment, silent)]) == OutcomeIds(s.outcomes) + [segment.tcId];
  }

  lemma ExtendStaysWhole(segment: Segment, frame: seq<Sample>, newVoice: Voice)
    requires newVoice.fadeIn >= 1 && SegmentInv(segment, newVoice) && segment.voice.fadeIn >= 1
    requires |frame| == FRAME_SAMPLES
    ensures var next := Extend(segment, Accepted(segment, frame));
            |next.audio| < HardLimit(segment.config) ==> SegmentInv(next, newVoice)
  {
    var accepted := Accepted(segment, frame);
    ExtendKeeps(segment, accepted, newVoice);
    WholeFrames(|segment.audio|, HardLimit(segment.config), |accepted|);
  }

  lemma WholeFrames(length: nat, limit: nat, taken: nat)
    requires length % FRAME_SAMPLES == 0 && length < limit
    requires taken == Min(FRAME_SAMPLES, limit - length)
    ensures length + taken < limit ==> (length + taken) % FRAME_SAMPLES == 0
  {
  }

  lemma TakeFrameKeeps(s: Session, frame: seq<Sample>, at: nat)
    requires SessionInv(s) && s.active.Some? && |frame| == FRAME_SAMPLES
    ensures SessionInv(TakeFrame(s, s.active.value, frame, at))
  {
    var segment := s.active.value;
    if |segment.audio| + |frame| <= RealtimeLimit(Elapsed(segment, at)) {
      var next := Extend(segment, Accepted(segment, frame));
      ExtendKeeps(segment, Accepted(segment, frame), s.newVoice);
      ExtendStaysWhole(segment, frame, s.newVoice);
      if |next.audio| >= HardLimit(segment.config) {
        FinishKeeps(s, next, false);
      }
    }
  }

  lemma StartKeeps(s: Session, id: SegmentId, config: SessionConfig, at: nat)
    requires SessionInv(s) && ValidConfig(config) && id !in s.seen
    ensures SessionInv(BeginSegment(s, id, config, at))
  {
    var t := BeginSegment(s, id, config, at);
    assert t.started == s.started + [id];
    assert OutcomeIds(t.outcomes) == OutcomeIds(s.outcomes) + ActiveIds(s.active);
    assert Assess([]) == Quality(0, 0);
  }

  lemma ReceiveKeeps(s: Session, message: Input, at: nat)
    requires SessionInv(s)
    ensures SessionInv(Receive(s, message, at))
  {
    match message
    case Start(id, vad, config) =>
      if ValidConfig(config) && id !in s.seen {
        StartKeeps(s, id, config, at);
      }
    case PcmFrame(bytes) =>
      if s.active.Some? && DecodeFrame(bytes).Some? {
        TakeFrameKeeps(s, DecodeFrame(bytes).value, at);
      }
    case End(id, silent, vad) =>
      if s.active.Some? && s.active.value.tcId == id {
        var counted :=
          if vad.Some? && vad.value.sampleCount != |s.active.value.audio| then Warn(s, CountMismatch) else s;
        FinishKeeps(counted, s.active.value, silent || InsufficientSpeech(vad));
      }
    case Flush =>
      if s.active.Some? {
        FinishKeeps(s, s.active.value, false);
      }
    case Configure(_) =>
    case Speakers(_, _) =>
  }

  lemma {:induction false} ReceiveAllKeeps(s: Session, inputs: seq<Sent>)
    requires SessionInv(s)
    ensures SessionInv(ReceiveAll(s, inputs))
  {
    if inputs != [] {
      ReceiveAllKeeps(s, inputs[..|inputs| - 1]);
      var last := inputs[|inputs| - 1];
      ReceiveKeeps(ReceiveAll(s, inputs[..|inputs| - 1]), last.message, last.at);
    }
  }

  /** Over any messages at any times: accepted starts are the segments with an outcome, in
      order, followed by the active one, and no segment has two outcomes. */
  lemma OneOutcomeEach(newVoice: Voice, config: SessionConfig, inputs: seq<Sent>)
    requires newVoice.fadeIn >= 1
    ensures var s := ReceiveAll(NewSession(newVoice, config), inputs);
            s.started == OutcomeIds(s.outcomes) + ActiveIds(s.active) && DistinctIds(s.started)
  {
    ReceiveAllKeeps(NewSession(newVoice, config), inputs);
  }

  /** Over any messages at any times: a segment has a live transcription exactly when its
      audio passes the quality gate, and that transcription was given exactly the audio. */
  lemma LiveIffAccepted(newVoice: Voice, config: SessionConfig, inputs: seq<Sent>)
    requires newVoice.fadeIn >= 1
    ensures var s := ReceiveAll(NewSession(newVoice, config), inputs);
            s.active.Some? ==>
              var segment := s.active.value;
              && (segment.live.Some? <==> AcceptsAsr(Assess(segment.audio)))
              && (segment.live.Some? ==> segment.live.value == segment.audio)
              && segment.audio == Cleaned(newVoice, segment.received)
              && |segment.audio| < HardLimit(segment.config)
  {
    ReceiveAllKeeps(NewSession(newVoice, config), inputs);
  }

  /** Over any messages at any times: what is handed on would pass the recogniser's own
      gate, its live transcription got all of it, and none is begun late. */
  lemma QueuedPassesGate(newVoice: Voice, config: SessionConfig, inputs: seq<Sent>)
    requires newVoice.fadeIn >= 1
    ensures var s := ReceiveAll(NewSession(newVoice, config), inputs);
            forall i :: 0 <= i < |s.outcomes| ==> GoodOutcome(s.outcomes[i])
  {
    ReceiveAllKeeps(NewSession(newVoice, config), inputs);
  }
}
