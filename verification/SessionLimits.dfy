/** What a session takes in, drops and makes of a segment, in numbers, over any messages. */
module SessionLimits {
  import opened Audio
  import opened Common
  import opened RoomProtocol
  import opened PipelineSession

  ghost function After(newVoice: Voice, config: SessionConfig, inputs: seq<Sent>): Session
    requires newVoice.fadeIn >= 1
  {
    ReceiveAll(NewSession(newVoice, config), inputs)
  }

  /** How long after the segment's start a message comes, in milliseconds. */
  function Late(segment: Segment, at: nat): nat {
    if at >= segment.startedAt then at - segment.startedAt else 0
  }

  // ------------------------------------------------------------------ an ended segment

  /** Which of the whole frames are audible. */
  function Verdicts(samples: seq<Sample>): seq<bool> {
    seq(|samples| / 512, i requires 0 <= i < |samples| / 512 => Audible(samples[512 * i..512 * i + 512]))
  }

  function Trues(verdicts: seq<bool>): nat {
    if verdicts == [] then 0 else (if verdicts[0] then 1 else 0) + Trues(verdicts[1..])
  }

  lemma VerdictsRest(samples: seq<Sample>)
    requires |samples| >= 512
    ensures Verdicts(samples) == [Audible(samples[..512])] + Verdicts(samples[512..])
  {
    var rest := samples[512..];
    assert |samples| / 512 == |rest| / 512 + 1;
    forall i | 0 <= i < |rest| / 512
      ensures Verdicts(samples)[i + 1] == Verdicts(rest)[i]
    {
      assert rest[512 * i..512 * i + 512] == samples[512 * (i + 1)..512 * (i + 1) + 512];
    }
  }

  lemma {:induction false} ObservedAre(q: Quality, samples: seq<Sample>)
    requires q.total <= 0xffff_ffff && q.audible <= 0xffff_ffff
    ensures var r := Observe(q, samples);
            && r.audible == Min(0xffff_ffff, q.audible + Trues(Verdicts(samples)))
            && r.total == Min(0xffff_ffff, q.total + |samples| / 512)
    decreases |samples|
  {
    if |samples| >= 512 {
      VerdictsRest(samples);
      ObservedAre(ObserveFrame(q, samples[..512]), samples[512..]);
      assert Verdicts(samples)[1..] == Verdicts(samples[512..]);
    }
  }

  /** The quality gate asks for three audible frames. */
  lemma PassesGateIff(samples: seq<Sample>)
    ensures AcceptsAsr(Assess(samples)) <==> Trues(Verdicts(samples)) >= 3
  {
    ObservedAre(Quality(0, 0), samples);
  }

  /** What is to become of a segment that ends, silent or not. */
  function EndedAs(segment: Segment, silent: bool): Outcome {
    if silent then Discarded(segment.tcId, SilentVad)
    else if |segment.audio| < 1_536 then Discarded(segment.tcId, TooShort)
    else if Trues(Verdicts(segment.audio)) < 3 then Discarded(segment.tcId, TooQuiet)
    else Queued(segment.tcId, segment.audio, segment.speakers, segment.audio, false)
  }

  // --------------------------------------------------------------------------- a frame

  /** One frame more than the segment has is more than its pre-roll of 32 frames, one frame,
      and 24 samples for every millisecond since it started. */
  predicate TooMuch(segment: Segment, at: nat) {
    |segment.audio| + 512 > 16_384 + 512 + 24 * Late(segment, at)
  }

  /** What becomes of a well-formed frame for the active segment. */
  ghost predicate FrameGoes(s: Session, segment: Segment, next: Session, frame: seq<Sample>, at: nat)
    requires s.newVoice.fadeIn >= 1
  {
    var limit := 16_000 * segment.config.maxUtteranceSeconds + 16_384 + 512;
    if TooMuch(segment, at) then next == s.(warnings := s.warnings + [TooFast])
    else if |segment.audio| + 512 < limit then
      && next.active.Some? && next == s.(active := next.active)
      && next.active.value.startedAt == segment.startedAt && next.active.value.tcId == segment.tcId
      && next.active.value.received == segment.received + frame
      && |next.active.value.audio| == |segment.audio| + 512
    else
      && 0 <= limit - |segment.audio| <= |frame|
      && var received := segment.received + frame[..limit - |segment.audio|];
      next == s.(active := None, warnings := s.warnings + [LimitReached],
                 outcomes := s.outcomes + [EndedAs(segment.(audio := Cleaned(s.newVoice, received)), false)])
  }

  /** What becomes of a frame. */
  ghost predicate FrameFits(s: Session, next: Session, bytes: seq<Byte>, at: nat)
    requires s.newVoice.fadeIn >= 1
  {
    if s.active.None? then next == s
    else if |bytes| != 1_024 then next == s.(warnings := s.warnings + [BadFrame])
    else FrameGoes(s, s.active.value, next, DecodeFrame(bytes).value, at)
  }

  /** As much of the frame as there is room for is taken in and cleaned with the rest. */
  lemma Extended(segment: Segment, frame: seq<Sample>, newVoice: Voice)
    requires newVoice.fadeIn >= 1 && SegmentInv(segment, newVoice) && segment.voice.fadeIn >= 1
    requires |frame| == 512
    ensures var limit := 16_000 * segment.config.maxUtteranceSeconds + 16_384 + 512;
            var next := Extend(segment, Accepted(segment, frame));
            && |segment.audio| < limit && |next.audio| == Min(|segment.audio| + 512, limit)
            && next.received == segment.received + frame[..|next.audio| - |segment.audio|]
            && next.audio == Cleaned(newVoice, next.received)
            && next.startedAt == segment.startedAt && next.tcId == segment.tcId && next.speakers == segment.speakers
            && FinishSegment(next, false) == EndedAs(segment.(audio := next.audio), false)
  {
    var next := Extend(segment, Accepted(segment, frame));
    ExtendKeeps(segment, Accepted(segment, frame), newVoice);
    PassesGateIff(next.audio);
  }

  lemma FrameTaken(s: Session, bytes: seq<Byte>, at: nat)
    requires SessionInv(s)
    ensures FrameFits(s, Receive(s, PcmFrame(bytes), at), bytes, at)
  {
    if s.active.Some? && |bytes| == 1_024 {
      Extended(s.active.value, DecodeFrame(bytes).value, s.newVoice);
      TakenFits(s, s.active.value, DecodeFrame(bytes).value, at);
    }
  }

  lemma TakenFits(s: Session, segment: Segment, frame: seq<Sample>, at: nat)
    requires s.newVoice.fadeIn >= 1 && segment.voice.fadeIn >= 1 && |frame| == 512
    requires var limit := 16_000 * segment.config.maxUtteranceSeconds + 16_384 + 512;
             var next := Extend(segment, Accepted(segment, frame));
             && |segment.audio| < limit && |next.audio| == Min(|segment.audio| + 512, limit)
             && next.received == segment.received + frame[..|next.audio| - |segment.audio|]
             && next.audio == Cleaned(s.newVoice, next.received)
             && next.startedAt == segment.startedAt && next.tcId == segment.tcId
             && FinishSegment(next, false) == EndedAs(segment.(audio := next.audio), false)
    ensures FrameGoes(s, segment, TakeFrame(s, segment, frame, at), frame, at)
  {
    assert frame[..512] == frame;
  }

  /** Over any messages at any times, a well-formed frame for an active segment is dropped as
      too fast exactly if it is too much at its time; otherwise it is taken in whole, unless
      it reaches the hard limit of the longest duration, the pre-roll and one frame, which
      ends the segment. */
  lemma FrameDroppedIff(newVoice: Voice, config: SessionConfig, inputs: seq<Sent>, bytes: seq<Byte>, at: nat)
    requires newVoice.fadeIn >= 1
    ensures var s := After(newVoice, config, inputs);
            Fading(s) && FrameFits(s, Receive(s, PcmFrame(bytes), at), bytes, at)
  {
    ReceiveAllKeeps(NewSession(newVoice, config), inputs);
    FrameTaken(After(newVoice, config, inputs), bytes, at);
  }

  // -------------------------------------------------------- how much an active segment has

  /** Message `i` is the accepted start of the segment. */
  ghost predicate StartedBy(newVoice: Voice, config: SessionConfig, inputs: seq<Sent>, i: nat, segment: Segment)
    requires newVoice.fadeIn >= 1
  {
    && i < |inputs| && inputs[i].message.Start?
    && inputs[i].message.tcId == segment.tcId && inputs[i].message.config == segment.config
    && inputs[i].at == segment.startedAt
    && segment.tcId !in After(newVoice, config, inputs[..i]).started
  }

  /** The latest frame taken in is message `j`. */
  ghost predicate LastTaken(newVoice: Voice, config: SessionConfig, inputs: seq<Sent>, j: nat, segment: Segment)
    requires newVoice.fadeIn >= 1
  {
    && j < |inputs| && inputs[j].message.PcmFrame?
    && var before := After(newVoice, config, inputs[..j]).active;
    var after := After(newVoice, config, inputs[..j + 1]).active;
    && before.Some? && after.Some?
    && before.value.tcId == after.value.tcId == segment.tcId
    && |before.value.audio| < |after.value.audio| == |segment.audio|
  }

  /** What the active segment has come to. */
  ghost predicate WithinPace(newVoice: Voice, config: SessionConfig, inputs: seq<Sent>, segment: Segment)
    requires newVoice.fadeIn >= 1
  {
    && (exists i: nat :: StartedBy(newVoice, config, inputs, i, segment))
    && (segment.audio != [] ==>
          exists j: nat :: LastTaken(newVoice, config, inputs, j, segment)
                           && |segment.audio| <= 16_384 + 512 + 24 * Late(segment, inputs[j].at))
  }

  lemma SamePace(newVoice: Voice, config: SessionConfig, inputs: seq<Sent>, more: Sent, a: Segment, b: Segment)
    requires newVoice.fadeIn >= 1 && WithinPace(newVoice, config, inputs, a)
    requires b.tcId == a.tcId && b.config == a.config && b.startedAt == a.startedAt && |b.audio| == |a.audio|
    ensures WithinPace(newVoice, config, inputs + [more], b)
  {
    var i: nat :| StartedBy(newVoice, config, inputs, i, a);
    assert (inputs + [more])[..i] == inputs[..i];
    assert StartedBy(newVoice, config, inputs + [more], i, b);
    if b.audio != [] {
      var j: nat :| LastTaken(newVoice, config, inputs, j, a)
                    && |a.audio| <= 16_384 + 512 + 24 * Late(a, inputs[j].at);
      assert (inputs + [more])[..j] == inputs[..j] && (inputs + [more])[..j + 1] == inputs[..j + 1];
      assert LastTaken(newVoice, config, inputs + [more], j, b);
    }
  }

  lemma TakenPace(newVoice: Voice, config: SessionConfig, inputs: seq<Sent>, more: Sent, a: Segment, b: Segment)
    requires newVoice.fadeIn >= 1 && WithinPace(newVoice, config, inputs, a) && more.message.PcmFrame?
    requires After(newVoice, config, inputs).active == Some(a)
    requires After(newVoice, config, inputs + [more]).active == Some(b)
    requires b.tcId == a.tcId && b.config == a.config && b.startedAt == a.startedAt
    requires |b.audio| == |a.audio| + 512 && !TooMuch(a, more.at)
    ensures WithinPace(newVoice, config, inputs + [more], b)
  {
    var i: nat :| StartedBy(newVoice, config, inputs, i, a);
    var n := |inputs|;
    assert (inputs + [more])[..i] == inputs[..i];
    assert StartedBy(newVoice, config, inputs + [more], i, b);
    assert (inputs + [more])[..n] == inputs && (inputs + [more])[..n + 1] == inputs + [more];
    assert LastTaken(newVoice, config, inputs + [more], n, b);
  }

  lemma NewPace(newVoice: Voice, config: SessionConfig, inputs: seq<Sent>, more: Sent)
    requires newVoice.fadeIn >= 1 && SessionInv(After(newVoice, config, inputs)) && more.message.Start?
    requires After(newVoice, config, inputs + [more]) != After(newVoice, config, inputs)
    requires var s := After(newVoice, config, inputs);
             && more.message.tcId !in s.started
             && After(newVoice, config, inputs + [more]) ==
                BeginSegment(s, more.message.tcId, more.message.config, more.at)
    ensures WithinPace(newVoice, config, inputs + [more], After(newVoice, config, inputs + [more]).active.value)
  {
    assert (inputs + [more])[..|inputs|] == inputs;
    var segment := After(newVoice, config, inputs + [more]).active.value;
    assert StartedBy(newVoice, config, inputs + [more], |inputs|, segment);
  }

  lemma PaceStep(newVoice: Voice, config: SessionConfig, inputs: seq<Sent>, more: Sent)
    requires newVoice.fadeIn >= 1 && SessionInv(After(newVoice, config, inputs))
    requires var s := After(newVoice, config, inputs);
             s.active.Some? ==> WithinPace(newVoice, config, inputs, s.active.value)
    ensures var t := After(newVoice, config, inputs + [more]);
            t.active.Some? ==> WithinPace(newVoice, config, inputs + [more], t.active.value)
  {
    var s, t := After(newVoice, config, inputs), After(newVoice, config, inputs + [more]);
    assert (inputs + [more])[..|inputs|] == inputs;
    assert t == Receive(s, more.message, more.at);
    if t.active.None? {
    } else if more.message.Start? && t.active != s.active {
      NewPace(newVoice, config, inputs, more);
    } else if more.message.PcmFrame? {
      FrameTaken(s, more.message.bytes, more.at);
      FramePace(newVoice, config, inputs, more);
    } else {
      SamePace(newVoice, config, inputs, more, s.active.value, t.active.value);
    }
  }

  lemma FramePace(newVoice: Voice, config: SessionConfig, inputs: seq<Sent>, more: Sent)
    requires newVoice.fadeIn >= 1 && more.message.PcmFrame?
    requires var s, t := After(newVoice, config, inputs), After(newVoice, config, inputs + [more]);
             && FrameFits(s, t, more.message.bytes, more.at) && t.active.Some? && s.active.Some?
             && t.active.value.config == s.active.value.config
             && WithinPace(newVoice, config, inputs, s.active.value)
    ensures WithinPace(newVoice, config, inputs + [more], After(newVoice, config, inputs + [more]).active.value)
  {
    var s, t := After(newVoice, config, inputs), After(newVoice, config, inputs + [more]);
    if t.active == s.active {
      SamePace(newVoice, config, inputs, more, s.active.value, t.active.value);
    } else {
      TakenPace(newVoice, config, inputs, more, s.active.value, t.active.value);
    }
  }

  /** Over any messages at any times: the active segment dates from an accepted start, and
      its audio is at most the pre-roll, one frame, and 24 samples for each millisecond
      between that start and the latest frame taken in. */
  lemma {:induction false} AudioWithinPace(newVoice: Voice, config: SessionConfig, inputs: seq<Sent>)
    requires newVoice.fadeIn >= 1
    ensures var s := After(newVoice, config, inputs);
            s.active.Some? ==> WithinPace(newVoice, config, inputs, s.active.value)
  {
    if inputs != [] {
      var front, last := inputs[..|inputs| - 1], inputs[|inputs| - 1];
      AudioWithinPace(newVoice, config, front);
      ReceiveAllKeeps(NewSession(newVoice, config), front);
      PaceStep(newVoice, config, front, last);
      assert inputs == front + [last];
    }
  }

  // ----------------------------------------------------------------- a start, and an end

  /** A start is accepted exactly if its detector, if it names one, has the sample rate, frame
      size and a pre-roll of at most 32 frames, its configuration is supported with a longest
      duration of 5 to 20 seconds, and its id is new. Otherwise there is one warning and
      nothing else. An accepted one replaces the active segment, which is discarded. */
  lemma StartAcceptedIff(newVoice: Voice, roomConfig: SessionConfig, inputs: seq<Sent>, id: SegmentId,
                         vad: Option<VadStart>, config: SessionConfig, at: nat)
    requires newVoice.fadeIn >= 1
    ensures var s := After(newVoice, roomConfig, inputs);
            && Fading(s)
            && var next := Receive(s, Start(id, vad, config), at);
            if && (vad.Some? ==>
                     && vad.value.engineNamed && vad.value.sampleRate == 16_000 && vad.value.frameSamples == 512
                     && vad.value.preRollSamples <= 16_384)
               && config.supported && 5 <= config.maxUtteranceSeconds <= 20 && id !in s.started
            then
              && next.started == s.started + [id] && next.config == config && next.warnings == s.warnings
              && next.active.Some? && next.active.value.startedAt == at && next.active.value.audio == []
              && next.active.value.speakers == {} && next.active.value.live.None?
              && next.outcomes == s.outcomes +
                   (if s.active.Some? then [Discarded(s.active.value.tcId, Superseded)] else [])
            else exists warning :: next == s.(warnings := s.warnings + [warning])
  {
    var s := After(newVoice, roomConfig, inputs);
    ReceiveAllKeeps(NewSession(newVoice, roomConfig), inputs);
    var next := Receive(s, Start(id, vad, config), at);
    if next.started == s.started {
      assert next == Warn(s, next.warnings[|s.warnings|]);
    }
  }

  /** A configuration is taken over exactly if it is supported with a longest duration of 5 to
      20 seconds, and otherwise warned about; an announcement is noted exactly if it is of the
      active segment. Neither touches anything else. */
  lemma OthersTaken(newVoice: Voice, roomConfig: SessionConfig, inputs: seq<Sent>, config: SessionConfig,
                    id: SegmentId, speakers: set<Identity>, at: nat)
    requires newVoice.fadeIn >= 1
    ensures var s := After(newVoice, roomConfig, inputs);
            && Receive(s, Configure(config), at) ==
               (if config.supported && 5 <= config.maxUtteranceSeconds <= 20 then s.(config := config)
                else s.(warnings := s.warnings + [BadConfig]))
            && Receive(s, Speakers(id, speakers), at) ==
               if s.active.Some? && s.active.value.tcId == id
               then s.(active := Some(s.active.value.(speakers := speakers))) else s
  {
  }

  lemma FinishedAs(s: Session, silent: bool)
    requires SessionInv(s) && s.active.Some?
    ensures FinishSegment(s.active.value, silent) == EndedAs(s.active.value, silent)
  {
    PassesGateIff(s.active.value.audio);
  }

  /** An end for the active segment discards it as silent exactly if it says so or reports
      fewer than 3 frames of speech, else as too short below 3 frames of audio, else as too
      quiet with fewer than 3 audible frames, and otherwise hands it on; it warns exactly if
      its count differs. A flush ends the active segment in the same way, as not silent. Any
      other end is warned about and changes nothing. */
  lemma EndsAs(newVoice: Voice, config: SessionConfig, inputs: seq<Sent>, id: SegmentId, silent: bool,
               vad: Option<VadEnd>, at: nat)
    requires newVoice.fadeIn >= 1
    ensures var s := After(newVoice, config, inputs);
            && Fading(s)
            && var next, flushed := Receive(s, End(id, silent, vad), at), Receive(s, Flush, at);
            && (if s.active.None? then next == s.(warnings := s.warnings + [NoActiveSegment]) && flushed == s
                else
                  var segment := s.active.value;
                  && flushed == s.(active := None, outcomes := s.outcomes + [EndedAs(segment, false)])
                  && (if segment.tcId != id then next == s.(warnings := s.warnings + [WrongSegment])
                      else
                        var few := vad.Some? && vad.value.speechFrames.Some? && vad.value.speechFrames.value < 3;
                        next == s.(active := None, outcomes := s.outcomes + [EndedAs(segment, silent || few)],
                                   warnings := if vad.Some? && vad.value.sampleCount != |segment.audio|
                                               then s.warnings + [CountMismatch] else s.warnings)))
  {
    var s := After(newVoice, config, inputs);
    ReceiveAllKeeps(NewSession(newVoice, config), inputs);
    if s.active.Some? {
      FinishedAs(s, false);
      FinishedAs(s, true);
    }
  }
}
