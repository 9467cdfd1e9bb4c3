/** The messages a room mixer sends to its pipeline session. */
module RoomProtocol {
  import opened Audio
  import opened Common

  type UserId = nat
  type SegmentId = nat

  /** Languages and voice are represented by whether the session supports them. */
  datatype SessionConfig = SessionConfig(supported: bool, maxUtteranceSeconds: nat)

  datatype Identity = Identity(userId: Option<UserId>, username: string)

  datatype VadStart = VadStart(engineNamed: bool, sampleRate: nat, frameSamples: nat, preRollSamples: nat)

  datatype EndReason = Silence | MaxDuration | Manual | Silent | ServerLimit | Unknown

  datatype VadEnd = VadEnd(reason: EndReason, sampleCount: nat, speechFrames: Option<nat>)

  datatype Input =
    | Configure(config: SessionConfig)
    | Start(tcId: SegmentId, vadStart: Option<VadStart>, config: SessionConfig)
    | End(tcId: SegmentId, isSilentVad: bool, vadEnd: Option<VadEnd>)
    | Flush
    | PcmFrame(bytes: seq<Byte>)
    | Speakers(utteranceId: SegmentId, speakers: set<Identity>)

  /** A message and the time in milliseconds at which it was sent. */
  datatype Sent = Sent(message: Input, at: nat)

  const SAMPLE_RATE: nat := 16_000
  const FRAME_MS: nat := 32

  /** The 32 ms period a time lies in. */
  function Slot(at: nat): nat {
    at / FRAME_MS
  }

  // ---------------------------------------------------- the order of a mixer's messages

  const MixerVad := VadStart(true, SAMPLE_RATE, FRAME_SAMPLES, 0)

  /** Where a stream of messages stands: between segments, inside one, or in breach of
      the order below. `used` are the ids of the segments so far, `lastFrameAt` is when the
      latest frame was sent. */
  datatype Trace =
    | Closed(used: set<SegmentId>)
    | Open(used: set<SegmentId>, id: SegmentId, config: SessionConfig, startedAt: nat,
           frames: nat, lastFrameAt: nat, announced: set<Identity>)
    | Broken

  ghost function Users(identities: set<Identity>): set<UserId> {
    set i | i in identities && i.userId.Some? :: i.userId.value
  }

  /** Segments do not nest and never reuse an id. Inside one, speakers are announced before
      the first frame, every later announcement adds users, and the end reports what was
      sent. */
  ghost function Accept(t: Trace, sent: Sent): Trace {
    match sent.message
    case Configure(_) => t
    case Start(id, vad, config) =>
      if t.Closed? && id !in t.used && vad == Some(MixerVad) then
        Open(t.used + {id}, id, config, sent.at, 0, sent.at, {})
      else Broken
    case Speakers(id, speakers) =>
      if t.Open? && t.id == id && Users(t.announced) < Users(speakers) then t.(announced := speakers)
      else Broken
    case PcmFrame(bytes) =>
      if t.Open? && t.announced != {} && DecodeFrame(bytes).Some?
      then t.(frames := t.frames + 1, lastFrameAt := sent.at)
      else Broken
    case End(id, silent, vad) =>
      if && t.Open? && t.id == id && t.frames > 0 && silent == (t.frames < 6)
         && vad.Some? && vad.value.sampleCount == FRAME_SAMPLES * t.frames
         && vad.value.speechFrames == Some(t.frames)
      then Closed(t.used)
      else Broken
    case Flush => Broken
  }

  ghost function AcceptAll(t: Trace, out: seq<Sent>): Trace {
    if out == [] then t else Accept(AcceptAll(t, out[..|out| - 1]), out[|out| - 1])
  }

  lemma {:induction false} AcceptConcat(t: Trace, a: seq<Sent>, b: seq<Sent>)
    ensures AcceptAll(t, a + b) == AcceptAll(AcceptAll(t, a), b)
  {
    if b == [] {
      assert a + b == a;
    } else {
      assert (a + b)[..|a + b| - 1] == a + b[..|b| - 1];
      AcceptConcat(t, a, b[..|b| - 1]);
    }
  }

  // --------------------------------------------------------------- the pace of the frames

  /** The first frame is sent with the start, the others in later 32 ms periods, and none
      after a frame that was already at the longest duration. */
  ghost predicate FrameDue(t: Trace, at: nat)
    requires t.Open?
  {
    if t.frames == 0 then at == t.startedAt
    else Slot(t.lastFrameAt) < Slot(at) && t.lastFrameAt < t.startedAt + 1_000 * t.config.maxUtteranceSeconds
  }

  ghost predicate OnTime(t: Trace, sent: Sent) {
    sent.message.PcmFrame? && t.Open? ==> FrameDue(t, sent.at)
  }

  /** Every frame is sent when it is due. */
  ghost predicate AllOnTime(t: Trace, out: seq<Sent>) {
    out == [] || (AllOnTime(t, out[..|out| - 1]) && OnTime(AcceptAll(t, out[..|out| - 1]), out[|out| - 1]))
  }

  lemma {:induction false} OnTimeConcat(t: Trace, a: seq<Sent>, b: seq<Sent>)
    ensures AllOnTime(t, a + b) == (AllOnTime(t, a) && AllOnTime(AcceptAll(t, a), b))
  {
    if b == [] {
      assert a + b == a;
    } else {
      assert (a + b)[..|a + b| - 1] == a + b[..|b| - 1];
      OnTimeConcat(t, a, b[..|b| - 1]);
      AcceptConcat(t, a, b[..|b| - 1]);
    }
  }
}
