/** PCM16 samples and frames, the voice clean-up filter and the incremental speech
    quality counters. Arithmetic is exact: the source's rounding of `f32`/`f64`
    intermediate results is not modelled. */
module Audio {
  import opened Common

  type Sample = s: int | -0x8000 <= s <= 0x7fff

  const FRAME_SAMPLES: nat := 512
  const MIN_AUDIBLE_SPEECH_FRAMES: nat := 3

  // ------------------------------------------------------------- little-endian PCM16

  function SampleByte(s: Sample, high: bool): Byte {
    var unsigned := if s < 0 then s + 0x1_0000 else s;
    if high then unsigned / 0x100 else unsigned % 0x100
  }

  function SampleFrom(low: Byte, high: Byte): Sample {
    var unsigned := low + 0x100 * high;
    if unsigned >= 0x8000 then unsigned - 0x1_0000 else unsigned
  }

  function EncodeFrame(samples: seq<Sample>): seq<Byte> {
    seq(2 * |samples|, k requires 0 <= k < 2 * |samples| => SampleByte(samples[k / 2], k % 2 == 1))
  }

  function DecodeFrame(bytes: seq<Byte>): Option<seq<Sample>> {
    if |bytes| != 2 * FRAME_SAMPLES then None
    else Some(seq(FRAME_SAMPLES, i requires 0 <= i < FRAME_SAMPLES => SampleFrom(bytes[2 * i], bytes[2 * i + 1])))
  }

  /** A sample is its two bytes, the low one first, as a number from -32,768 to 32,767. */
  lemma DecodedSample(bytes: seq<Byte>, i: nat)
    requires i < 512
    ensures DecodeFrame(bytes).Some? <==> |bytes| == 1_024
    ensures |bytes| == 1_024 ==>
              var n := bytes[2 * i] as nat + 256 * bytes[2 * i + 1] as nat;
              |DecodeFrame(bytes).value| == 512 && DecodeFrame(bytes).value[i] == if n < 32_768 then n else n - 65_536
  {
  }

  lemma DecodesEncoded(samples: seq<Sample>)
    requires |samples| == FRAME_SAMPLES
    ensures DecodeFrame(EncodeFrame(samples)) == Some(samples)
  {
    var encoded := EncodeFrame(samples);
    var decoded := DecodeFrame(encoded).value;
    forall i | 0 <= i < FRAME_SAMPLES
      ensures decoded[i] == samples[i]
    {
      assert encoded[2 * i] == SampleByte(samples[i], false);
      assert encoded[2 * i + 1] == SampleByte(samples[i], true);
    }
    assert decoded == samples;
  }

  lemma EncodesDecoded(bytes: seq<Byte>)
    requires DecodeFrame(bytes).Some?
    ensures EncodeFrame(DecodeFrame(bytes).value) == bytes
  {
    var decoded := DecodeFrame(bytes).value;
    forall k | 0 <= k < 2 * FRAME_SAMPLES
      ensures EncodeFrame(decoded)[k] == bytes[k]
    {
      var i := k / 2;
      assert decoded[i] == SampleFrom(bytes[2 * i], bytes[2 * i + 1]);
    }
    assert EncodeFrame(decoded) == bytes;
  }

  /** Decoding undoes encoding, and nothing else decodes to the same frame. */
  lemma FrameRoundTrip(samples: seq<Sample>, bytes: seq<Byte>)
    requires |samples| == FRAME_SAMPLES
    ensures DecodeFrame(bytes) == Some(samples) <==> bytes == EncodeFrame(samples)
  {
    DecodesEncoded(samples);
    if DecodeFrame(bytes) == Some(samples) {
      EncodesDecoded(bytes);
    }
  }

  // ------------------------------------------------------------------ voice clean-up

  /** One second-order section; the coefficients are design data. */
  datatype Biquad = Biquad(b0: real, b1: real, b2: real, a1: real, a2: real,
                           x1: real, x2: real, y1: real, y2: real)
  {
    function Output(input: real): real {
      b0 * input + b1 * x1 + b2 * x2 - a1 * y1 - a2 * y2
    }

    function After(input: real): Biquad {
      this.(x2 := x1, x1 := input, y2 := y1, y1 := Output(input))
    }
  }

  datatype Voice = Voice(first: Biquad, second: Biquad, processed: nat, fadeIn: nat)

  /** Half away from zero, as `f64::round`, and clamped to 16 bits. */
  function ToSample(x: real): Sample {
    var rounded := if x >= 0.0 then (x + 0.5).Floor else -((-x + 0.5).Floor);
    if rounded < -0x8000 then -0x8000 else if rounded > 0x7fff then 0x7fff else rounded
  }

  function VoiceOutput(v: Voice, sample: Sample): Sample
    requires v.fadeIn >= 1
  {
    var filtered := v.second.Output(v.first.Output(sample as real));
    var fade := if v.processed < v.fadeIn then v.processed as real / v.fadeIn as real else 1.0;
    ToSample(filtered * fade)
  }

  function VoiceAfter(v: Voice, sample: Sample): Voice {
    v.(first := v.first.After(sample as real),
       second := v.second.After(v.first.Output(sample as real)),
       processed := v.processed + 1)
  }

  function VoiceAfterAll(v: Voice, samples: seq<Sample>): (r: Voice)
    ensures r.fadeIn == v.fadeIn
  {
    if samples == [] then v
    else VoiceAfter(VoiceAfterAll(v, samples[..|samples| - 1]), samples[|samples| - 1])
  }

  function Cleaned(v: Voice, samples: seq<Sample>): (r: seq<Sample>)
    requires v.fadeIn >= 1
    ensures |r| == |samples|
  {
    if samples == [] then []
    else
      var front, last := samples[..|samples| - 1], samples[|samples| - 1];
      Cleaned(v, front) + [VoiceOutput(VoiceAfterAll(v, front), last)]
  }

  lemma {:induction false} VoiceConcat(v: Voice, a: seq<Sample>, b: seq<Sample>)
    ensures VoiceAfterAll(v, a + b) == VoiceAfterAll(VoiceAfterAll(v, a), b)
  {
    if b == [] {
      assert a + b == a;
    } else {
      var front := b[..|b| - 1];
      VoiceConcat(v, a, front);
      assert (a + b)[..|a + b| - 1] == a + front;
    }
  }

  /** Cleaning in pieces is cleaning the whole: the filter keeps its state across frames. */
  lemma {:induction false} CleanedConcat(v: Voice, a: seq<Sample>, b: seq<Sample>)
    requires v.fadeIn >= 1
    ensures Cleaned(v, a + b) == Cleaned(v, a) + Cleaned(VoiceAfterAll(v, a), b)
  {
    if b == [] {
      assert a + b == a;
    } else {
      var front, last := b[..|b| - 1], b[|b| - 1];
      var at := VoiceAfterAll(v, a + front);
      assert b == front + [last];
      CleanedConcat(v, a, front);
      VoiceConcat(v, a, front);
      Associate(a, front, [last]);
      Associate(Cleaned(v, a), Cleaned(VoiceAfterAll(v, a), front), [VoiceOutput(at, last)]);
    }
  }

  class VoiceAudioProcessor {
    var state: Voice

    constructor (initial: Voice)
      ensures state == initial
    {
      state := initial;
    }

    /** Cleans the samples where they are. */
    method Process(samples: array<Sample>)
      requires state.fadeIn >= 1
      modifies this, samples
      ensures state == VoiceAfterAll(old(state), old(samples[..]))
      ensures samples[..] == Cleaned(old(state), old(samples[..]))
    {
      ghost var was := samples[..];
      for i := 0 to samples.Length
        invariant state == VoiceAfterAll(old(state), was[..i])
        invariant samples[..i] == Cleaned(old(state), was[..i])
        invariant samples[i..] == was[i..]
      {
        assert was[..i + 1][..i] == was[..i];
        assert samples[i] == samples[i..][0] == was[i];
        var sample := samples[i];
        samples[i] := VoiceOutput(state, sample);
        state := VoiceAfter(state, sample);
        assert samples[..i + 1] == samples[..i] + [samples[i]];
      }
      assert was[..samples.Length] == was;
    }
  }

  // ------------------------------------------------------------------ speech quality

  function Sum(xs: seq<int>): int {
    if xs == [] then 0 else Sum(xs[..|xs| - 1]) + xs[|xs| - 1]
  }

  /** Deviation from the mean, times the length. */
  function Centered(frame: seq<Sample>): (r: seq<int>)
    ensures |r| == |frame|
  {
    seq(|frame|, i requires 0 <= i < |frame| => |frame| * frame[i] - Sum(frame))
  }

  function SquaredSum(xs: seq<int>): int {
    if xs == [] then 0 else SquaredSum(xs[..|xs| - 1]) + xs[|xs| - 1] * xs[|xs| - 1]
  }

  function Crossings(xs: seq<int>): nat {
    if |xs| < 2 then 0
    else
      var previous, current := xs[|xs| - 2], xs[|xs| - 1];
      Crossings(xs[..|xs| - 1]) + if (previous < 0) != (current < 0) then 1 else 0
  }

  /** Root mean square at least 0.01 of full scale and a zero-crossing rate from 0.015 to
      0.32, over the whole frame. */
  predicate Audible(frame: seq<Sample>) {
    var centered := Centered(frame);
    && |frame| >= 2
    && SquaredSum(centered) * 10_000 >= 32_767 * 32_767 * |frame| * |frame| * |frame|
    && 1_000 * Crossings(centered) >= 15 * (|frame| - 1)
    && 100 * Crossings(centered) <= 32 * (|frame| - 1)
  }

  datatype Quality = Quality(total: nat, audible: nat)

  function SaturatingNext(n: nat): nat {
    if n < 0xffff_ffff then n + 1 else n
  }

  function ObserveFrame(q: Quality, frame: seq<Sample>): Quality {
    Quality(SaturatingNext(q.total), if Audible(frame) then SaturatingNext(q.audible) else q.audible)
  }

  /** Whole frames from the front; an incomplete last frame is not looked at. */
  function Observe(q: Quality, samples: seq<Sample>): Quality
    decreases |samples|
  {
    if |samples| < FRAME_SAMPLES then q
    else Observe(ObserveFrame(q, samples[..FRAME_SAMPLES]), samples[FRAME_SAMPLES..])
  }

  function Assess(samples: seq<Sample>): Quality {
    Observe(Quality(0, 0), samples)
  }

  predicate AcceptsAsr(q: Quality) {
    q.audible >= MIN_AUDIBLE_SPEECH_FRAMES
  }

  lemma {:induction false} ObserveConcat(q: Quality, a: seq<Sample>, b: seq<Sample>)
    requires |a| % FRAME_SAMPLES == 0
    ensures Observe(q, a + b) == Observe(Observe(q, a), b)
    decreases |a|
  {
    if a == [] {
      assert a + b == b;
    } else {
      var rest := a[FRAME_SAMPLES..];
      assert (a + b)[..FRAME_SAMPLES] == a[..FRAME_SAMPLES];
      assert (a + b)[FRAME_SAMPLES..] == rest + b;
      ObserveConcat(ObserveFrame(q, a[..FRAME_SAMPLES]), rest, b);
    }
  }

  lemma {:induction false} ObserveGrows(q: Quality, samples: seq<Sample>)
    ensures AcceptsAsr(q) ==> AcceptsAsr(Observe(q, samples))
    decreases |samples|
  {
    if |samples| >= FRAME_SAMPLES {
      ObserveGrows(ObserveFrame(q, samples[..FRAME_SAMPLES]), samples[FRAME_SAMPLES..]);
    }
  }

  class SpeechQuality {
    var total: nat
    var audible: nat

    function Value(): Quality
      reads this
    {
      Quality(total, audible)
    }

    constructor ()
      ensures Value() == Quality(0, 0)
    {
      total, audible := 0, 0;
    }

    method ObserveSamples(samples: seq<Sample>)
      modifies this
      ensures Value() == Observe(old(Value()), samples)
    {
      var rest := samples;
      while |rest| >= FRAME_SAMPLES
        invariant Observe(Value(), rest) == Observe(old(Value()), samples)
      {
        var frame := rest[..FRAME_SAMPLES];
        var features := FrameFeatures(frame);
        total := SaturatingNext(total);
        if features {
          audible := SaturatingNext(audible);
        }
        rest := rest[FRAME_SAMPLES..];
      }
    }
  }

  /** The accumulator loops of the frame features, and the gate on them. */
  method FrameFeatures(frame: seq<Sample>) returns (audible: bool)
    ensures audible == Audible(frame)
  {
    if |frame| < 2 {
      return false;
    }
    var sum: int := 0;
    for i := 0 to |frame|
      invariant sum == Sum(frame[..i])
    {
      assert frame[..i + 1][..i] == frame[..i];
      sum := sum + frame[i];
    }
    assert frame[..|frame|] == frame;
    ghost var centered := Centered(frame);
    var squared, crossings := 0, 0;
    for i := 0 to |frame|
      invariant squared == SquaredSum(centered[..i])
      invariant crossings == Crossings(centered[..i])
    {
      assert centered[..i + 1][..i] == centered[..i];
      var current := |frame| * frame[i] - sum;
      squared := squared + current * current;
      if i > 0 {
        var previous := |frame| * frame[i - 1] - sum;
        if (previous < 0 && current >= 0) || (previous >= 0 && current < 0) {
          crossings := crossings + 1;
        }
      }
    }
    assert centered[..|frame|] == centered;
    audible := squared * 10_000 >= 32_767 * 32_767 * |frame| * |frame| * |frame|
               && 1_000 * crossings >= 15 * (|frame| - 1) && 100 * crossings <= 32 * (|frame| - 1);
  }
}
