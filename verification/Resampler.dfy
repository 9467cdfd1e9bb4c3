/** The browser's audio front end: a ring-buffer FIR filter, a streaming linear
    resampler and 512-sample framing, each against its whole-stream definition.
    Samples are real numbers. */
module Resampler {
  import opened Audio
  import opened Common

  const OUTPUT_RATE: nat := 16_000

  // -------------------------------------------------------------- whole-stream forms

  /** The stream, zero before its start. */
  function Tap(fed: seq<real>, n: int): real {
    if 0 <= n < |fed| then fed[n] else 0.0
  }

  /** The first `taps` terms of the convolution at `n`. */
  function PartialConvolution(c: seq<real>, fed: seq<real>, n: int, taps: nat): real
    requires taps <= |c|
  {
    if taps == 0 then 0.0
    else PartialConvolution(c, fed, n, taps - 1) + c[taps - 1] * Tap(fed, n - (taps - 1))
  }

  function Convolution(c: seq<real>, fed: seq<real>, n: int): real {
    PartialConvolution(c, fed, n, |c|)
  }

  /** Output `k`: the filtered stream at `k * rate / 16000`, interpolated linearly. */
  function OutputAt(c: seq<real>, fed: seq<real>, rate: nat, k: nat): real {
    var left := k * rate / OUTPUT_RATE;
    var fraction := (k * rate % OUTPUT_RATE) as real / OUTPUT_RATE as real;
    Convolution(c, fed, left) + (Convolution(c, fed, left + 1) - Convolution(c, fed, left)) * fraction
  }

  /** How many outputs `n` inputs allow. */
  function OutputCount(n: nat, rate: nat): nat
    requires rate > 0
  {
    if n <= 1 then 0 else (OUTPUT_RATE * (n - 1) + rate - 1) / rate
  }

  function WholeOutput(c: seq<real>, fed: seq<real>, rate: nat): seq<real>
    requires rate > 0
  {
    seq(OutputCount(|fed|, rate), k requires 0 <= k => OutputAt(c, fed, rate, k))
  }

  /** Output `k` is there exactly when its position is before the last input. */
  lemma OutputCountIff(n: nat, rate: nat, k: nat)
    requires rate > 0
    ensures k < OutputCount(n, rate) <==> k * rate + OUTPUT_RATE < OUTPUT_RATE * n
  {
    if n > 1 {
      var a := OUTPUT_RATE * (n - 1);
      CeilingIff(a, rate, k);
    }
  }

  lemma CeilingIff(a: nat, rate: nat, k: nat)
    requires rate > 0
    ensures k < (a + rate - 1) / rate <==> k * rate < a
  {
    var q := (a + rate - 1) / rate;
    assert q * rate <= a + rate - 1 < q * rate + rate by {
      DivisionBounds(a + rate - 1, rate);
    }
    if k < q {
      Times(k + 1, q, rate);
    } else {
      Times(q, k, rate);
    }
  }

  lemma DivisionBounds(a: nat, b: nat)
    requires b > 0
    ensures a / b * b <= a < a / b * b + b
  {
    assert a == a / b * b + a % b;
  }

  lemma Times(a: nat, b: nat, c: nat)
    requires a <= b
    ensures a * c <= b * c
  {
  }

  // ------------------------------------------------------------------ the FIR filter

  /** How many samples ago ring slot `i` was written, when `cursor` is written next. */
  function Age(cursor: nat, i: nat, length: nat): int {
    if i < cursor then cursor - i else cursor - i + length
  }

  lemma NextRemainder(n: nat, length: nat)
    requires length > 0
    ensures (n + 1) % length == if n % length + 1 == length then 0 else n % length + 1
  {
    var q, r := n / length, n % length;
    assert n == q * length + r;
    assert (q + 1) * length == q * length + length;
    if r + 1 == length {
      RemainderIs(q + 1, 0, length);
    } else {
      RemainderIs(q, r + 1, length);
    }
  }

  lemma RemainderIs(q: nat, r: nat, length: nat)
    requires r < length
    ensures (q * length + r) % length == r
  {
    var a := q * length + r;
    var d := a / length;
    DivisionBounds(a, length);
    if d < q {
      Times(d + 1, q, length);
    } else if d > q {
      Times(q + 1, d, length);
    }
    assert a == d * length + a % length;
  }

  class AntiAliasFilter {
    const coefficients: seq<real>
    const history: array<real>
    var cursor: nat
    ghost var fed: seq<real>

    ghost predicate Valid()
      reads this, history
    {
      && history.Length == |coefficients| > 0
      && cursor == |fed| % history.Length
      && forall i :: 0 <= i < history.Length ==> history[i] == Tap(fed, |fed| - Age(cursor, i, history.Length))
    }

    constructor (coefficients: seq<real>)
      requires coefficients != []
      ensures Valid() && fresh(history) && fed == [] && this.coefficients == coefficients
    {
      this.coefficients := coefficients;
      history := new real[|coefficients|](_ => 0.0);
      cursor, fed := 0, [];
    }

    method Process(sample: real) returns (output: real)
      requires Valid()
      modifies this, history
      ensures Valid() && fed == old(fed) + [sample]
      ensures output == Convolution(coefficients, fed, |fed| - 1)
    {
      var length := history.Length;
      history[cursor] := sample;
      fed := fed + [sample];
      output := 0.0;
      var index := cursor;
      for j := 0 to length
        invariant 0 <= index < length
        invariant j < length ==> index == if cursor >= j then cursor - j else cursor - j + length
        invariant output == PartialConvolution(coefficients, fed, |fed| - 1, j)
      {
        assert history[index] == Tap(fed, |fed| - 1 - j);
        output := output + coefficients[j] * history[index];
        index := if index == 0 then length - 1 else index - 1;
      }
      NextRemainder(|fed| - 1, length);
      cursor := if cursor + 1 == length then 0 else cursor + 1;
    }

    method Reset()
      requires Valid()
      modifies this, history
      ensures Valid() && fed == []
    {
      for i := 0 to history.Length
        invariant forall k :: 0 <= k < i ==> history[k] == 0.0
        modifies history
      {
        history[i] := 0.0;
      }
      cursor, fed := 0, [];
    }
  }

  // ------------------------------------------------------------- the linear resampler

  lemma {:induction false} PartialStable(c: seq<real>, fed: seq<real>, more: seq<real>, n: int, taps: nat)
    requires taps <= |c| && n < |fed|
    ensures PartialConvolution(c, fed + more, n, taps) == PartialConvolution(c, fed, n, taps)
  {
    if taps > 0 {
      PartialStable(c, fed, more, n, taps - 1);
    }
  }

  /** Later input does not change what the filter gave. */
  lemma ConvolutionStable(c: seq<real>, fed: seq<real>, more: seq<real>, n: int)
    requires n < |fed|
    ensures Convolution(c, fed + more, n) == Convolution(c, fed, n)
  {
    PartialStable(c, fed, more, n, |c|);
  }

  /** Later input does not change what was output. */
  lemma OutputStable(c: seq<real>, fed: seq<real>, more: seq<real>, rate: nat, k: nat)
    requires rate > 0 && k < OutputCount(|fed|, rate)
    ensures OutputAt(c, fed + more, rate, k) == OutputAt(c, fed, rate, k)
  {
    OutputCountIff(|fed|, rate, k);
    var left := k * rate / OUTPUT_RATE;
    ConvolutionStable(c, fed, more, left);
    ConvolutionStable(c, fed, more, left + 1);
  }

  lemma OutputCountMonotone(n: nat, m: nat, rate: nat)
    requires rate > 0 && n <= m
    ensures OutputCount(n, rate) <= OutputCount(m, rate)
  {
    var k := OutputCount(n, rate);
    if k > 0 {
      OutputCountIff(n, rate, k - 1);
      OutputCountIff(m, rate, k - 1);
    }
  }

  lemma WholeOutputGrows(c: seq<real>, fed: seq<real>, more: seq<real>, rate: nat)
    requires rate > 0
    ensures OutputCount(|fed|, rate) <= OutputCount(|fed + more|, rate)
    ensures WholeOutput(c, fed + more, rate)[..OutputCount(|fed|, rate)] == WholeOutput(c, fed, rate)
  {
    OutputCountMonotone(|fed|, |fed + more|, rate);
    forall k | 0 <= k < OutputCount(|fed|, rate)
      ensures WholeOutput(c, fed + more, rate)[k] == WholeOutput(c, fed, rate)[k]
    {
      OutputStable(c, fed, more, rate, k);
    }
  }

  /** How many filtered samples have been dropped from the front. */
  function Drained(n: nat, rate: nat): nat
    requires rate > 0
  {
    var passed := OutputCount(n, rate) * rate / OUTPUT_RATE;
    if passed <= n then passed else n
  }

  /** The filtered stream from `from` on. */
  function Filtered(c: seq<real>, fed: seq<real>, from: nat): seq<real>
    requires from <= |fed|
  {
    seq(|fed| - from, i requires 0 <= i => Convolution(c, fed, from + i))
  }

  lemma FilteredGrows(c: seq<real>, fed: seq<real>, sample: real, from: nat)
    requires from <= |fed|
    ensures Filtered(c, fed + [sample], from) == Filtered(c, fed, from) + [Convolution(c, fed + [sample], |fed|)]
  {
    var before, after := Filtered(c, fed, from), Filtered(c, fed + [sample], from);
    forall i | 0 <= i < |before|
      ensures after[i] == before[i]
    {
      ConvolutionStable(c, fed, [sample], from + i);
    }
    assert after == before + [after[|before|]];
  }

  /** The position counts sixteen-thousandths of an input sample: `position / 16000` is the
      position the source keeps. */
  function Interpolated(source: seq<real>, position: nat): real
    requires position + OUTPUT_RATE < OUTPUT_RATE * |source|
  {
    var left := position / OUTPUT_RATE;
    var fraction := (position % OUTPUT_RATE) as real / OUTPUT_RATE as real;
    source[left] + (source[left + 1] - source[left]) * fraction
  }

  /** Interpolating in what is left of the filtered stream is interpolating in all of it. */
  lemma InterpolatedIsOutput(c: seq<real>, fed: seq<real>, rate: nat, k: nat, drained: nat, position: nat)
    requires rate > 0 && drained <= |fed| && k * rate == position + OUTPUT_RATE * drained
    requires position + OUTPUT_RATE < OUTPUT_RATE * (|fed| - drained)
    ensures k < OutputCount(|fed|, rate)
    ensures Interpolated(Filtered(c, fed, drained), position) == WholeOutput(c, fed, rate)[k]
  {
    OutputCountIff(|fed|, rate, k);
    var left := position / OUTPUT_RATE;
    assert Filtered(c, fed, drained)[left] == Convolution(c, fed, drained + left);
    assert Filtered(c, fed, drained)[left + 1] == Convolution(c, fed, drained + left + 1);
  }

  /** Everything the resampler keeps between blocks. */
  datatype State = State(source: seq<real>, position: int, history: seq<real>, cursor: nat)

  /** What that is after some input, in whatever blocks it came. */
  function StateAfter(c: seq<real>, rate: nat, fed: seq<real>): State
    requires c != [] && rate > 0
  {
    var n := |fed|;
    State(Filtered(c, fed, Drained(n, rate)), OutputCount(n, rate) * rate - OUTPUT_RATE * Drained(n, rate),
          seq(|c|, i requires 0 <= i < |c| => Tap(fed, n - Age(n % |c|, i, |c|))), n % |c|)
  }

  class StreamingResampler {
    const filter: AntiAliasFilter
    const rate: nat
    var source: seq<real>
    var position: int

    function Value(): State
      reads this, filter, filter.history
    {
      State(source, position, filter.history[..], filter.cursor)
    }

    /** Everything the resampler keeps is a function of the input so far. */
    lemma StateDetermined()
      requires Valid()
      ensures Value() == StateAfter(filter.coefficients, rate, filter.fed)
    {
      var after := StateAfter(filter.coefficients, rate, filter.fed);
      assert forall i :: 0 <= i < |after.history| ==> filter.history[i] == after.history[i];
    }

    ghost predicate Valid()
      reads this, filter, filter.history
    {
      && filter.Valid() && rate > 0
      && var n := |filter.fed|;
      && source == Filtered(filter.coefficients, filter.fed, Drained(n, rate))
      && position == OutputCount(n, rate) * rate - OUTPUT_RATE * Drained(n, rate)
    }

    constructor (coefficients: seq<real>, rate: nat)
      requires coefficients != [] && rate > 0
      ensures Valid() && fresh(filter) && fresh(filter.history)
      ensures filter.fed == [] && filter.coefficients == coefficients && this.rate == rate
    {
      filter := new AntiAliasFilter(coefficients);
      this.rate := rate;
      source, position := [], 0;
    }

    method Push(input: seq<real>, ghost from: nat)
      requires filter.Valid() && from <= |filter.fed| && source == Filtered(filter.coefficients, filter.fed, from)
      modifies this`source, filter, filter.history
      ensures filter.Valid() && filter.fed == old(filter.fed) + input
      ensures source == Filtered(filter.coefficients, filter.fed, from)
    {
      ghost var was := filter.fed;
      for i := 0 to |input|
        invariant filter.Valid() && filter.fed == was + input[..i]
        invariant source == Filtered(filter.coefficients, filter.fed, from)
      {
        ghost var before := filter.fed;
        var filtered := filter.Process(input[i]);
        FilteredGrows(filter.coefficients, before, input[i], from);
        source := source + [filtered];
        assert was + input[..i + 1] == was + input[..i] + [input[i]];
      }
      assert input[..|input|] == input;
    }

    /** Every output the source allows, from output `first` on. */
    method Interpolate(ghost first: nat, ghost drained: nat) returns (output: seq<real>)
      requires rate > 0 && drained <= |filter.fed| && first <= OutputCount(|filter.fed|, rate)
      requires source == Filtered(filter.coefficients, filter.fed, drained)
      requires position == first * rate - OUTPUT_RATE * drained && position >= 0
      modifies this`position
      ensures position == OutputCount(|filter.fed|, rate) * rate - OUTPUT_RATE * drained && position >= 0
      ensures output == WholeOutput(filter.coefficients, filter.fed, rate)[first..]
    {
      ghost var n := |filter.fed|;
      ghost var k := first;
      output := [];
      while position + OUTPUT_RATE < OUTPUT_RATE * |source|
        invariant first <= k <= OutputCount(n, rate)
        invariant position == k * rate - OUTPUT_RATE * drained && position >= 0
        invariant output == WholeOutput(filter.coefficients, filter.fed, rate)[first..k]
        decreases OUTPUT_RATE * |source| - position
      {
        InterpolatedIsOutput(filter.coefficients, filter.fed, rate, k, drained, position);
        output := output + [Interpolated(source, position)];
        position := position + rate;
        NextMultiple(k, rate);
        k := k + 1;
      }
      OutputCountIff(n, rate, k);
    }

    /** Drops what no later output needs. */
    method DropPassed(ghost drained: nat)
      requires rate > 0 && drained <= |filter.fed|
      requires source == Filtered(filter.coefficients, filter.fed, drained)
      requires position == OutputCount(|filter.fed|, rate) * rate - OUTPUT_RATE * drained && position >= 0
      modifies this`source, this`position
      ensures source == Filtered(filter.coefficients, filter.fed, Drained(|filter.fed|, rate))
      ensures position == OutputCount(|filter.fed|, rate) * rate - OUTPUT_RATE * Drained(|filter.fed|, rate)
    {
      ghost var n := |filter.fed|;
      var whole := position / OUTPUT_RATE;
      var consumed := if whole <= |source| then whole else |source|;
      assert Drained(n, rate) == drained + consumed;
      source := source[consumed..];
      position := position - OUTPUT_RATE * consumed;
    }

    method Process(input: seq<real>) returns (output: seq<real>)
      requires Valid()
      modifies this, filter, filter.history
      ensures Valid() && filter.fed == old(filter.fed) + input
      ensures WholeOutput(filter.coefficients, old(filter.fed), rate) + output ==
              WholeOutput(filter.coefficients, filter.fed, rate)
    {
      ghost var was := filter.fed;
      ghost var first := OutputCount(|was|, rate);
      ghost var drained := Drained(|was|, rate);
      PositionNotNegative(|was|, rate);
      Push(input, drained);
      WholeOutputGrows(filter.coefficients, was, input, rate);
      output := Interpolate(first, drained);
      DropPassed(drained);
    }

    method Reset()
      requires Valid()
      modifies this, filter, filter.history
      ensures Valid() && filter.fed == []
    {
      filter.Reset();
      source, position := [], 0;
    }
  }

  lemma NextMultiple(k: nat, rate: nat)
    ensures (k + 1) * rate == k * rate + rate
  {
  }

  lemma PositionNotNegative(n: nat, rate: nat)
    requires rate > 0
    ensures OutputCount(n, rate) * rate >= OUTPUT_RATE * Drained(n, rate)
  {
  }

  // ---------------------------------------------------------------- what they come to

  /** Output `k` lies on the straight line between the filtered samples on either side of its
      position `k * rate / 16000`, and is the filtered sample itself at a whole position. */
  lemma OutputOnLine(c: seq<real>, fed: seq<real>, rate: nat, k: nat)
    ensures var left, part := k * rate / 16_000, k * rate % 16_000;
            16_000.0 * OutputAt(c, fed, rate, k) ==
            (16_000 - part) as real * Convolution(c, fed, left) + part as real * Convolution(c, fed, left + 1)
    ensures k * rate % 16_000 == 0 ==> OutputAt(c, fed, rate, k) == Convolution(c, fed, k * rate / 16_000)
  {
    var left, part := k * rate / 16_000, k * rate % 16_000;
    OnLine(Convolution(c, fed, left), Convolution(c, fed, left + 1), part);
  }

  lemma OnLine(a: real, b: real, part: nat)
    requires part < 16_000
    ensures var y := a + (b - a) * (part as real / 16_000.0);
            && 16_000.0 * y == (16_000 - part) as real * a + part as real * b
            && (part == 0 ==> y == a)
  {
  }

  /** At the output rate the stream is only filtered. */
  lemma SameRateFilters(c: seq<real>, fed: seq<real>, k: nat)
    ensures OutputAt(c, fed, 16_000, k) == Convolution(c, fed, k)
    ensures OutputCount(|fed|, 16_000) == if |fed| == 0 then 0 else |fed| - 1
  {
    OutputOnLine(c, fed, 16_000, k);
  }

  function Impulse(n: nat, m: nat): seq<real> {
    seq(n, i => if i == m then 1.0 else 0.0)
  }

  lemma {:induction false} PartialImpulse(c: seq<real>, n: nat, m: nat, at: nat, taps: nat)
    requires taps <= |c| && m < n && at < n
    ensures PartialConvolution(c, Impulse(n, m), at, taps) == if m <= at < m + taps then c[at - m] else 0.0
  {
    if taps > 0 {
      PartialImpulse(c, n, m, at, taps - 1);
    }
  }

  /** The filter answers an impulse with its coefficients. */
  lemma ImpulseResponse(c: seq<real>, n: nat, m: nat, at: nat)
    requires m < n && at < n
    ensures Convolution(c, Impulse(n, m), at) == if m <= at < m + |c| then c[at - m] else 0.0
  {
    PartialImpulse(c, n, m, at, |c|);
  }

  function Weighted(a: real, xs: seq<real>, b: real, ys: seq<real>): seq<real>
    requires |xs| == |ys|
  {
    seq(|xs|, i requires 0 <= i < |xs| => a * xs[i] + b * ys[i])
  }

  lemma {:induction false} PartialLinear(c: seq<real>, a: real, xs: seq<real>, b: real, ys: seq<real>, n: int,
                                         taps: nat)
    requires |xs| == |ys| && taps <= |c|
    ensures PartialConvolution(c, Weighted(a, xs, b, ys), n, taps) ==
            a * PartialConvolution(c, xs, n, taps) + b * PartialConvolution(c, ys, n, taps)
  {
    if taps > 0 {
      var k := n - (taps - 1);
      PartialLinear(c, a, xs, b, ys, n, taps - 1);
      TapWeighted(a, xs, b, ys, k);
      Sums(a, b, c[taps - 1], PartialConvolution(c, xs, n, taps - 1), PartialConvolution(c, ys, n, taps - 1),
           Tap(xs, k), Tap(ys, k));
    }
  }

  lemma TapWeighted(a: real, xs: seq<real>, b: real, ys: seq<real>, k: int)
    requires |xs| == |ys|
    ensures Tap(Weighted(a, xs, b, ys), k) == a * Tap(xs, k) + b * Tap(ys, k)
  {
  }

  lemma Sums(a: real, b: real, c: real, p: real, q: real, x: real, y: real)
    ensures a * p + b * q + c * (a * x + b * y) == a * (p + c * x) + b * (q + c * y)
  {
  }

  /** The filter is linear, so the impulse response decides it. */
  lemma FilterIsLinear(c: seq<real>, a: real, xs: seq<real>, b: real, ys: seq<real>, n: int)
    requires |xs| == |ys|
    ensures Convolution(c, Weighted(a, xs, b, ys), n) == a * Convolution(c, xs, n) + b * Convolution(c, ys, n)
  {
    PartialLinear(c, a, xs, b, ys, n, |c|);
  }

  // -------------------------------------------------------------------------- framing

  const MAX_INPUT_SAMPLES: nat := 2_048

  function Truncate(x: real): int {
    if x >= 0.0 then x.Floor else -((-x).Floor)
  }

  function FloatToPcm16(x: real): Sample {
    var clamped := if x < -1.0 then -1.0 else if x > 1.0 then 1.0 else x;
    if clamped < 0.0 then Truncate(clamped * 32_768.0) else Truncate(clamped * 32_767.0)
  }

  /** Full scale is the range of the samples; between, a value is scaled and cut towards
      zero. */
  lemma PcmOf(x: real)
    ensures x >= 1.0 ==> FloatToPcm16(x) == 32_767
    ensures x <= -1.0 ==> FloatToPcm16(x) == -32_768
    ensures 0.0 <= x <= 1.0 ==> FloatToPcm16(x) as real <= 32_767.0 * x < FloatToPcm16(x) as real + 1.0
    ensures -1.0 <= x < 0.0 ==> FloatToPcm16(x) as real - 1.0 < 32_768.0 * x <= FloatToPcm16(x) as real
  {
  }

  function Pcm(xs: seq<real>): seq<Sample> {
    seq(|xs|, i requires 0 <= i < |xs| => FloatToPcm16(xs[i]))
  }

  lemma PcmMore(xs: seq<real>, x: real)
    ensures Pcm(xs + [x]) == Pcm(xs) + [FloatToPcm16(x)]
  {
  }

  /** A stream cut into whole frames. */
  function WholeFrames(samples: seq<Sample>): seq<seq<Sample>> {
    seq(|samples| / FRAME_SAMPLES, i requires 0 <= i < |samples| / FRAME_SAMPLES =>
      samples[FRAME_SAMPLES * i..FRAME_SAMPLES * i + FRAME_SAMPLES])
  }

  lemma WholeFramesGrow(samples: seq<Sample>, sample: Sample)
    ensures WholeFrames(samples + [sample]) == WholeFrames(samples) +
            if (|samples| + 1) % FRAME_SAMPLES == 0
            then [(samples + [sample])[|samples| + 1 - FRAME_SAMPLES..]] else []
  {
    var n := |samples|;
    var before, after := WholeFrames(samples), WholeFrames(samples + [sample]);
    forall i | 0 <= i < |before|
      ensures after[i] == before[i]
    {
      assert FRAME_SAMPLES * i + FRAME_SAMPLES <= n;
    }
    if (n + 1) % FRAME_SAMPLES == 0 {
      assert |after| == |before| + 1;
      assert FRAME_SAMPLES * |before| == n + 1 - FRAME_SAMPLES;
      assert after[|before|] == (samples + [sample])[n + 1 - FRAME_SAMPLES..n + 1];
      assert (samples + [sample])[n + 1 - FRAME_SAMPLES..n + 1] == (samples + [sample])[n + 1 - FRAME_SAMPLES..];
      assert after == before + [after[|before|]];
    } else {
      assert |after| == |before|;
    }
  }

  /** One more sample in the frame being built, which it may complete. */
  lemma FrameMore(pushed: seq<Sample>, frame: seq<Sample>, offset: nat, sample: Sample)
    requires |frame| == FRAME_SAMPLES && offset == |pushed| % FRAME_SAMPLES
    requires frame[..offset] == pushed[|pushed| - offset..]
    ensures var after, all := frame[offset := sample], pushed + [sample];
            && after[..offset + 1] == all[|all| - offset - 1..]
            && |all| % FRAME_SAMPLES == (if offset + 1 == FRAME_SAMPLES then 0 else offset + 1)
            && WholeFrames(all) == WholeFrames(pushed) + if offset + 1 == FRAME_SAMPLES then [after] else []
  {
    var after, all := frame[offset := sample], pushed + [sample];
    NextRemainder(|pushed|, FRAME_SAMPLES);
    WholeFramesGrow(pushed, sample);
    assert after[..offset + 1] == frame[..offset] + [sample];
    assert all[|all| - offset - 1..] == pushed[|pushed| - offset..] + [sample];
    if offset + 1 == FRAME_SAMPLES {
      assert after[..offset + 1] == after;
    }
  }

  class FrameBuilder {
    const frame: array<Sample>
    var frameOffset: nat
    ghost var pushed: seq<Sample>

    ghost predicate Valid()
      reads this, frame
    {
      && frame.Length == FRAME_SAMPLES
      && frameOffset == |pushed| % FRAME_SAMPLES
      && frame[..frameOffset] == pushed[|pushed| - frameOffset..]
    }

    constructor ()
      ensures Valid() && fresh(frame) && pushed == []
    {
      frame := new Sample[FRAME_SAMPLES](_ => 0);
      frameOffset, pushed := 0, [];
    }

    method Push(sample: Sample) returns (frames: seq<seq<Sample>>)
      requires Valid()
      modifies this, frame
      ensures Valid() && pushed == old(pushed) + [sample]
      ensures WholeFrames(old(pushed)) + frames == WholeFrames(pushed)
    {
      ghost var was := frame[..];
      assert frame[..frameOffset] == was[..frameOffset];
      FrameMore(pushed, was, frameOffset, sample);
      frame[frameOffset] := sample;
      assert frame[..] == was[frameOffset := sample];
      frameOffset := frameOffset + 1;
      pushed := pushed + [sample];
      assert frame[..frameOffset] == frame[..][..frameOffset];
      frames := [];
      if frameOffset == FRAME_SAMPLES {
        frames := [frame[..]];
        frameOffset := 0;
      }
    }

    method PushAll(output: seq<real>) returns (frames: seq<seq<Sample>>)
      requires Valid()
      modifies this, frame
      ensures Valid() && pushed == old(pushed) + Pcm(output)
      ensures WholeFrames(old(pushed)) + frames == WholeFrames(pushed)
    {
      frames := [];
      for k := 0 to |output|
        invariant Valid() && pushed == old(pushed) + Pcm(output[..k])
        invariant WholeFrames(old(pushed)) + frames == WholeFrames(pushed)
      {
        var more := Push(FloatToPcm16(output[k]));
        frames := frames + more;
        PcmMore(output[..k], output[k]);
        assert output[..k + 1] == output[..k] + [output[k]];
      }
      assert output[..|output|] == output;
    }
  }

  /** However the input is cut into blocks, the output is the whole-stream form, and so are
      the samples, the position and the filter's ring that are left for what follows. */
  method ResampleBlocks(coefficients: seq<real>, rate: nat, blocks: seq<seq<real>>)
      returns (output: seq<real>, state: State)
    requires coefficients != [] && rate > 0
    ensures output == WholeOutput(coefficients, Flatten(blocks), rate)
    ensures state == StateAfter(coefficients, rate, Flatten(blocks))
  {
    var resampler := new StreamingResampler(coefficients, rate);
    output := [];
    for i := 0 to |blocks|
      invariant fresh(resampler) && fresh(resampler.filter) && fresh(resampler.filter.history)
      invariant resampler.Valid() && resampler.rate == rate && resampler.filter.coefficients == coefficients
      invariant resampler.filter.fed == Flatten(blocks[..i])
      invariant output == WholeOutput(coefficients, Flatten(blocks[..i]), rate)
    {
      assert blocks[..i + 1][..i] == blocks[..i];
      var more := resampler.Process(blocks[i]);
      output := output + more;
    }
    assert blocks[..|blocks|] == blocks;
    resampler.StateDetermined();
    state := resampler.Value();
  }

  /** A block is processed when it is neither empty nor larger than the input buffer. */
  predicate Usable(block: seq<real>) {
    0 < |block| <= MAX_INPUT_SAMPLES
  }

  /** The samples of the blocks that are processed. */
  function Fed(blocks: seq<seq<real>>): seq<real> {
    if blocks == [] then []
    else
      var last := blocks[|blocks| - 1];
      Fed(blocks[..|blocks| - 1]) + if Usable(last) then last else []
  }

  lemma FedIs(blocks: seq<seq<real>>, block: seq<real>)
    ensures Fed([]) == [] && Fed(blocks + [block]) == Fed(blocks) + if 1 <= |block| <= 2_048 then block else []
  {
    assert (blocks + [block])[..|blocks|] == blocks;
  }

  /** The samples that reach the framing for this input. */
  function ResampledPcm(c: seq<real>, fed: seq<real>, rate: nat): seq<Sample>
    requires rate > 0
  {
    Pcm(WholeOutput(c, fed, rate))
  }

  class AudioFrontEnd {
    const coefficients: seq<real>
    const rate: nat
    const resampler: StreamingResampler
    const builder: FrameBuilder
    ghost const repr: set<object>
    ghost var fed: seq<real>

    /** What has been pushed to the framing is the whole resampled stream. */
    ghost predicate Valid()
      reads this, repr
    {
      && repr == {resampler, resampler.filter, resampler.filter.history, builder, builder.frame} && this !in repr
      && resampler.Valid() && builder.Valid()
      && resampler.filter.coefficients == coefficients && resampler.rate == rate && resampler.filter.fed == fed
      && builder.pushed == ResampledPcm(coefficients, fed, rate)
    }

    constructor (coefficients: seq<real>, rate: nat)
      requires coefficients != [] && rate > 0
      ensures Valid() && fresh(repr)
      ensures this.coefficients == coefficients && this.rate == rate && fed == []
    {
      this.coefficients, this.rate := coefficients, rate;
      var resampler := new StreamingResampler(coefficients, rate);
      var builder := new FrameBuilder();
      this.resampler, this.builder := resampler, builder;
      repr := {resampler, resampler.filter, resampler.filter.history, builder, builder.frame};
      fed := [];
    }

    method ProcessInput(block: seq<real>) returns (accepted: bool, frames: seq<seq<Sample>>)
      requires Valid()
      modifies this`fed, repr
      ensures Valid() && (accepted <==> 1 <= |block| <= 2_048)
      ensures fed == old(fed) + if accepted then block else []
      ensures rate > 0 && WholeFrames(ResampledPcm(coefficients, old(fed), rate)) + frames ==
                          WholeFrames(ResampledPcm(coefficients, fed, rate))
    {
      if !Usable(block) {
        assert fed == fed + [];
        return false, [];
      }
      ghost var was := fed;
      var output := resampler.Process(block);
      fed := fed + block;
      assert builder.Valid() && builder.pushed == ResampledPcm(coefficients, was, rate);
      frames := builder.PushAll(output);
      assert builder.pushed == Pcm(WholeOutput(coefficients, was, rate) + output);
      accepted := true;
    }
  }

  /** However the microphone's samples are cut into blocks, the frames are those of the
      whole resampled stream. */
  method FrameBlocks(coefficients: seq<real>, rate: nat, blocks: seq<seq<real>>) returns (frames: seq<seq<Sample>>)
    requires coefficients != [] && rate > 0
    ensures frames == WholeFrames(ResampledPcm(coefficients, Fed(blocks), rate))
  {
    var frontEnd := new AudioFrontEnd(coefficients, rate);
    frames := [];
    for i := 0 to |blocks|
      invariant fresh(frontEnd) && fresh(frontEnd.repr) && frontEnd.Valid()
      invariant frontEnd.coefficients == coefficients && frontEnd.rate == rate
      invariant frontEnd.fed == Fed(blocks[..i])
      invariant frames == WholeFrames(ResampledPcm(coefficients, frontEnd.fed, rate))
    {
      assert blocks[..i + 1][..i] == blocks[..i];
      var accepted, more := frontEnd.ProcessInput(blocks[i]);
      frames := frames + more;
    }
    assert blocks[..|blocks|] == blocks;
  }
}
