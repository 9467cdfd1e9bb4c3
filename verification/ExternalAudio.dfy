/** The microphone worklet's buffer for audio from elsewhere: chunks read one sample at a
    time, the oldest dropped when there is too much. */
module ExternalAudio {
  import opened Common

  /** The samples not yet read: the first chunk from the offset on, then the others. */
  function Waiting(chunks: seq<seq<real>>, offset: nat): seq<real> {
    if offset <= |Flatten(chunks)| then Flatten(chunks)[offset..] else []
  }

  predicate Shaped(chunks: seq<seq<real>>, offset: nat) {
    && (forall i :: 0 <= i < |chunks| ==> chunks[i] != [])
    && (if chunks == [] then offset == 0 else offset < |chunks[0]|)
  }

  lemma {:induction false} FlattenFirst(chunks: seq<seq<real>>)
    requires chunks != []
    ensures Flatten(chunks) == chunks[0] + Flatten(chunks[1..])
    decreases |chunks|
  {
    var front, last := chunks[..|chunks| - 1], chunks[|chunks| - 1];
    if front == [] {
      assert chunks[1..] == [];
      assert Flatten(chunks) == [] + last;
    } else {
      FlattenFirst(front);
      assert chunks[1..] == front[1..] + [last];
      FlattenSnoc(front[1..], last);
    }
  }

  // ------------------------------------------------------------------------- resampling

  /** JavaScript's `Math.floor` of a quotient of whole numbers. */
  function Floor(x: real): int {
    x.Floor
  }

  function OutputLength(length: nat, ratio: real): nat
    requires ratio > 0.0
  {
    var n := Floor(length as real / ratio);
    if n < 1 then 1 else n
  }

  function Position(index: nat, ratio: real): (p: real)
    requires ratio > 0.0
    ensures p >= 0.0
  {
    index as real * ratio
  }

  /** Linear interpolation, held at the last sample. */
  function SampleAt(input: seq<real>, position: real): real
    requires input != [] && position >= 0.0
  {
    var left := if Floor(position) < |input| then Floor(position) else |input| - 1;
    var right := if left + 1 < |input| then left + 1 else |input| - 1;
    (input[left] + (input[right] - input[left]) * (position - left as real)) / 32768.0
  }

  function Converted(input: seq<real>, ratio: real): (output: seq<real>)
    requires input != [] && ratio > 0.0
    ensures output != []
  {
    seq(OutputLength(|input|, ratio), i requires 0 <= i < OutputLength(|input|, ratio) =>
      SampleAt(input, Position(i, ratio)))
  }

  /** Input from a device at the worklet's own rate is only scaled. */
  lemma SameRateScales(input: seq<real>)
    requires input != []
    ensures |Converted(input, 1.0)| == |input|
    ensures forall i :: 0 <= i < |input| ==> Converted(input, 1.0)[i] == input[i] / 32_768.0
  {
    assert input != [] ==> (|input| as real / 1.0).Floor == |input|;
    forall i | 0 <= i < |input|
      ensures Converted(input, 1.0)[i] == input[i] / 32_768.0
    {
      assert Position(i, 1.0) == i as real && (i as real).Floor == i;
    }
  }

  /** As many whole steps of the ratio as there are in the length, and at least one. */
  predicate Steps(n: nat, length: nat, ratio: real) {
    (n as real * ratio <= length as real || n == 1) && length as real < (n + 1) as real * ratio
  }

  /** Otherwise there is one output for each whole step of the ratio in the input, and at least
      one; output `i` lies on the straight line between the inputs on either side of
      `i * ratio`, and is the last input where there is none beyond. */
  lemma OnTheLine(input: seq<real>, ratio: real, i: nat)
    requires input != [] && ratio > 0.0 && i < |Converted(input, ratio)|
    ensures Steps(|Converted(input, ratio)|, |input|, ratio)
    ensures var k := (i as real * ratio).Floor;
            var f := i as real * ratio - k as real;
            && 0 <= k < |input| && 0.0 <= f < 1.0
            && 32_768.0 * Converted(input, ratio)[i] ==
                 if k + 1 < |input| then (1.0 - f) * input[k] + f * input[k + 1] else input[k]
  {
    LengthFits(|input|, ratio);
    var p := i as real * ratio;
    BeforeEnd(i, |Converted(input, ratio)|, ratio, |input|);
    assert Converted(input, ratio)[i] == SampleAt(input, p);
    OnLineAt(input, p);
  }

  lemma OnLineAt(input: seq<real>, p: real)
    requires 0.0 <= p < |input| as real
    ensures var k := p.Floor;
            var f := p - k as real;
            && 0 <= k < |input| && 0.0 <= f < 1.0
            && 32_768.0 * SampleAt(input, p) ==
                 if k + 1 < |input| then (1.0 - f) * input[k] + f * input[k + 1] else input[k]
  {
    var k := p.Floor;
    if k + 1 < |input| {
      Line(input[k], input[k + 1], p - k as real);
    }
  }

  lemma LengthFits(length: nat, ratio: real)
    requires length > 0 && ratio > 0.0
    ensures Steps(OutputLength(length, ratio), length, ratio)
  {
    var q := length as real / ratio;
    Quotient(length as real, ratio, q);
    assert q > 0.0 by {
      if q <= 0.0 {
        Scale(q, 0.0, ratio);
      }
    }
    var n, m := q.Floor, OutputLength(length, ratio);
    Scale(n as real, q, ratio);
    var b := (m + 1) as real;
    StrictScale(q, b, ratio);
    assert length as real < b * ratio;
  }

  lemma Quotient(a: real, b: real, q: real)
    requires b > 0.0 && q == a / b
    ensures q * b == a
  {
  }

  lemma Scale(a: real, b: real, c: real)
    requires a <= b && c > 0.0
    ensures a * c <= b * c
  {
  }

  lemma StrictScale(a: real, b: real, c: real)
    requires a < b && c > 0.0
    ensures a * c < b * c
  {
  }

  lemma BeforeEnd(i: nat, n: nat, ratio: real, length: nat)
    requires i < n && ratio > 0.0 && length > 0 && Steps(n, length, ratio)
    ensures 0.0 <= i as real * ratio < length as real
  {
    Scale(0.0, i as real, ratio);
    if n > 1 {
      StrictScale(i as real, n as real, ratio);
    } else {
      assert i as real == 0.0;
    }
  }

  lemma Line(a: real, b: real, f: real)
    ensures a + (b - a) * f == (1.0 - f) * a + f * b
  {
  }

  // -------------------------------------------------------------------------- the buffer

  /** What dropping the oldest chunks leaves. */
  function Trimmed(chunks: seq<seq<real>>, offset: nat, most: nat): (seq<seq<real>>, nat) {
    if |Waiting(chunks, offset)| > most && |chunks| > 1 then Trimmed(chunks[1..], 0, most) else (chunks, offset)
  }

  /** Some of the oldest samples gone. */
  predicate Behind(kept: seq<real>, all: seq<real>) {
    |kept| <= |all| && kept == all[|all| - |kept|..]
  }

  lemma BehindRest(kept: seq<real>, first: seq<real>, rest: seq<real>)
    requires Behind(kept, rest)
    ensures Behind(kept, first + rest)
  {
  }

  /** Dropping takes from the front only, stops as soon as what is left is little enough,
      and leaves the newest chunk. */
  lemma {:induction false} TrimmedDropsOldest(chunks: seq<seq<real>>, offset: nat, most: nat)
    requires Shaped(chunks, offset) && chunks != []
    ensures var (kept, at) := Trimmed(chunks, offset, most);
            && Shaped(kept, at) && kept != [] && kept[|kept| - 1] == chunks[|chunks| - 1]
            && Behind(Waiting(kept, at), Waiting(chunks, offset))
            && (|Waiting(kept, at)| <= most || |kept| == 1)
    ensures |Waiting(chunks, offset)| <= most ==> Trimmed(chunks, offset, most) == (chunks, offset)
    decreases |chunks|
  {
    if |Waiting(chunks, offset)| > most && |chunks| > 1 {
      TrimmedDropsOldest(chunks[1..], 0, most);
      WaitingRest(chunks, offset);
      var (kept, at) := Trimmed(chunks[1..], 0, most);
      BehindRest(Waiting(kept, at), chunks[0][offset..], Waiting(chunks[1..], 0));
    }
  }

  /** ... which is whole, unless it was the only one and has been read from. */
  lemma {:induction false} TrimmedKeepsNewest(chunks: seq<seq<real>>, offset: nat, most: nat)
    requires Shaped(chunks, offset) && chunks != [] && (|chunks| > 1 || offset == 0)
    ensures var (kept, at) := Trimmed(chunks, offset, most); |Waiting(kept, at)| >= |chunks[|chunks| - 1]|
    decreases |chunks|
  {
    if |Waiting(chunks, offset)| > most && |chunks| > 1 {
      TrimmedKeepsNewest(chunks[1..], 0, most);
    } else {
      LastWhole(chunks, offset);
    }
  }

  /** Dropping stops as soon as it may: with the last chunk dropped there was too much. */
  lemma {:induction false} TrimmedNoMore(chunks: seq<seq<real>>, offset: nat, most: nat) returns (n: nat)
    requires chunks != []
    ensures DroppedInNeed(chunks, offset, most, n, Trimmed(chunks, offset, most).0, Trimmed(chunks, offset, most).1)
    decreases |chunks|
  {
    if |Waiting(chunks, offset)| > most && |chunks| > 1 {
      var fewer := TrimmedNoMore(chunks[1..], 0, most);
      OneMoreInNeed(chunks, offset, most, fewer, Trimmed(chunks[1..], 0, most).0, Trimmed(chunks[1..], 0, most).1);
      n := fewer + 1;
    } else {
      NoneDropped(chunks, offset, most);
      n := 0;
    }
  }

  lemma NoneDropped(chunks: seq<seq<real>>, offset: nat, most: nat)
    requires chunks != []
    ensures DroppedInNeed(chunks, offset, most, 0, chunks, offset)
  {
  }

  /** The first `n` chunks are gone, and without the last of them there was too much. */
  predicate DroppedInNeed(chunks: seq<seq<real>>, offset: nat, most: nat, n: nat, kept: seq<seq<real>>, at: nat) {
    && n < |chunks| && kept == chunks[n..] && at == (if n == 0 then offset else 0)
    && (n > 0 ==> |Waiting(chunks[n - 1..], if n == 1 then offset else 0)| > most)
  }

  lemma OneMoreInNeed(chunks: seq<seq<real>>, offset: nat, most: nat, n: nat, kept: seq<seq<real>>, at: nat)
    requires |chunks| > 1 && |Waiting(chunks, offset)| > most
    requires DroppedInNeed(chunks[1..], 0, most, n, kept, at)
    ensures DroppedInNeed(chunks, offset, most, n + 1, kept, at)
  {
    assert chunks[1..][n..] == chunks[n + 1..];
    if n > 0 {
      assert chunks[1..][n - 1..] == chunks[n..];
    } else {
      assert chunks[0..] == chunks;
    }
  }

  lemma LastWhole(chunks: seq<seq<real>>, offset: nat)
    requires Shaped(chunks, offset) && chunks != []
    ensures |chunks| > 1 || offset == 0 ==> |Waiting(chunks, offset)| >= |chunks[|chunks| - 1]|
  {
    if |chunks| > 1 {
      FlattenFirst(chunks[..|chunks| - 1]);
    }
  }

  lemma WaitingRest(chunks: seq<seq<real>>, offset: nat)
    requires Shaped(chunks, offset) && chunks != []
    ensures Waiting(chunks[1..], 0) == Flatten(chunks[1..])
    ensures Waiting(chunks, offset) == chunks[0][offset..] + Waiting(chunks[1..], 0)
  {
    FlattenFirst(chunks);
    assert Flatten(chunks[1..])[0..] == Flatten(chunks[1..]);
  }

  class MicrophoneTap {
    const sampleRate: nat
    var externalChunks: seq<seq<real>>
    var externalOffset: nat
    var externalSamples: int

    /** The count is the length of the sequence the chunks stand for. */
    ghost predicate Valid()
      reads this
    {
      Shaped(externalChunks, externalOffset) && externalSamples == |Contents()|
    }

    function Contents(): seq<real>
      reads this
    {
      Waiting(externalChunks, externalOffset)
    }

    constructor (sampleRate: nat)
      ensures Valid() && Contents() == [] && this.sampleRate == sampleRate
    {
      this.sampleRate := sampleRate;
      externalChunks, externalOffset, externalSamples := [], 0, 0;
    }

    method Stop()
      modifies this
      ensures Valid() && Contents() == []
    {
      externalChunks, externalOffset, externalSamples := [], 0, 0;
    }

    method Convert(input: seq<real>, ratio: real) returns (output: seq<real>)
      requires input != [] && ratio > 0.0
      ensures output == Converted(input, ratio)
    {
      var length := OutputLength(|input|, ratio);
      output := [];
      for index := 0 to length
        invariant output == Converted(input, ratio)[..index]
      {
        output := output + [SampleAt(input, Position(index, ratio))];
        assert Converted(input, ratio)[index] == SampleAt(input, Position(index, ratio));
        assert Converted(input, ratio)[..index + 1] ==
               Converted(input, ratio)[..index] + [Converted(input, ratio)[index]];
      }
      assert Converted(input, ratio)[..length] == Converted(input, ratio);
    }

    /** The new samples go behind those waiting, and whole chunks are dropped from the front
        while there are more than two seconds' worth and another chunk. */
    method EnqueueExternal(input: seq<real>, inputSampleRate: nat)
      requires Valid() && sampleRate > 0 && inputSampleRate > 0
      modifies this
      ensures Valid()
      ensures input == [] ==> Contents() == old(Contents())
      ensures input != [] ==>
                var all := old(Contents()) + Converted(input, inputSampleRate as real / sampleRate as real);
                && Behind(Contents(), all)
                && |Contents()| >= |Converted(input, inputSampleRate as real / sampleRate as real)|
                && (|all| <= 2 * sampleRate ==> Contents() == all)
                && (|Contents()| <= 2 * sampleRate || |externalChunks| == 1)
    {
      if input == [] {
        return;
      }
      var output := Convert(input, inputSampleRate as real / sampleRate as real);
      Appended(externalChunks, externalOffset, output);
      externalChunks := externalChunks + [output];
      externalSamples := externalSamples + |output|;
      TrimmedDropsOldest(externalChunks, externalOffset, 2 * sampleRate);
      TrimmedKeepsNewest(externalChunks, externalOffset, 2 * sampleRate);
      Trim();
    }

    method Trim()
      requires Valid() && externalChunks != []
      modifies this
      ensures Valid()
      ensures (externalChunks, externalOffset) == Trimmed(old(externalChunks), old(externalOffset), 2 * sampleRate)
      ensures externalChunks != [] && externalChunks[|externalChunks| - 1] == old(externalChunks[|externalChunks| - 1])
    {
      while externalSamples > 2 * sampleRate && |externalChunks| > 1
        invariant Valid() && externalChunks != []
        invariant externalChunks[|externalChunks| - 1] == old(externalChunks[|externalChunks| - 1])
        invariant Trimmed(externalChunks, externalOffset, 2 * sampleRate) ==
                  Trimmed(old(externalChunks), old(externalOffset), 2 * sampleRate)
        decreases |externalChunks|
      {
        WaitingRest(externalChunks, externalOffset);
        var removed := externalChunks[0];
        externalChunks := externalChunks[1..];
        externalSamples := externalSamples - (|removed| - externalOffset);
        externalOffset := 0;
      }
    }

    /** The next of the waiting samples, or silence. */
    method ReadExternal() returns (value: real)
      requires Valid()
      modifies this
      ensures Valid()
      ensures value == (if old(Contents()) == [] then 0.0 else old(Contents())[0])
      ensures Contents() == if old(Contents()) == [] then [] else old(Contents())[1..]
    {
      if externalChunks == [] {
        return 0.0;
      }
      WaitingRest(externalChunks, externalOffset);
      var chunk := externalChunks[0];
      value := chunk[externalOffset];
      externalOffset := externalOffset + 1;
      externalSamples := externalSamples - 1;
      if externalOffset >= |chunk| {
        externalChunks := externalChunks[1..];
        externalOffset := 0;
      } else {
        WaitingRest(externalChunks, externalOffset);
      }
    }
  }

  lemma RestConcat(a: seq<real>, b: seq<real>, n: nat)
    requires n <= |a|
    ensures (a + b)[n..] == a[n..] + b
  {
  }

  lemma Appended(chunks: seq<seq<real>>, offset: nat, output: seq<real>)
    requires Shaped(chunks, offset) && output != []
    ensures Shaped(chunks + [output], offset) && Waiting(chunks + [output], offset) == Waiting(chunks, offset) + output
  {
    FlattenSnoc(chunks, output);
    if chunks != [] {
      FlattenFirst(chunks);
      RestConcat(Flatten(chunks), output, offset);
    }
  }
}
