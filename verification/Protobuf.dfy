/** The browser's hand-written Protocol Buffers code: 32-bit varints, length-delimited
    fields, and the decoding of headers and API responses. */
module Protobuf {
  import opened Common

  const UINT32: nat := 0x1_0000_0000
  const MAX_VARINT_BYTES: nat := 5

  // ----------------------------------------------------------------------------- varints

  /** Base 128, the low groups first, with the top bit set on all bytes but the last. */
  function Varint(n: nat): (b: seq<Byte>)
    ensures b != []
  {
    if n < 0x80 then [n] else [n % 0x80 + 0x80] + Varint(n / 0x80)
  }

  /** The number at the front of some bytes and the bytes it takes, if it ends within
      `budget` of them. */
  function Number(b: seq<Byte>, budget: nat): (r: Option<(nat, nat)>)
    ensures r.Some? ==> 0 < r.value.1 <= |b| && r.value.1 <= budget
  {
    if budget == 0 || b == [] then None
    else if b[0] < 0x80 then Some((b[0] as nat, 1))
    else
      match Number(b[1..], budget - 1)
      case None => None
      case Some(rest) => Some((b[0] as nat - 0x80 + 0x80 * rest.0, rest.1 + 1))
  }

  /** What the reader makes of it: five groups of seven bits, of which 32 are kept. */
  function ReadVarint(b: seq<Byte>): (r: Option<(nat, nat)>)
    ensures r.Some? ==> 0 < r.value.1 <= |b| && r.value.0 < UINT32
  {
    match Number(b, MAX_VARINT_BYTES)
    case None => None
    case Some(n) => Some((n.0 % UINT32, n.1))
  }

  function Pow128(k: nat): nat {
    if k == 0 then 1 else 0x80 * Pow128(k - 1)
  }

  /** Any number below 2^(7k) is written in at most k bytes and read back. */
  lemma {:induction false} NumberRoundTrip(n: nat, rest: seq<Byte>, budget: nat)
    requires n < Pow128(budget) && budget > 0
    ensures Number(Varint(n) + rest, budget) == Some((n, |Varint(n)|)) && |Varint(n)| <= budget
    decreases budget
  {
    var b := Varint(n) + rest;
    if n >= 0x80 {
      assert budget > 1 by {
        assert Pow128(1) == 0x80;
      }
      NumberRoundTrip(n / 0x80, rest, budget - 1);
      assert b[1..] == Varint(n / 0x80) + rest;
      assert b[0] as nat - 0x80 + 0x80 * (n / 0x80) == n;
    }
  }

  /** A 32-bit value takes at most five bytes and is read back, whatever follows. */
  lemma VarintRoundTrip(n: nat, rest: seq<Byte>)
    requires n < UINT32
    ensures ReadVarint(Varint(n) + rest) == Some((n, |Varint(n)|)) && |Varint(n)| <= 5
    ensures (Varint(n) + rest)[|Varint(n)|..] == rest
  {
    assert Pow128(5) == 0x8_0000_0000 by {
      assert Pow128(1) == 0x80;
      assert Pow128(2) == 0x4000;
      assert Pow128(3) == 0x20_0000;
      assert Pow128(4) == 0x1000_0000;
    }
    NumberRoundTrip(n, rest, MAX_VARINT_BYTES);
  }

  /** The first `k` bytes as groups of seven bits, the low ones first. */
  function Groups(b: seq<Byte>, k: nat): nat
    requires k <= |b|
  {
    if k == 0 then 0 else Groups(b, k - 1) + b[k - 1] as nat % 0x80 * Pow128(k - 1)
  }

  lemma {:induction false} GroupsFromFirst(b: seq<Byte>, k: nat)
    requires 1 <= k <= |b|
    ensures Groups(b, k) == b[0] as nat % 0x80 + 0x80 * Groups(b[1..], k - 1)
  {
    if k > 1 {
      GroupsFromFirst(b, k - 1);
      Scaled(b[k - 1] as nat % 0x80, Pow128(k - 2));
    } else {
      assert Groups(b, 0) == 0 && Pow128(0) == 1;
    }
  }

  lemma Scaled(a: nat, p: nat)
    ensures a * (0x80 * p) == 0x80 * (a * p)
  {
  }

  /** Byte `k - 1` is the first whose top bit is clear. */
  predicate EndsAfter(b: seq<Byte>, k: nat) {
    1 <= k <= |b| && b[k - 1] < 0x80 && forall i :: 0 <= i < k - 1 ==> b[i] >= 0x80
  }

  lemma {:induction false} NumberIs(b: seq<Byte>, k: nat, budget: nat)
    requires EndsAfter(b, k)
    ensures Number(b, budget) == if k <= budget then Some((Groups(b, k), k)) else None
    decreases k
  {
    GroupsFromFirst(b, k);
    if k > 1 && budget > 0 {
      NumberIs(b[1..], k - 1, budget - 1);
    } else if k == 1 {
      assert Groups(b[1..], 0) == 0;
    }
  }

  lemma {:induction false} NumberIsNot(b: seq<Byte>, budget: nat)
    requires forall i :: 0 <= i < |b| ==> b[i] >= 0x80
    ensures Number(b, budget).None?
    decreases |b|
  {
    if b != [] && budget > 0 {
      NumberIsNot(b[1..], budget - 1);
    }
  }

  /** Any bytes, whoever wrote them: a number that ends within five bytes is the low 32 bits of
      its groups, and without such an end there is none. */
  lemma ReadVarintIs(b: seq<Byte>, k: nat)
    ensures EndsAfter(b, k) && k <= 5 ==> ReadVarint(b) == Some((Groups(b, k) % 0x1_0000_0000, k))
    ensures EndsAfter(b, k) && k > 5 ==> ReadVarint(b).None?
    ensures (forall i :: 0 <= i < |b| ==> b[i] >= 0x80) ==> ReadVarint(b).None?
  {
    if EndsAfter(b, k) {
      NumberIs(b, k, 5);
    }
    if forall i :: 0 <= i < |b| ==> b[i] >= 0x80 {
      NumberIsNot(b, 5);
    }
  }

  /** `encodeVarint` keeps the low 32 bits of its argument. */
  method EncodeVarint(value: nat) returns (output: seq<Byte>)
    ensures output == Varint(value % 0x1_0000_0000)
    ensures 1 <= |output| <= 5
    ensures ReadVarint(output) == Some((value, |output|)) <==> value < 0x1_0000_0000
  {
    var remaining: nat := value % UINT32;
    output := [];
    while remaining >= 0x80
      invariant output + Varint(remaining) == Varint(value % UINT32)
    {
      output := output + [(remaining % 0x80 + 0x80) as Byte];
      remaining := remaining / 0x80;
    }
    output := output + [remaining as Byte];
    VarintRoundTrip(value % UINT32, []);
    assert output + [] == output;
  }

  // ------------------------------------------------------------------------------ fields

  function BytesField(field: nat, value: seq<Byte>): seq<Byte> {
    Varint(field * 8 + 2) + Varint(|value|) + value
  }

  /** The sum of the lengths, as the source adds them up first. */
  function TotalLength(chunks: seq<seq<Byte>>): nat {
    if chunks == [] then 0 else TotalLength(chunks[..|chunks| - 1]) + |chunks[|chunks| - 1]|
  }

  lemma {:induction false} TotalIsLength(chunks: seq<seq<Byte>>, n: nat)
    requires n <= |chunks|
    ensures TotalLength(chunks[..n]) == |Flatten(chunks[..n])| && TotalLength(chunks[..n]) <= TotalLength(chunks)
    decreases |chunks|, n
  {
    if n == |chunks| {
      assert chunks[..n] == chunks;
      if n > 0 {
        TotalIsLength(chunks[..n - 1], n - 1);
        assert chunks[..n - 1][..n - 1] == chunks[..n - 1];
      }
    } else {
      TotalIsLength(chunks[..|chunks| - 1], n);
      assert chunks[..|chunks| - 1][..n] == chunks[..n];
    }
  }

  /** The chunks are set one after the other into an array of their total length. */
  method ConcatBytes(chunks: seq<seq<Byte>>) returns (bytes: seq<Byte>)
    ensures bytes == Flatten(chunks)
  {
    var output := new Byte[TotalLength(chunks)];
    var offset := 0;
    for i := 0 to |chunks|
      invariant offset == TotalLength(chunks[..i]) <= output.Length
      invariant output[..offset] == Flatten(chunks[..i])
    {
      var chunk := chunks[i];
      TotalIsLength(chunks, i + 1);
      assert chunks[..i + 1] == chunks[..i] + [chunk];
      FlattenSnoc(chunks[..i], chunk);
      assert (chunks[..i] + [chunk])[..i] == chunks[..i];
      SetBytes(output, chunk, offset);
      offset := offset + |chunk|;
    }
    assert chunks[..|chunks|] == chunks;
    bytes := output[..];
    assert output[..offset] == output[..];
  }

  /** `TypedArray.set`. */
  method SetBytes(output: array<Byte>, chunk: seq<Byte>, offset: nat)
    requires offset + |chunk| <= output.Length
    modifies output
    ensures output[..offset] == old(output[..offset])
    ensures output[..offset + |chunk|] == old(output[..offset]) + chunk
  {
    for i := 0 to |chunk|
      invariant output[..offset] == old(output[..offset])
      invariant output[offset..offset + i] == chunk[..i]
    {
      output[offset + i] := chunk[i];
    }
    assert output[..offset + |chunk|] == output[..offset] + output[offset..offset + |chunk|];
  }

  method EncodeSmall(value: nat) returns (output: seq<Byte>)
    requires value < UINT32
    ensures output == Varint(value)
  {
    output := EncodeVarint(value);
  }

  method EncodeBytesField(field: nat, value: seq<Byte>) returns (output: seq<Byte>)
    requires field * 8 + 2 < UINT32 && |value| < UINT32
    ensures output == BytesField(field, value)
  {
    var tag := EncodeSmall(field * 8 + 2);
    var length := EncodeSmall(|value|);
    output := ConcatBytes([tag, length, value]);
    FlattenThree(tag, length, value);
  }

  lemma FlattenThree<T>(a: seq<T>, b: seq<T>, c: seq<T>)
    ensures Flatten([a, b, c]) == a + b + c
  {
    FlattenSnoc([a, b], c);
    FlattenSnoc([a], b);
    FlattenSnoc([], a);
    assert [a, b] + [c] == [a, b, c] && [a] + [b] == [a, b] && [] + [a] == [a];
  }

  function ReadBytes(b: seq<Byte>): (r: Option<(seq<Byte>, nat)>)
    ensures r.Some? ==> 0 < r.value.1 <= |b|
  {
    match ReadVarint(b)
    case None => None
    case Some(n) => if n.1 + n.0 > |b| then None else Some((b[n.1..n.1 + n.0], n.1 + n.0))
  }

  /** The length of an unknown field's value. For a length-delimited one the source adds the
      length to the position before the length was read. */
  function SkipLength(b: seq<Byte>, wire: nat): (r: Option<nat>)
    ensures r.Some? ==> r.value <= |b|
  {
    var end :=
      if wire == 0 || wire == 2 then
        match ReadVarint(b)
        case None => None
        case Some(n) => Some(if wire == 0 then n.1 else n.0)
      else if wire == 1 then Some(8)
      else if wire == 5 then Some(4)
      else None;
    if end.Some? && end.value > |b| then None else end
  }

  lemma BytesRoundTrip(value: seq<Byte>, rest: seq<Byte>)
    requires |value| < UINT32
    ensures var b := Varint(|value|) + value + rest;
            ReadBytes(b) == Some((value, |Varint(|value|)| + |value|)) && b[|Varint(|value|)| + |value|..] == rest
  {
    var b := Varint(|value|) + value + rest;
    VarintRoundTrip(|value|, value + rest);
    assert b == Varint(|value|) + (value + rest);
  }

  /** A known field is read exactly and the reader stands behind it. */
  lemma FieldRoundTrip(field: nat, value: seq<Byte>, rest: seq<Byte>)
    requires field * 8 + 2 < UINT32 && |value| < UINT32
    ensures var b := BytesField(field, value) + rest;
            && ReadVarint(b) == Some((field * 8 + 2, |Varint(field * 8 + 2)|))
            && var c := b[|Varint(field * 8 + 2)|..];
            ReadBytes(c).Some? && ReadBytes(c).value.0 == value && c[ReadBytes(c).value.1..] == rest
  {
    var b, tag := BytesField(field, value) + rest, Varint(field * 8 + 2);
    var tail := Varint(|value|) + value + rest;
    assert b == tag + tail;
    VarintRoundTrip(field * 8 + 2, tail);
    BytesRoundTrip(value, rest);
  }

  /** Skipping an unknown length-delimited field leaves the reader inside it, as many bytes
      before its end as its length took: it is never skipped exactly. */
  lemma SkipsShort(value: seq<Byte>, rest: seq<Byte>)
    requires |value| < UINT32
    ensures var b := Varint(|value|) + value + rest;
            && SkipLength(b, 2) == Some(|value|)
            && b[|value|..] != rest && |b[|value|..]| == |Varint(|value|)| + |rest|
  {
    var b := Varint(|value|) + value + rest;
    VarintRoundTrip(|value|, value + rest);
    assert b == Varint(|value|) + (value + rest);
  }

  /** Unknown fields of the other types are skipped exactly, if they are there: a number, eight
      bytes, or four. No other type is known. */
  lemma SkipsOthers(n: nat, eight: seq<Byte>, four: seq<Byte>, rest: seq<Byte>, wire: nat)
    requires n < 0x1_0000_0000 && |eight| == 8 && |four| == 4
    ensures SkipLength(Varint(n) + rest, 0) == Some(|Varint(n)|) && (Varint(n) + rest)[|Varint(n)|..] == rest
    ensures SkipLength(eight + rest, 1) == Some(8) && (eight + rest)[8..] == rest
    ensures SkipLength(four + rest, 5) == Some(4) && (four + rest)[4..] == rest
    ensures SkipLength(eight[..7], 1).None? && SkipLength(four[..3], 5).None?
    ensures wire !in {0, 1, 2, 5} ==> SkipLength(rest, wire).None?
  {
    VarintRoundTrip(n, rest);
  }

  /** The realtime transport's own reader. It reads past the end as if a zero followed, and
      takes the end of a field from the position before its length. */
  function RealtimeBytes(b: seq<Byte>): Option<(seq<Byte>, nat)> {
    match ReadVarint(b + [0])
    case None => None
    case Some(n) => if n.0 > |b| then None else Some((if n.1 <= n.0 then b[n.1..n.0] else [], n.0))
  }

  /** So it gives up the last bytes of a field, as many as its length took, and reads on
      inside the field. It is right about the empty field only. */
  lemma RealtimeBytesIff(value: seq<Byte>, rest: seq<Byte>)
    requires |value| < UINT32
    ensures var b, n := Varint(|value|) + value + rest, |Varint(|value|)|;
            && RealtimeBytes(b) == Some((if n <= |value| then value[..|value| - n] else [], |value|))
            && (RealtimeBytes(b).value.0 == value <==> value == [])
  {
    var b, n := Varint(|value|) + value + rest, |Varint(|value|)|;
    assert b + [0] == Varint(|value|) + (value + rest + [0]);
    VarintRoundTrip(|value|, value + rest + [0]);
    if n <= |value| {
      assert b[n..|value|] == value[..|value| - n];
    }
  }

  /** It fails exactly if the length is more than everything there is, its own bytes included. */
  lemma RealtimeBytesOf(n: nat, tail: seq<Byte>)
    requires n < 0x1_0000_0000
    ensures var b, k := Varint(n) + tail, |Varint(n)|;
            RealtimeBytes(b) ==
            if n > |b| then None else Some((if k <= n then tail[..n - k] else [], n))
  {
    var b, k := Varint(n) + tail, |Varint(n)|;
    VarintRoundTrip(n, tail + [0]);
    assert b + [0] == Varint(n) + (tail + [0]);
    if k <= n <= |b| {
      assert b[k..n] == tail[..n - k];
    }
  }

  class ProtoReader {
    const input: seq<Byte>
    var offset: nat

    constructor (input: seq<Byte>)
      ensures this.input == input && offset == 0
    {
      this.input := input;
      offset := 0;
    }

    function Left(): seq<Byte>
      reads this
    {
      if offset <= |input| then input[offset..] else []
    }

    /** The bits of a group do not overlap those before it, so or-ing them in is adding. */
    method TakeVarint() returns (value: Option<nat>)
      requires offset <= |input|
      modifies this
      ensures match ReadVarint(old(Left()))
              case None => value == None && offset <= |input|
              case Some(n) =>
                value == Some(n.0) && offset == old(offset) + n.1 <= |input| && Left() == old(Left())[n.1..]
    {
      ghost var whole := Number(Left(), MAX_VARINT_BYTES);
      var sum: nat, shift: nat, unit: nat := 0, 0, 1;
      ghost var budget := MAX_VARINT_BYTES;
      while offset < |input| && shift < 35
        invariant old(offset) <= offset <= |input| && shift == 7 * (MAX_VARINT_BYTES - budget)
        invariant offset - old(offset) == MAX_VARINT_BYTES - budget
        invariant Partly(whole, Left(), budget, offset - old(offset), sum, unit)
        decreases |input| - offset
      {
        var byte := input[offset];
        PartlyNext(whole, Left(), budget, offset - old(offset), sum, unit);
        offset, budget := offset + 1, budget - 1;
        sum := sum + byte as nat % 0x80 * unit;
        if byte < 0x80 {
          return Some(sum % UINT32);
        }
        shift, unit := shift + 7, 0x80 * unit;
      }
      value := None;
    }

    method TakeBytes() returns (value: Option<seq<Byte>>)
      requires offset <= |input|
      modifies this
      ensures match ReadBytes(old(Left()))
              case None => value == None && offset <= |input|
              case Some(n) =>
                value == Some(n.0) && offset == old(offset) + n.1 <= |input| && Left() == old(Left())[n.1..]
    {
      var length := TakeVarint();
      if length.None? {
        return None;
      }
      var end := offset + length.value;
      if end > |input| {
        return None;
      }
      value := Some(input[offset..end]);
      SliceOfRest(input, old(offset), offset - old(offset), end - old(offset));
      offset := end;
    }

    /** Fails by running past the input as the source does, after the position has moved. */
    method Skip(wire: nat) returns (ok: bool)
      requires offset <= |input|
      modifies this
      ensures match SkipLength(old(Left()), wire)
              case None => !ok
              case Some(n) => ok && offset == old(offset) + n <= |input| && Left() == old(Left())[n..]
    {
      var before := offset;
      if wire == 0 {
        var n := TakeVarint();
        if n.None? {
          return false;
        }
      } else if wire == 1 {
        offset := offset + 8;
      } else if wire == 2 {
        var n := TakeVarint();
        if n.None? {
          return false;
        }
        offset := before + n.value;
      } else if wire == 5 {
        offset := offset + 4;
      } else {
        return false;
      }
      ok := offset <= |input|;
    }
  }

  lemma SliceOfRest(b: seq<Byte>, from: nat, start: nat, end: nat)
    requires start <= end && from + end <= |b|
    ensures b[from..][start..end] == b[from + start..from + end] && b[from..][end..] == b[from + end..]
  {
  }

  /** After `k` bytes, all with the top bit set, the number is what has been summed plus
      what is still to be read, `unit` times. */
  ghost predicate Partly(whole: Option<(nat, nat)>, left: seq<Byte>, budget: nat, k: nat, sum: nat, unit: nat) {
    match Number(left, budget)
    case None => whole == None
    case Some(rest) => whole == Some((sum + unit * rest.0, k + rest.1))
  }

  lemma PartlyNext(whole: Option<(nat, nat)>, left: seq<Byte>, budget: nat, k: nat, sum: nat, unit: nat)
    requires Partly(whole, left, budget, k, sum, unit) && left != [] && budget > 0
    ensures left[0] < 0x80 ==> whole == Some((sum + left[0] as nat % 0x80 * unit, k + 1))
    ensures left[0] >= 0x80 ==>
              Partly(whole, left[1..], budget - 1, k + 1, sum + left[0] as nat % 0x80 * unit, 0x80 * unit)
  {
    if left[0] >= 0x80 && Number(left[1..], budget - 1).Some? {
      Distribute(unit, left[0] as nat % 0x80, Number(left[1..], budget - 1).value.0);
    }
  }

  lemma Distribute(unit: nat, low: nat, rest: nat)
    ensures unit * (low + 0x80 * rest) == low * unit + 0x80 * unit * rest
  {
  }
}
