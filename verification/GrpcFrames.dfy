/** The gRPC-Web framing of the browser's realtime transport: a flag byte, a length in four
    bytes, most significant first, and as many bytes of payload. */
module GrpcFrames {
  import opened Common

  datatype Frame = Frame(trailer: bool, payload: seq<Byte>)

  datatype Parsed = Parsed(frames: seq<Frame>, remaining: seq<Byte>)

  const HEADER_BYTES: nat := 5

  function Uint32(b: seq<Byte>): nat
    requires |b| == 4
  {
    b[0] as nat * 0x100_0000 + b[1] as nat * 0x1_0000 + b[2] as nat * 0x100 + b[3] as nat
  }

  /** `setUint32` keeps the low 32 bits. */
  function Uint32Bytes(n: nat): (b: seq<Byte>)
    ensures |b| == 4
  {
    [n / 0x100 / 0x100 / 0x100 % 0x100, n / 0x100 / 0x100 % 0x100, n / 0x100 % 0x100, n % 0x100]
  }

  /** The length of the first frame, if all of it is there. */
  function FirstFrame(input: seq<Byte>): (length: Option<nat>)
    ensures length.Some? ==> HEADER_BYTES <= length.value <= |input|
  {
    if |input| < HEADER_BYTES then None
    else
      var length := HEADER_BYTES + Uint32(input[1..5]);
      if length > |input| then None else Some(length)
  }

  function FrameOf(input: seq<Byte>): Frame
    requires |input| >= HEADER_BYTES
  {
    Frame(input[0] >= 0x80, input[HEADER_BYTES..])
  }

  /** The input parsed as a whole. */
  function Parse(input: seq<Byte>): Parsed
    decreases |input|
  {
    match FirstFrame(input)
    case None => Parsed([], input)
    case Some(length) =>
      var rest := Parse(input[length..]);
      Parsed([FrameOf(input[..length])] + rest.frames, rest.remaining)
  }

  /** Frames read so far and the position reached, against the whole. */
  ghost predicate ReadTo(input: seq<Byte>, frames: seq<Frame>, offset: nat) {
    && offset <= |input|
    && Parse(input) == Parsed(frames + Parse(input[offset..]).frames, Parse(input[offset..]).remaining)
  }

  lemma ReadOne(input: seq<Byte>, frames: seq<Frame>, offset: nat, length: nat)
    requires ReadTo(input, frames, offset) && offset + HEADER_BYTES + length <= |input|
    requires length == Uint32(input[offset + 1..offset + 5])
    ensures var end := offset + HEADER_BYTES + length;
            ReadTo(input, frames + [Frame(input[offset] >= 0x80, input[offset + HEADER_BYTES..end])], end)
  {
    var rest, size := input[offset..], HEADER_BYTES + length;
    assert rest[1..5] == input[offset + 1..offset + 5];
    assert FirstFrame(rest) == Some(size);
    assert rest[..size][HEADER_BYTES..] == input[offset + HEADER_BYTES..offset + size];
    assert rest[size..] == input[offset + size..];
    var frame := FrameOf(rest[..size]);
    assert frames + ([frame] + Parse(rest[size..]).frames) == frames + [frame] + Parse(rest[size..]).frames;
  }

  method ReadCompleteFrames(input: seq<Byte>) returns (parsed: Parsed)
    ensures parsed == Parse(input)
  {
    var frames: seq<Frame> := [];
    var offset := 0;
    assert input[0..] == input;
    while offset + HEADER_BYTES <= |input|
      invariant ReadTo(input, frames, offset)
    {
      var length := Uint32(input[offset + 1..offset + 5]);
      if offset + HEADER_BYTES + length > |input| {
        assert input[offset..][1..5] == input[offset + 1..offset + 5];
        break;
      }
      ReadOne(input, frames, offset, length);
      frames := frames + [Frame(input[offset] >= 0x80, input[offset + HEADER_BYTES..offset + HEADER_BYTES + length])];
      offset := offset + HEADER_BYTES + length;
    }
    assert FirstFrame(input[offset..]).None?;
    parsed := Parsed(frames, input[offset..]);
  }

  // ------------------------------------------------------------------------ any chunking

  /** Parsing what remains together with what comes next goes on where it stopped. */
  lemma {:induction false} ParseMore(a: seq<Byte>, b: seq<Byte>)
    ensures Parse(a + b) == Parsed(Parse(a).frames + Parse(Parse(a).remaining + b).frames,
                                   Parse(Parse(a).remaining + b).remaining)
    decreases |a|
  {
    if FirstFrame(a).Some? {
      var length := FirstFrame(a).value;
      ParseMore(a[length..], b);
      ParseFirst(a, length);
      ParseJoined(a, b, length, Parse(Parse(a).remaining + b));
    }
  }

  lemma ParseJoined(a: seq<Byte>, b: seq<Byte>, length: nat, q: Parsed)
    requires FirstFrame(a) == Some(length)
    requires Parse(a[length..] + b) == Parsed(Parse(a[length..]).frames + q.frames, q.remaining)
    ensures Parse(a + b) == Parsed(Parse(a).frames + q.frames, q.remaining)
  {
    FirstMore(a, b);
    ParseFirst(a, length);
    ParseFirst(a + b, length);
    CutJoined(a, b, length);
    Associate([FrameOf(a[..length])], Parse(a[length..]).frames, q.frames);
  }

  lemma CutJoined(a: seq<Byte>, b: seq<Byte>, length: nat)
    requires length <= |a|
    ensures (a + b)[..length] == a[..length] && (a + b)[length..] == a[length..] + b
  {
  }

  lemma ParseFirst(a: seq<Byte>, length: nat)
    requires FirstFrame(a) == Some(length)
    ensures Parse(a) == Parsed([FrameOf(a[..length])] + Parse(a[length..]).frames, Parse(a[length..]).remaining)
  {
  }

  lemma FirstMore(a: seq<Byte>, b: seq<Byte>)
    requires FirstFrame(a).Some?
    ensures FirstFrame(a + b) == FirstFrame(a)
  {
    assert (a + b)[1..5] == a[1..5];
  }

  /** What the stream hands on, up to the first trailer that reports an error. */
  function Handed(frames: seq<Frame>, accepts: seq<Byte> -> bool): seq<seq<Byte>> {
    if frames == [] || (frames[0].trailer && !accepts(frames[0].payload)) then []
    else (if frames[0].trailer then [] else [frames[0].payload]) + Handed(frames[1..], accepts)
  }

  predicate AllAccepted(frames: seq<Frame>, accepts: seq<Byte> -> bool) {
    frames == [] || ((frames[0].trailer ==> accepts(frames[0].payload)) && AllAccepted(frames[1..], accepts))
  }

  lemma {:induction false} HandedMore(a: seq<Frame>, b: seq<Frame>, accepts: seq<Byte> -> bool)
    ensures Handed(a + b, accepts) ==
            if AllAccepted(a, accepts) then Handed(a, accepts) + Handed(b, accepts) else Handed(a, accepts)
  {
    if a == [] {
      assert a + b == b;
    } else {
      assert (a + b)[1..] == a[1..] + b;
      HandedMore(a[1..], b, accepts);
    }
  }

  /** The payloads of the data frames. */
  function Data(frames: seq<Frame>): seq<seq<Byte>> {
    if frames == [] then []
    else
      var last := frames[|frames| - 1];
      Data(frames[..|frames| - 1]) + if last.trailer then [] else [last.payload]
  }

  predicate Fails(frame: Frame, accepts: seq<Byte> -> bool) {
    frame.trailer && !accepts(frame.payload)
  }

  /** What is handed on are the payloads of the data frames before the first failing trailer,
      of all of them exactly if there is none. */
  lemma {:induction false} HandedIs(frames: seq<Frame>, accepts: seq<Byte> -> bool, k: nat)
    requires k <= |frames| && forall i :: 0 <= i < k ==> !Fails(frames[i], accepts)
    requires k < |frames| ==> Fails(frames[k], accepts)
    ensures Handed(frames, accepts) == Data(frames[..k])
    ensures AllAccepted(frames, accepts) <==> k == |frames|
    decreases k
  {
    if k > 0 {
      HandedIs(frames[1..], accepts, k - 1);
      assert frames[1..][..k - 1] == frames[1..k];
      DataFirst(frames[..k]);
      assert frames[..k][1..] == frames[1..k];
    }
  }

  lemma {:induction false} DataFirst(frames: seq<Frame>)
    requires frames != []
    ensures Data(frames) == (if frames[0].trailer then [] else [frames[0].payload]) + Data(frames[1..])
    decreases |frames|
  {
    var front := frames[..|frames| - 1];
    if front == [] {
      assert frames[1..] == [] && Data(front) == [];
    } else {
      DataFirst(front);
      assert frames[1..][..|frames| - 2] == front[1..];
    }
  }

  /** The frames of one chunk: `onMessage` for data, an error for a failing trailer. */
  method Deliver(frames: seq<Frame>, accepts: seq<Byte> -> bool) returns (messages: seq<seq<Byte>>, ok: bool)
    ensures messages == Handed(frames, accepts) && ok == AllAccepted(frames, accepts)
  {
    messages := [];
    for i := 0 to |frames|
      invariant messages == Handed(frames[..i], accepts) && AllAccepted(frames[..i], accepts)
    {
      var frame := frames[i];
      assert frames[..i + 1] == frames[..i] + [frame];
      assert frames == frames[..i + 1] + frames[i + 1..];
      HandedMore(frames[..i], [frame], accepts);
      AcceptedMore(frames[..i], [frame], accepts);
      if frame.trailer {
        if !accepts(frame.payload) {
          HandedMore(frames[..i + 1], frames[i + 1..], accepts);
          AcceptedMore(frames[..i + 1], frames[i + 1..], accepts);
          return messages, false;
        }
      } else {
        messages := messages + [frame.payload];
      }
    }
    assert frames[..|frames|] == frames;
    ok := true;
  }

  /** The buffering loop. However the bytes arrive, the messages are those of the frames of
      the whole stream, and it fails exactly if one of its trailers does or it ends inside a
      frame. */
  method ServerStream(parts: seq<seq<Byte>>, accepts: seq<Byte> -> bool) returns (messages: seq<seq<Byte>>, ok: bool)
    ensures messages == Handed(Parse(Flatten(parts)).frames, accepts)
    ensures ok == (AllAccepted(Parse(Flatten(parts)).frames, accepts) && Parse(Flatten(parts)).remaining == [])
  {
    messages := [];
    var buffered: seq<Byte> := [];
    for i := 0 to |parts|
      invariant buffered == Parse(Flatten(parts[..i])).remaining
      invariant AllAccepted(Parse(Flatten(parts[..i])).frames, accepts)
      invariant messages == Handed(Parse(Flatten(parts[..i])).frames, accepts)
    {
      ghost var before := Parse(Flatten(parts[..i])).frames;
      var parsed := ReadCompleteFrames(buffered + parts[i]);
      NextPart(parts, i);
      buffered := parsed.remaining;
      var more, fine := Deliver(parsed.frames, accepts);
      HandedMore(before, parsed.frames, accepts);
      AcceptedMore(before, parsed.frames, accepts);
      messages := messages + more;
      if !fine {
        ghost var rest := RestOf(parts, i + 1);
        HandedMore(before + parsed.frames, rest, accepts);
        AcceptedMore(before + parsed.frames, rest, accepts);
        return messages, false;
      }
    }
    assert parts[..|parts|] == parts;
    ok := buffered == [];
  }

  lemma NextPart(parts: seq<seq<Byte>>, i: nat)
    requires i < |parts|
    ensures var p := Parse(Flatten(parts[..i]));
            var q := Parse(p.remaining + parts[i]);
            Parse(Flatten(parts[..i + 1])) == Parsed(p.frames + q.frames, q.remaining)
  {
    assert parts[..i + 1] == parts[..i] + [parts[i]];
    FlattenSnoc(parts[..i], parts[i]);
    ParseMore(Flatten(parts[..i]), parts[i]);
  }

  lemma {:induction false} AcceptedMore(a: seq<Frame>, b: seq<Frame>, accepts: seq<Byte> -> bool)
    ensures AllAccepted(a + b, accepts) <==> AllAccepted(a, accepts) && AllAccepted(b, accepts)
  {
    if a == [] {
      assert a + b == b;
    } else {
      assert (a + b)[1..] == a[1..] + b;
      AcceptedMore(a[1..], b, accepts);
    }
  }

  /** The frames completed by later parts. */
  ghost function RestOf(parts: seq<seq<Byte>>, i: nat): (rest: seq<Frame>)
    requires i <= |parts|
    ensures Parse(Flatten(parts)).frames == Parse(Flatten(parts[..i])).frames + rest
  {
    FramesGrow(parts, i);
    Parse(Flatten(parts)).frames[|Parse(Flatten(parts[..i])).frames|..]
  }

  lemma {:induction false} FramesGrow(parts: seq<seq<Byte>>, i: nat)
    requires i <= |parts|
    ensures Parse(Flatten(parts[..i])).frames <= Parse(Flatten(parts)).frames
    decreases |parts| - i
  {
    if i < |parts| {
      NextPart(parts, i);
      FramesGrow(parts, i + 1);
    } else {
      assert parts[..i] == parts;
    }
  }

  /** A frame is a flag, whose top bit marks a trailer, its length in four bytes with the most
      significant first, and its payload; it is read exactly if all of that is there. */
  lemma FrameIs(flag: Byte, a: Byte, b: Byte, c: Byte, d: Byte, rest: seq<Byte>)
    ensures var input := [flag, a, b, c, d] + rest;
            var n := 16_777_216 * a as nat + 65_536 * b as nat + 256 * c as nat + d as nat;
            Parse(input) ==
            if |rest| < n then Parsed([], input)
            else Parsed([Frame(flag >= 128, rest[..n])] + Parse(rest[n..]).frames, Parse(rest[n..]).remaining)
  {
    var input := [flag, a, b, c, d] + rest;
    assert input[1..5] == [a, b, c, d];
    var n := 16_777_216 * a as nat + 65_536 * b as nat + 256 * c as nat + d as nat;
    if |rest| >= n {
      assert input[..5 + n][5..] == rest[..n] && input[5 + n..] == rest[n..];
    }
  }

  lemma HeaderIncomplete(input: seq<Byte>)
    requires |input| < 5
    ensures Parse(input) == Parsed([], input)
  {
  }

  // --------------------------------------------------------------------------- round trips

  function EncodeFrame(frame: Frame): seq<Byte> {
    [if frame.trailer then 0x80 else 0] + Uint32Bytes(|frame.payload|) + frame.payload
  }

  function EncodeFrames(frames: seq<Frame>): seq<Byte> {
    if frames == [] then [] else EncodeFrame(frames[0]) + EncodeFrames(frames[1..])
  }

  lemma SplitByte(n: nat)
    ensures n == 0x100 * (n / 0x100) + n % 0x100
  {
  }

  lemma LowBits(high: nat, low: nat)
    requires low < 0x1_0000_0000
    ensures (0x1_0000_0000 * high + low) % 0x1_0000_0000 == low
  {
  }

  lemma LengthRoundTrip(n: nat)
    ensures Uint32(Uint32Bytes(n)) == n % 0x1_0000_0000
  {
    var b, a := n / 0x100, n / 0x100 / 0x100;
    var top := a / 0x100;
    SplitByte(n);
    SplitByte(b);
    SplitByte(a);
    SplitByte(top);
    var low := top % 0x100 * 0x100_0000 + a % 0x100 * 0x1_0000 + b % 0x100 * 0x100 + n % 0x100;
    assert Uint32(Uint32Bytes(n)) == low;
    LowBits(top / 0x100, low);
  }

  lemma FirstOfEncoded(frame: Frame, rest: seq<Byte>)
    requires |frame.payload| < 0x1_0000_0000
    ensures var b := EncodeFrame(frame) + rest;
            && FirstFrame(b) == Some(|EncodeFrame(frame)|)
            && FrameOf(b[..|EncodeFrame(frame)|]) == frame && b[|EncodeFrame(frame)|..] == rest
  {
    var b := EncodeFrame(frame) + rest;
    assert b[1..5] == Uint32Bytes(|frame.payload|);
    LengthRoundTrip(|frame.payload|);
    assert b[..|EncodeFrame(frame)|] == EncodeFrame(frame);
    assert EncodeFrame(frame)[HEADER_BYTES..] == frame.payload;
  }

  /** Any frames sent one after the other are received, with nothing left. */
  lemma {:induction false} FramesRoundTrip(frames: seq<Frame>)
    requires forall i :: 0 <= i < |frames| ==> |frames[i].payload| < 0x1_0000_0000
    ensures Parse(EncodeFrames(frames)) == Parsed(frames, [])
  {
    if frames != [] {
      FirstOfEncoded(frames[0], EncodeFrames(frames[1..]));
      FramesRoundTrip(frames[1..]);
    }
  }

  /** A request's body. */
  method GrpcRequest(message: seq<Byte>) returns (body: seq<Byte>)
    ensures body == EncodeFrame(Frame(false, message))
    ensures body[0] == 0 && body[5..] == message
    ensures 16_777_216 * body[1] as nat + 65_536 * body[2] as nat + 256 * body[3] as nat + body[4] as nat ==
            |message| % 0x1_0000_0000
    ensures Parse(body) == Parsed([Frame(false, message)], []) <==> |message| < 0x1_0000_0000
  {
    body := [0] + Uint32Bytes(|message|) + message;
    assert body[1..5] == Uint32Bytes(|message|);
    LengthRoundTrip(|message|);
    RequestRoundTripIff(message);
  }

  /** A message's length has 32 bits: it is read back exactly if that is enough. */
  lemma RequestRoundTripIff(message: seq<Byte>)
    ensures Parse(EncodeFrame(Frame(false, message))) == Parsed([Frame(false, message)], []) <==>
            |message| < 0x1_0000_0000
  {
    var frame := Frame(false, message);
    var b := EncodeFrame(frame);
    assert b + [] == b;
    if |message| < 0x1_0000_0000 {
      FirstOfEncoded(frame, []);
      assert b[|b|..] == [];
    } else {
      assert b[1..5] == Uint32Bytes(|message|);
      LengthRoundTrip(|message|);
      assert FirstFrame(b).Some? && FirstFrame(b).value < |b|;
      assert |Parse(b).frames[0].payload| < |message|;
    }
  }
}
