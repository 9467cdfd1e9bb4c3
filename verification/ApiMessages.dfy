/** The messages of the API call: decoding of headers and responses, against the encoding
    that the client gives a header and the server a response. */
module ApiMessages {
  import opened Common
  import opened Utf8
  import opened Protobuf

  const BYTE_ORDER_MARK: Scalar := 0xFEFF

  type Lossy = seq<Byte> -> seq<Scalar>

  function WithoutMark(b: seq<Byte>): seq<Byte> {
    if Encode(BYTE_ORDER_MARK) <= b then b[3..] else b
  }

  /** As `TextDecoder` does by default: a leading byte order mark is dropped. What it makes of
      ill-formed bytes is a parameter. */
  function DecodeText(b: seq<Byte>, lossy: Lossy): seq<Scalar> {
    if IsUtf8(WithoutMark(b)) then Text(WithoutMark(b)) else lossy(WithoutMark(b))
  }

  function Unmarked(text: seq<Scalar>): seq<Scalar> {
    if text != [] && text[0] == BYTE_ORDER_MARK then text[1..] else text
  }

  /** Encoded text is decoded to itself but for a leading mark. */
  lemma DecodesText(text: seq<Scalar>, lossy: Lossy)
    ensures DecodeText(EncodeAll(text), lossy) == Unmarked(text)
    ensures Unmarked(text) == if text != [] && text[0] == 0xFEFF then text[1..] else text
  {
    TextRoundTrip(text);
    var b := EncodeAll(text);
    if text != [] {
      var c, rest := text[0], EncodeAll(text[1..]);
      EncodedIsHead(c, rest);
      if c == BYTE_ORDER_MARK {
        assert b[3..] == rest;
        TextRoundTrip(text[1..]);
      } else if Encode(BYTE_ORDER_MARK) <= b {
        assert Encode(c) == b[..3] == Encode(BYTE_ORDER_MARK);
        EncodeInjective(c, BYTE_ORDER_MARK);
      }
    }
  }

  /** What is made of ill-formed bytes is made of those behind a leading mark. */
  lemma DecodesOther(b: seq<Byte>, lossy: Lossy)
    requires !IsUtf8(b)
    ensures DecodeText(b, lossy) == if [0xEF, 0xBB, 0xBF] <= b then lossy(b[3..]) else lossy(b)
  {
    assert Encode(BYTE_ORDER_MARK) == [0xEF, 0xBB, 0xBF];
    if [0xEF, 0xBB, 0xBF] <= b {
      EncodedIsHead(BYTE_ORDER_MARK, b[3..]);
      assert b == Encode(BYTE_ORDER_MARK) + b[3..];
    }
  }

  // ----------------------------------------------------------------------------- headers

  datatype Header = Header(name: seq<Scalar>, value: seq<Byte>)

  /** An error, or a header, of which the caller drops those without a name. */
  datatype Decoded<T> = Failed | Ok(value: T)

  function HeaderFrom(b: seq<Byte>, header: Header, lossy: Lossy): Decoded<Header>
    decreases |b|, 0
  {
    if b == [] then Ok(header)
    else
      match ReadVarint(b)
      case None => Failed
      case Some(tag) => HeaderFieldFrom(b[tag.1..], tag.0, header, lossy)
  }

  function WithField(header: Header, field: nat, value: seq<Byte>, lossy: Lossy): Header {
    if field == 1 then header.(name := DecodeText(value, lossy)) else header.(value := value)
  }

  function HeaderFieldFrom(rest: seq<Byte>, tag: nat, header: Header, lossy: Lossy): Decoded<Header>
    decreases |rest|, 1
  {
    if (tag / 8 == 1 || tag / 8 == 2) && tag % 8 == 2 then
      match ReadBytes(rest)
      case None => Failed
      case Some(bytes) => HeaderFrom(rest[bytes.1..], WithField(header, tag / 8, bytes.0, lossy), lossy)
    else
      match SkipLength(rest, tag % 8)
      case None => Failed
      case Some(n) => HeaderFrom(rest[n..], header, lossy)
  }

  const EmptyHeader := Header([], [])

  function DecodedHeader(b: seq<Byte>, lossy: Lossy): Decoded<Option<Header>> {
    match HeaderFrom(b, EmptyHeader, lossy)
    case Failed => Failed
    case Ok(header) => Ok(if header.name == [] then None else Some(header))
  }

  /** One field behind its tag. */
  method TakeHeaderField(reader: ProtoReader, tag: nat, header: Header, lossy: Lossy) returns (next: Decoded<Header>)
    requires reader.offset <= |reader.input|
    modifies reader
    ensures next.Failed? ==> HeaderFieldFrom(old(reader.Left()), tag, header, lossy) == Failed
    ensures next.Ok? ==> old(reader.offset) <= reader.offset <= |reader.input|
    ensures next.Ok? ==> HeaderFieldFrom(old(reader.Left()), tag, header, lossy) ==
                         HeaderFrom(reader.Left(), next.value, lossy)
  {
    var field, wire := tag / 8, tag % 8;
    if (field == 1 || field == 2) && wire == 2 {
      var bytes := reader.TakeBytes();
      if bytes.None? {
        return Failed;
      }
      next := Ok(WithField(header, field, bytes.value, lossy));
    } else {
      var ok := reader.Skip(wire);
      if !ok {
        return Failed;
      }
      next := Ok(header);
    }
  }

  method DecodeHeader(b: seq<Byte>, lossy: Lossy) returns (decoded: Decoded<Option<Header>>)
    ensures decoded == DecodedHeader(b, lossy)
  {
    var reader := new ProtoReader(b);
    var header := EmptyHeader;
    assert b[0..] == b;
    while reader.offset < |b|
      invariant reader.input == b && reader.offset <= |b|
      invariant HeaderFrom(b, EmptyHeader, lossy) == HeaderFrom(reader.Left(), header, lossy)
      decreases |b| - reader.offset
    {
      var tag := reader.TakeVarint();
      if tag.None? {
        return Failed;
      }
      var next := TakeHeaderField(reader, tag.value, header, lossy);
      if next.Failed? {
        return Failed;
      }
      header := next.value;
    }
    decoded := Ok(if header.name == [] then None else Some(header));
  }

  /** As the client writes it. */
  function HeaderBytes(header: Header): seq<Byte> {
    BytesField(1, EncodeAll(header.name)) + BytesField(2, header.value)
  }

  /** The client's encoding of one header. */
  method EncodeHeader(header: Header) returns (output: seq<Byte>)
    requires Fits(header)
    ensures output == HeaderBytes(header)
  {
    var name := EncodeBytesField(1, EncodeAll(header.name));
    var value := EncodeBytesField(2, header.value);
    output := ConcatBytes([name, value]);
    FlattenSnoc([name], value);
    FlattenSnoc([], name);
    assert [name] + [value] == [name, value] && [] + [name] == [name];
  }

  predicate Fits(header: Header) {
    |EncodeAll(header.name)| < UINT32 && |header.value| < UINT32
  }

  lemma HeaderField(field: nat, value: seq<Byte>, rest: seq<Byte>, header: Header, lossy: Lossy)
    requires (field == 1 || field == 2) && |value| < UINT32
    ensures HeaderFrom(BytesField(field, value) + rest, header, lossy) ==
            HeaderFrom(rest, WithField(header, field, value, lossy), lossy)
  {
    FieldRoundTrip(field, value, rest);
  }

  /** A header is recovered exactly if it has a name and that does not begin with a mark. */
  lemma HeaderRoundTripIff(header: Header, lossy: Lossy)
    requires Fits(header)
    ensures DecodedHeader(HeaderBytes(header), lossy) ==
            Ok(if Unmarked(header.name) == [] then None else Some(header.(name := Unmarked(header.name))))
    ensures DecodedHeader(HeaderBytes(header), lossy) == Ok(Some(header)) <==>
            header.name != [] && header.name[0] != BYTE_ORDER_MARK
  {
    HeaderField(1, EncodeAll(header.name), BytesField(2, header.value), EmptyHeader, lossy);
    DecodesText(header.name, lossy);
    assert BytesField(2, header.value) + [] == BytesField(2, header.value);
    HeaderField(2, header.value, [], Header(Unmarked(header.name), []), lossy);
  }

  /** Bytes that can be skipped as a value of the type: a number, eight bytes, or four. */
  predicate Skippable(wire: nat, value: seq<Byte>, n: nat) {
    || (wire == 0 && n < 0x1_0000_0000 && value == Varint(n))
    || (wire == 1 && |value| == 8)
    || (wire == 5 && |value| == 4)
  }

  lemma SkippedField(wire: nat, value: seq<Byte>, n: nat, rest: seq<Byte>)
    requires Skippable(wire, value, n)
    ensures SkipLength(value + rest, wire) == Some(|value|) && (value + rest)[|value|..] == rest
  {
    var zeros := [0, 0, 0, 0];
    SkipsOthers(if wire == 0 then n else 0, if wire == 1 then value else zeros + zeros,
                if wire == 5 then value else zeros, rest, wire);
  }

  /** A field that is not known does not matter, if it can be skipped; one of an unknown type
      is a failure, and a length-delimited one is skipped short. */
  lemma HeaderUnknownField(tag: nat, value: seq<Byte>, n: nat, rest: seq<Byte>, header: Header, lossy: Lossy)
    requires tag < 0x1_0000_0000
    ensures Skippable(tag % 8, value, n) ==>
              HeaderFrom(Varint(tag) + (value + rest), header, lossy) == HeaderFrom(rest, header, lossy)
    ensures tag % 8 !in {0, 1, 2, 5} ==> HeaderFrom(Varint(tag) + rest, header, lossy).Failed?
    ensures tag % 8 == 2 && tag !in {10, 18} ==>
              HeaderFrom(Varint(tag) + rest, header, lossy) ==
              match SkipLength(rest, 2) case None => Failed case Some(k) => HeaderFrom(rest[k..], header, lossy)
  {
    VarintRoundTrip(tag, value + rest);
    VarintRoundTrip(tag, rest);
    if Skippable(tag % 8, value, n) {
      SkippedField(tag % 8, value, n, rest);
      assert HeaderFieldFrom(value + rest, tag, header, lossy) == HeaderFrom(rest, header, lossy);
    }
  }

  // --------------------------------------------------------------------------- responses

  datatype Response = Response(status: nat, headers: seq<(seq<Scalar>, seq<Scalar>)>, body: seq<Byte>)

  function WithHeader(response: Response, header: Option<Header>, lossy: Lossy): Response {
    match header
    case None => response
    case Some(h) => response.(headers := response.headers + [(h.name, DecodeText(h.value, lossy))])
  }

  function ResponseFrom(b: seq<Byte>, response: Response, lossy: Lossy): Decoded<Response>
    decreases |b|, 0
  {
    if b == [] then Ok(response)
    else
      match ReadVarint(b)
      case None => Failed
      case Some(tag) => FieldFrom(b[tag.1..], tag.0, response, lossy)
  }

  function FieldFrom(rest: seq<Byte>, tag: nat, response: Response, lossy: Lossy): Decoded<Response>
    decreases |rest|, 1
  {
    if tag / 8 == 1 && tag % 8 == 0 then
      match ReadVarint(rest)
      case None => Failed
      case Some(n) => ResponseFrom(rest[n.1..], response.(status := n.0), lossy)
    else if tag / 8 == 2 && tag % 8 == 2 then
      match ReadBytes(rest)
      case None => Failed
      case Some(bytes) =>
        match DecodedHeader(bytes.0, lossy)
        case Failed => Failed
        case Ok(header) => ResponseFrom(rest[bytes.1..], WithHeader(response, header, lossy), lossy)
    else if tag / 8 == 3 && tag % 8 == 2 then
      match ReadBytes(rest)
      case None => Failed
      case Some(bytes) => ResponseFrom(rest[bytes.1..], response.(body := bytes.0), lossy)
    else
      match SkipLength(rest, tag % 8)
      case None => Failed
      case Some(n) => ResponseFrom(rest[n..], response, lossy)
  }

  /** The same in a response, where a number is known as field 1 only. */
  lemma ResponseUnknownField(tag: nat, value: seq<Byte>, n: nat, rest: seq<Byte>, response: Response, lossy: Lossy)
    requires tag < 0x1_0000_0000
    ensures Skippable(tag % 8, value, n) && tag != 8 ==>
              ResponseFrom(Varint(tag) + (value + rest), response, lossy) == ResponseFrom(rest, response, lossy)
    ensures tag % 8 !in {0, 1, 2, 5} ==> ResponseFrom(Varint(tag) + rest, response, lossy).Failed?
    ensures tag % 8 == 2 && tag !in {18, 26} ==>
              ResponseFrom(Varint(tag) + rest, response, lossy) ==
              match SkipLength(rest, 2) case None => Failed case Some(k) => ResponseFrom(rest[k..], response, lossy)
  {
    VarintRoundTrip(tag, value + rest);
    VarintRoundTrip(tag, rest);
    if Skippable(tag % 8, value, n) && tag != 8 {
      SkippedField(tag % 8, value, n, rest);
      assert FieldFrom(value + rest, tag, response, lossy) == ResponseFrom(rest, response, lossy);
    }
  }

  const EmptyResponse := Response(0, [], [])

  /** A response without a status is an error. */
  function DecodedResponse(b: seq<Byte>, lossy: Lossy): Decoded<Response> {
    match ResponseFrom(b, EmptyResponse, lossy)
    case Failed => Failed
    case Ok(response) => if response.status == 0 then Failed else Ok(response)
  }

  /** One field behind its tag. */
  method TakeField(reader: ProtoReader, tag: nat, response: Response, lossy: Lossy) returns (next: Decoded<Response>)
    requires reader.offset <= |reader.input|
    modifies reader
    ensures next.Failed? ==> FieldFrom(old(reader.Left()), tag, response, lossy) == Failed
    ensures next.Ok? ==> old(reader.offset) <= reader.offset <= |reader.input|
    ensures next.Ok? ==> FieldFrom(old(reader.Left()), tag, response, lossy) ==
                         ResponseFrom(reader.Left(), next.value, lossy)
  {
    var field, wire := tag / 8, tag % 8;
    if field == 1 && wire == 0 {
      var status := reader.TakeVarint();
      if status.None? {
        return Failed;
      }
      next := Ok(response.(status := status.value));
    } else if field == 2 && wire == 2 {
      var bytes := reader.TakeBytes();
      if bytes.None? {
        return Failed;
      }
      var header := DecodeHeader(bytes.value, lossy);
      if header.Failed? {
        return Failed;
      }
      next := Ok(WithHeader(response, header.value, lossy));
    } else if field == 3 && wire == 2 {
      var bytes := reader.TakeBytes();
      if bytes.None? {
        return Failed;
      }
      next := Ok(response.(body := bytes.value));
    } else {
      var ok := reader.Skip(wire);
      if !ok {
        return Failed;
      }
      next := Ok(response);
    }
  }

  method DecodeApiResponse(b: seq<Byte>, lossy: Lossy) returns (decoded: Decoded<Response>)
    ensures decoded == DecodedResponse(b, lossy)
  {
    var reader := new ProtoReader(b);
    var response := EmptyResponse;
    assert b[0..] == b;
    while reader.offset < |b|
      invariant reader.input == b && reader.offset <= |b|
      invariant ResponseFrom(b, EmptyResponse, lossy) == ResponseFrom(reader.Left(), response, lossy)
      decreases |b| - reader.offset
    {
      var tag := reader.TakeVarint();
      if tag.None? {
        return Failed;
      }
      var next := TakeField(reader, tag.value, response, lossy);
      if next.Failed? {
        return Failed;
      }
      response := next.value;
    }
    decoded := if response.status == 0 then Failed else Ok(response);
  }

  /** As the server writes them: fields that have their default value are left out. */
  function OptionalField(field: nat, value: seq<Byte>): seq<Byte> {
    if value == [] then [] else BytesField(field, value)
  }

  function ServerHeaderBytes(header: Header): seq<Byte> {
    OptionalField(1, EncodeAll(header.name)) + OptionalField(2, header.value)
  }

  function HeaderFields(headers: seq<Header>): seq<Byte> {
    if headers == [] then [] else BytesField(2, ServerHeaderBytes(headers[0])) + HeaderFields(headers[1..])
  }

  function ResponseBytes(status: nat, headers: seq<Header>, body: seq<Byte>): seq<Byte> {
    (if status == 0 then [] else Varint(8) + Varint(status)) + HeaderFields(headers) + OptionalField(3, body)
  }

  function ReceivedOne(header: Header, lossy: Lossy): seq<(seq<Scalar>, seq<Scalar>)> {
    if Unmarked(header.name) == [] then [] else [(Unmarked(header.name), DecodeText(header.value, lossy))]
  }

  /** What is left of the headers: those with a name, both parts as text. */
  function Received(headers: seq<Header>, lossy: Lossy): seq<(seq<Scalar>, seq<Scalar>)> {
    if headers == [] then [] else ReceivedOne(headers[0], lossy) + Received(headers[1..], lossy)
  }

  lemma ServerHeader(header: Header, lossy: Lossy)
    requires Fits(header)
    ensures DecodedHeader(ServerHeaderBytes(header), lossy) ==
            Ok(if Unmarked(header.name) == [] then None else Some(header.(name := Unmarked(header.name))))
  {
    var second := OptionalField(2, header.value);
    DecodesText(header.name, lossy);
    TextRoundTrip(header.name);
    if EncodeAll(header.name) != [] {
      HeaderField(1, EncodeAll(header.name), second, EmptyHeader, lossy);
    } else {
      assert [] + second == second;
    }
    if header.value != [] {
      assert second + [] == second;
      HeaderField(2, header.value, [], Header(Unmarked(header.name), []), lossy);
    }
  }

  lemma ResponseField(field: nat, value: seq<Byte>, rest: seq<Byte>, response: Response, lossy: Lossy)
    requires (field == 2 || field == 3) && |value| < UINT32
    ensures ResponseFrom(BytesField(field, value) + rest, response, lossy) ==
            if field == 3 then ResponseFrom(rest, response.(body := value), lossy)
            else match DecodedHeader(value, lossy)
                 case Failed => Failed
                 case Ok(header) => ResponseFrom(rest, WithHeader(response, header, lossy), lossy)
  {
    FieldRoundTrip(field, value, rest);
  }

  lemma OneReceived(response: Response, h: Header, lossy: Lossy)
    ensures WithHeader(response, if Unmarked(h.name) == [] then None else Some(h.(name := Unmarked(h.name))), lossy) ==
            response.(headers := response.headers + ReceivedOne(h, lossy))
  {
    assert response.headers + [] == response.headers;
  }

  lemma HeaderRead(h: Header, rest: seq<Byte>, response: Response, lossy: Lossy)
    requires Fits(h) && |ServerHeaderBytes(h)| < UINT32
    ensures ResponseFrom(BytesField(2, ServerHeaderBytes(h)) + rest, response, lossy) ==
            ResponseFrom(rest, response.(headers := response.headers + ReceivedOne(h, lossy)), lossy)
  {
    ServerHeader(h, lossy);
    ResponseField(2, ServerHeaderBytes(h), rest, response, lossy);
    OneReceived(response, h, lossy);
  }

  lemma ReceivedMore(before: seq<(seq<Scalar>, seq<Scalar>)>, headers: seq<Header>, lossy: Lossy)
    requires headers != []
    ensures before + ReceivedOne(headers[0], lossy) + Received(headers[1..], lossy) == before + Received(headers, lossy)
  {
    Associate(before, ReceivedOne(headers[0], lossy), Received(headers[1..], lossy));
  }

  lemma {:induction false} HeadersReceived(headers: seq<Header>, rest: seq<Byte>, response: Response, lossy: Lossy)
    requires forall i :: 0 <= i < |headers| ==> Fits(headers[i]) && |ServerHeaderBytes(headers[i])| < UINT32
    ensures ResponseFrom(HeaderFields(headers) + rest, response, lossy) ==
            ResponseFrom(rest, response.(headers := response.headers + Received(headers, lossy)), lossy)
    decreases |headers|
  {
    if headers == [] {
      assert [] + rest == rest && response.headers + [] == response.headers;
    } else {
      Associate(BytesField(2, ServerHeaderBytes(headers[0])), HeaderFields(headers[1..]), rest);
      HeaderRead(headers[0], HeaderFields(headers[1..]) + rest, response, lossy);
      ReceivedMore(response.headers, headers, lossy);
      var next := response.(headers := response.headers + ReceivedOne(headers[0], lossy));
      HeadersReceived(headers[1..], rest, next, lossy);
    }
  }

  lemma StatusRead(status: nat, rest: seq<Byte>, response: Response, lossy: Lossy)
    requires status < UINT32
    ensures ResponseFrom(Varint(8) + Varint(status) + rest, response, lossy) ==
            ResponseFrom(rest, response.(status := status), lossy)
  {
    var b, tail := Varint(8) + Varint(status) + rest, Varint(status) + rest;
    assert b == Varint(8) + tail;
    VarintRoundTrip(8, tail);
    VarintRoundTrip(status, rest);
  }

  /** A server's response is decoded to its status, its named headers in order and its body,
      with every byte consumed, and is an error exactly if it has no status. */
  lemma ResponseRoundTrip(status: nat, headers: seq<Header>, body: seq<Byte>, lossy: Lossy)
    requires status < UINT32 && |body| < UINT32
    requires forall i :: 0 <= i < |headers| ==> Fits(headers[i]) && |ServerHeaderBytes(headers[i])| < UINT32
    ensures DecodedResponse(ResponseBytes(status, headers, body), lossy) ==
            if status == 0 then Failed else Ok(Response(status, Received(headers, lossy), body))
  {
    var last := OptionalField(3, body);
    StatusFirst(status, HeaderFields(headers), last, lossy);
    HeadersReceived(headers, last, Response(status, [], []), lossy);
    assert [] + Received(headers, lossy) == Received(headers, lossy);
    BodyRead(body, Response(status, Received(headers, lossy), []), lossy);
  }

  lemma StatusFirst(status: nat, fields: seq<Byte>, last: seq<Byte>, lossy: Lossy)
    requires status < UINT32
    ensures ResponseFrom((if status == 0 then [] else Varint(8) + Varint(status)) + fields + last,
                         EmptyResponse, lossy) ==
            ResponseFrom(fields + last, Response(status, [], []), lossy)
  {
    if status == 0 {
      assert [] + fields + last == fields + last;
    } else {
      Associate(Varint(8) + Varint(status), fields, last);
      StatusRead(status, fields + last, EmptyResponse, lossy);
    }
  }

  lemma BodyRead(body: seq<Byte>, response: Response, lossy: Lossy)
    requires |body| < UINT32 && response.body == []
    ensures ResponseFrom(OptionalField(3, body), response, lossy) == Ok(response.(body := body))
  {
    if body != [] {
      assert OptionalField(3, body) + [] == OptionalField(3, body);
      ResponseField(3, body, [], response, lossy);
    }
  }
}
