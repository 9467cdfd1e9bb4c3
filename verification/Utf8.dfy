/** UTF-8 as RFC 3629 defines it: the encoding of a scalar value (section 3), and the check
    of a byte string by the syntax of section 4, which also tells an incomplete last
    character from an invalid one. */
module Utf8 {
  import opened Common

  type Scalar = c: int | 0 <= c < 0x11_0000 && !(0xD800 <= c < 0xE000)

  function Encode(c: Scalar): seq<Byte> {
    if c < 0x80 then [c]
    else if c < 0x800 then [0xC0 + c / 0x40, 0x80 + c % 0x40]
    else if c < 0x1_0000 then [0xE0 + c / 0x1000, 0x80 + c / 0x40 % 0x40, 0x80 + c % 0x40]
    else [0xF0 + c / 0x4_0000, 0x80 + c / 0x1000 % 0x40, 0x80 + c / 0x40 % 0x40, 0x80 + c % 0x40]
  }

  function EncodeAll(text: seq<Scalar>): seq<Byte> {
    if text == [] then [] else Encode(text[0]) + EncodeAll(text[1..])
  }

  // -------------------------------------------------------------------- the first char

  datatype Head = Char(length: nat) | Partial | Bad

  function Width(first: Byte): nat {
    if first < 0x80 then 1
    else if 0xC2 <= first <= 0xDF then 2
    else if 0xE0 <= first <= 0xEF then 3
    else if 0xF0 <= first <= 0xF4 then 4
    else 0
  }

  predicate IsTail(b: Byte) {
    0x80 <= b <= 0xBF
  }

  /** The second byte after some first bytes is more narrowly bounded. */
  predicate MayFollow(first: Byte, second: Byte) {
    && IsTail(second)
    && (first == 0xE0 ==> second >= 0xA0) && (first == 0xED ==> second <= 0x9F)
    && (first == 0xF0 ==> second >= 0x90) && (first == 0xF4 ==> second <= 0x8F)
  }

  function ReadHead(b: seq<Byte>): (head: Head)
    requires b != []
    ensures head.Char? ==> 1 <= head.length <= |b| && head.length <= 4
    ensures head.Partial? ==> |b| <= 3
  {
    var width := Width(b[0]);
    if width == 0 then Bad
    else if width == 1 then Char(1)
    else if |b| < 2 then Partial
    else if !MayFollow(b[0], b[1]) then Bad
    else if width == 2 then Char(2)
    else if |b| < 3 then Partial
    else if !IsTail(b[2]) then Bad
    else if width == 3 then Char(3)
    else if |b| < 4 then Partial
    else if !IsTail(b[3]) then Bad
    else Char(4)
  }

  lemma HeadStable(b: seq<Byte>, more: seq<Byte>)
    requires b != []
    ensures !ReadHead(b).Partial? ==> ReadHead(b + more) == ReadHead(b)
  {
  }

  lemma EncodedTwo(c: Scalar)
    requires 0x80 <= c < 0x800
    ensures Width(Encode(c)[0]) == 2 && MayFollow(Encode(c)[0], Encode(c)[1])
  {
  }

  lemma EncodedThree(c: Scalar)
    requires 0x800 <= c < 0x1_0000
    ensures var b := Encode(c); Width(b[0]) == 3 && MayFollow(b[0], b[1]) && IsTail(b[2])
  {
  }

  lemma EncodedFour(c: Scalar)
    requires 0x1_0000 <= c
    ensures var b := Encode(c); Width(b[0]) == 4 && MayFollow(b[0], b[1]) && IsTail(b[2]) && IsTail(b[3])
  {
  }

  /** What is encoded is read as one character, whatever follows it. */
  lemma EncodedIsHead(c: Scalar, rest: seq<Byte>)
    ensures Encode(c) != [] && ReadHead(Encode(c) + rest) == Char(|Encode(c)|)
  {
    if c >= 0x1_0000 {
      EncodedFour(c);
    } else if c >= 0x800 {
      EncodedThree(c);
    } else if c >= 0x80 {
      EncodedTwo(c);
    }
    assert ReadHead(Encode(c)) == Char(|Encode(c)|);
    HeadStable(Encode(c), rest);
  }

  function Bits(b: Byte, base: int): int {
    b as int - base
  }

  /** The scalar value a character's bytes stand for. */
  function Decode(b: seq<Byte>): (c: int)
    requires 1 <= |b| <= 4
  {
    if |b| == 1 then b[0] as int
    else if |b| == 2 then Bits(b[0], 0xC0) * 0x40 + Bits(b[1], 0x80)
    else if |b| == 3 then Bits(b[0], 0xE0) * 0x1000 + Bits(b[1], 0x80) * 0x40 + Bits(b[2], 0x80)
    else Bits(b[0], 0xF0) * 0x4_0000 + Bits(b[1], 0x80) * 0x1000 + Bits(b[2], 0x80) * 0x40 + Bits(b[3], 0x80)
  }

  lemma Digits(high: int, low: int)
    requires 0 <= low < 0x40
    ensures (high * 0x40 + low) / 0x40 == high && (high * 0x40 + low) % 0x40 == low
  {
  }

  predicate IsScalar(c: int) {
    0 <= c < 0x11_0000 && !(0xD800 <= c < 0xE000)
  }

  lemma DecodedThree(b: seq<Byte>)
    requires |b| == 3 && Width(b[0]) == 3 && MayFollow(b[0], b[1]) && IsTail(b[2])
    ensures IsScalar(Decode(b)) && Encode(Decode(b)) == b
  {
    var high := Bits(b[0], 0xE0) * 0x40 + Bits(b[1], 0x80);
    Digits(high, Bits(b[2], 0x80));
    Digits(Bits(b[0], 0xE0), Bits(b[1], 0x80));
    assert Decode(b) == high * 0x40 + Bits(b[2], 0x80);
  }

  lemma DecodedFour(b: seq<Byte>)
    requires |b| == 4 && Width(b[0]) == 4 && MayFollow(b[0], b[1]) && IsTail(b[2]) && IsTail(b[3])
    ensures IsScalar(Decode(b)) && Encode(Decode(b)) == b
  {
    var top := Bits(b[0], 0xF0) * 0x40 + Bits(b[1], 0x80);
    var high := top * 0x40 + Bits(b[2], 0x80);
    Digits(high, Bits(b[3], 0x80));
    Digits(top, Bits(b[2], 0x80));
    Digits(Bits(b[0], 0xF0), Bits(b[1], 0x80));
    assert Decode(b) == high * 0x40 + Bits(b[3], 0x80);
  }

  /** Every character read is the encoding of exactly one scalar value. */
  lemma HeadDecodes(b: seq<Byte>)
    requires b != [] && ReadHead(b).Char?
    ensures var one := b[..ReadHead(b).length];
            IsScalar(Decode(one)) && Encode(Decode(one)) == one
  {
    var one := b[..ReadHead(b).length];
    if |one| == 4 {
      DecodedFour(one);
    } else if |one| == 3 {
      DecodedThree(one);
    } else if |one| == 2 {
      Digits(Bits(one[0], 0xC0), Bits(one[1], 0x80));
    }
  }

  /** A character of each length. */
  lemma Examples()
    ensures Encode(0x41) == [0x41] && Encode(0xE9) == [0xC3, 0xA9]
    ensures Encode(0x20AC) == [0xE2, 0x82, 0xAC] && Encode(0x1F600) == [0xF0, 0x9F, 0x98, 0x80]
  {
  }

  // ------------------------------------------------------------------------ whole strings

  /** What `std::str::from_utf8` says; `upTo` is the length of the longest valid prefix. */
  datatype Check = Valid | Incomplete(upTo: nat) | Invalid(upTo: nat)

  function Shift(c: Check, n: nat): Check {
    match c
    case Valid => Valid
    case Incomplete(upTo) => Incomplete(n + upTo)
    case Invalid(upTo) => Invalid(n + upTo)
  }

  function FromUtf8(b: seq<Byte>): (c: Check)
    ensures !c.Valid? ==> c.upTo <= |b|
    ensures c.Incomplete? ==> 0 < |b| - c.upTo <= 3
    decreases |b|
  {
    if b == [] then Valid
    else
      match ReadHead(b)
      case Char(length) => Shift(FromUtf8(b[length..]), length)
      case Partial => Incomplete(0)
      case Bad => Invalid(0)
  }

  predicate IsUtf8(b: seq<Byte>) {
    FromUtf8(b).Valid?
  }

  function First(b: seq<Byte>): (c: Scalar)
    requires b != [] && ReadHead(b).Char?
    ensures Encode(c) == b[..ReadHead(b).length]
  {
    HeadDecodes(b);
    Decode(b[..ReadHead(b).length])
  }

  function Text(b: seq<Byte>): seq<Scalar>
    requires IsUtf8(b)
    decreases |b|
  {
    if b == [] then [] else [First(b)] + Text(b[ReadHead(b).length..])
  }

  /** Encoded text is well formed and is read back. */
  lemma {:induction false} TextRoundTrip(text: seq<Scalar>)
    ensures IsUtf8(EncodeAll(text)) && Text(EncodeAll(text)) == text
  {
    if text != [] {
      var c, rest := text[0], EncodeAll(text[1..]);
      TextRoundTrip(text[1..]);
      EncodedIsHead(c, rest);
      var b := Encode(c) + rest;
      assert b[..|Encode(c)|] == Encode(c) && b[|Encode(c)|..] == rest;
      EncodeInjective(c, First(b));
    }
  }

  lemma EncodeInjective(c: Scalar, d: Scalar)
    requires Encode(c) == Encode(d)
    ensures c == d
  {
    if |Encode(c)| == 4 {
      SameDigits(c / 0x1000, d / 0x1000);
      SameDigits(c / 0x40, d / 0x40);
    } else if |Encode(c)| == 3 {
      SameDigits(c / 0x40, d / 0x40);
    }
  }

  lemma SameDigits(c: nat, d: nat)
    requires c / 0x40 == d / 0x40 && c % 0x40 == d % 0x40
    ensures c == d
  {
  }

  lemma Cut(b: seq<Byte>, n: nat)
    requires n <= |b|
    ensures b[..n] + b[n..] == b
  {
  }

  lemma EncodeAllCons(c: Scalar, text: seq<Scalar>)
    ensures EncodeAll([c] + text) == Encode(c) + EncodeAll(text)
  {
    assert ([c] + text)[1..] == text;
  }

  lemma {:induction false} WellFormedText(b: seq<Byte>)
    requires IsUtf8(b)
    ensures EncodeAll(Text(b)) == b
    decreases |b|
  {
    if b != [] {
      var n := ReadHead(b).length;
      WellFormedText(b[n..]);
      EncodeAllCons(First(b), Text(b[n..]));
      Cut(b, n);
    }
  }

  /** Well formed is exactly: the encoding of some text. */
  lemma WellFormedIff(b: seq<Byte>)
    ensures IsUtf8(b) <==> exists text: seq<Scalar> :: b == EncodeAll(text)
  {
    if IsUtf8(b) {
      WellFormedText(b);
      assert b == EncodeAll(Text(b));
    } else if exists text: seq<Scalar> :: b == EncodeAll(text) {
      var text: seq<Scalar> :| b == EncodeAll(text);
      TextRoundTrip(text);
    }
  }

  /** What precedes is checked as it would be on its own. */
  lemma {:induction false} CheckAppend(a: seq<Byte>, b: seq<Byte>)
    ensures IsUtf8(a) ==> FromUtf8(a + b) == Shift(FromUtf8(b), |a|)
    ensures FromUtf8(a).Invalid? ==> FromUtf8(a + b) == FromUtf8(a)
    decreases |a|
  {
    if a == [] {
      assert a + b == b;
    } else {
      HeadStable(a, b);
      match ReadHead(a)
      case Char(n) =>
        assert (a + b)[n..] == a[n..] + b;
        CheckAppend(a[n..], b);
      case _ =>
    }
  }

  /** The prefix up to `upTo` is well formed, and what is left after it is one incomplete
      character or begins with an invalid one. */
  lemma {:induction false} CheckSplits(b: seq<Byte>)
    requires !IsUtf8(b)
    ensures var n := FromUtf8(b).upTo;
            IsUtf8(b[..n]) && n < |b| && ReadHead(b[n..]) == if FromUtf8(b).Incomplete? then Partial else Bad
    decreases |b|
  {
    match ReadHead(b)
    case Char(length) =>
      CheckSplits(b[length..]);
      var n := FromUtf8(b).upTo;
      assert b[n..] == b[length..][n - length..];
      PrefixOfRest(b, n);
    case _ => assert b[0..] == b && b[..0] == [];
  }

  lemma PrefixOfRest(b: seq<Byte>, n: nat)
    requires b != [] && ReadHead(b).Char? && ReadHead(b).length <= n <= |b|
    requires IsUtf8(b[ReadHead(b).length..][..n - ReadHead(b).length])
    ensures IsUtf8(b[..n])
  {
    var length := ReadHead(b).length;
    assert b[..n] == b[..length] + b[length..][..n - length];
    HeadIsText(b);
    CheckAppend(b[..length], b[length..][..n - length]);
  }

  lemma HeadIsText(b: seq<Byte>)
    requires b != [] && ReadHead(b).Char?
    ensures IsUtf8(b[..ReadHead(b).length])
  {
    var one := b[..ReadHead(b).length];
    EncodedIsHead(First(b), []);
    assert one + [] == one && one[|one|..] == [];
  }
}
