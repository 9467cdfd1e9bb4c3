/** What is replaced, in terms of characters. */
module ReplaceText {
  import opened Common
  import opened Utf8
  import opened ReplaceMatches

  function LowerScalar(c: Scalar): Scalar {
    if 65 <= c <= 90 then c + 32 else c
  }

  /** ASCII letters in lower case, everything else as it is. */
  function LowerText(text: seq<Scalar>): seq<Scalar> {
    seq(|text|, i requires 0 <= i < |text| => LowerScalar(text[i]))
  }

  lemma LowerEncodes(c: Scalar)
    ensures Lower(Encode(c)) == Encode(LowerScalar(c))
  {
  }

  lemma LowerConcat(a: seq<Byte>, b: seq<Byte>)
    ensures Lower(a + b) == Lower(a) + Lower(b)
  {
  }

  lemma {:induction false} LowerIsLowerText(text: seq<Scalar>)
    ensures Lower(EncodeAll(text)) == EncodeAll(LowerText(text))
  {
    if text != [] {
      LowerEncodes(text[0]);
      LowerConcat(Encode(text[0]), EncodeAll(text[1..]));
      LowerIsLowerText(text[1..]);
      assert LowerText(text)[1..] == LowerText(text[1..]);
    }
  }

  lemma {:induction false} EncodeAllConcat(a: seq<Scalar>, b: seq<Scalar>)
    ensures EncodeAll(a + b) == EncodeAll(a) + EncodeAll(b)
  {
    if a == [] {
      assert a + b == b;
    } else {
      EncodeAllConcat(a[1..], b);
      assert (a + b)[1..] == a[1..] + b && (a + b)[0] == a[0];
    }
  }

  lemma SameText(a: seq<Scalar>, b: seq<Scalar>)
    ensures EncodeAll(a) == EncodeAll(b) <==> a == b
  {
    TextRoundTrip(a);
    TextRoundTrip(b);
  }

  /** A letter or digit, or an underscore. */
  predicate InWord(c: Option<Scalar>, alphanumeric: Scalar -> bool) {
    c.Some? && (alphanumeric(c.value) || c.value == 0x5F)
  }

  function FirstScalar(text: seq<Scalar>): Option<Scalar> {
    if text == [] then None else Some(text[0])
  }

  function LastScalar(text: seq<Scalar>): Option<Scalar> {
    if text == [] then None else Some(text[|text| - 1])
  }

  predicate Equal(a: seq<Scalar>, b: seq<Scalar>, caseSensitive: bool) {
    if caseSensitive then a == b else LowerText(a) == LowerText(b)
  }

  lemma FoldedEqual(a: seq<Scalar>, b: seq<Scalar>, caseSensitive: bool)
    ensures Folded(EncodeAll(a), caseSensitive) == Folded(EncodeAll(b), caseSensitive) <==> Equal(a, b, caseSensitive)
  {
    LowerIsLowerText(a);
    LowerIsLowerText(b);
    SameText(a, b);
    SameText(LowerText(a), LowerText(b));
  }

  lemma FoldedAt(a: seq<Byte>, b: seq<Byte>, c: seq<Byte>, caseSensitive: bool)
    ensures Folded(a + b + c, caseSensitive)[|a|..|a| + |b|] == Folded(b, caseSensitive)
  {
  }

  lemma EndsOfText(text: seq<Scalar>)
    ensures IsUtf8(EncodeAll(text))
    ensures FirstOf(EncodeAll(text)) == FirstScalar(text) && LastOf(EncodeAll(text)) == LastScalar(text)
  {
    TextRoundTrip(text);
    SameText(text, []);
  }

  lemma Middle(x: seq<Byte>, y: seq<Byte>, z: seq<Byte>)
    ensures (x + y + z)[..|x|] == x && (x + y + z)[|x|..|x| + |y|] == y && (x + y + z)[|x| + |y|..] == z
  {
  }

  /** In bytes, between `x` and `z`. */
  lemma EligibleBetween(x: seq<Byte>, y: seq<Byte>, z: seq<Byte>, needle: seq<Byte>, equal: bool,
                        before: Option<Scalar>, after: Option<Scalar>,
                        caseSensitive: bool, wholeWord: bool, alphanumeric: Scalar -> bool)
    requires |y| == |needle| && IsUtf8(x) && IsUtf8(z) && LastOf(x) == before && FirstOf(z) == after
    requires equal <==> Folded(y, caseSensitive) == Folded(needle, caseSensitive)
    ensures Eligible(JobOf(x + y + z, needle, caseSensitive, wholeWord, alphanumeric), |x|) <==>
            equal && (wholeWord ==> !InWord(before, alphanumeric) && !InWord(after, alphanumeric))
  {
    OccursBetween(x, y, z, needle, caseSensitive);
    EdgesBetween(x, y, z, before, after, alphanumeric);
  }

  lemma OccursBetween(x: seq<Byte>, y: seq<Byte>, z: seq<Byte>, needle: seq<Byte>, caseSensitive: bool)
    requires |y| == |needle|
    ensures Occurs(Folded(x + y + z, caseSensitive), Folded(needle, caseSensitive), |x|) <==>
            Folded(y, caseSensitive) == Folded(needle, caseSensitive)
  {
    FoldedAt(x, y, z, caseSensitive);
  }

  lemma EdgesBetween(x: seq<Byte>, y: seq<Byte>, z: seq<Byte>, before: Option<Scalar>, after: Option<Scalar>,
                     alphanumeric: Scalar -> bool)
    requires IsUtf8(x) && IsUtf8(z) && LastOf(x) == before && FirstOf(z) == after
    ensures Respects(x + y + z, |x|, |x| + |y|, true, alphanumeric) <==>
            !InWord(before, alphanumeric) && !InWord(after, alphanumeric)
  {
    Middle(x, y, z);
  }

  lemma Encoded(a: seq<Scalar>, b: seq<Scalar>, c: seq<Scalar>)
    ensures EncodeAll(a + b + c) == EncodeAll(a) + EncodeAll(b) + EncodeAll(c)
  {
    EncodeAllConcat(a + b, c);
    EncodeAllConcat(a, b);
  }

  /** A place in a text is eligible exactly if the characters there are those of the needle,
      up to the case of ASCII letters if case does not matter, and, for whole words, neither
      the character before nor the one after is a letter, a digit or an underscore. */
  lemma EligibleIffEqual(a: seq<Scalar>, b: seq<Scalar>, c: seq<Scalar>, needle: seq<Scalar>,
                         caseSensitive: bool, wholeWord: bool, alphanumeric: Scalar -> bool)
    requires |EncodeAll(b)| == |EncodeAll(needle)|
    ensures var job := JobOf(EncodeAll(a + b + c), EncodeAll(needle), caseSensitive, wholeWord, alphanumeric);
            Eligible(job, |EncodeAll(a)|) <==>
              && Equal(b, needle, caseSensitive)
              && (wholeWord ==> !InWord(LastScalar(a), alphanumeric) && !InWord(FirstScalar(c), alphanumeric))
  {
    Encoded(a, b, c);
    EndsOfText(a);
    EndsOfText(c);
    FoldedEqual(b, needle, caseSensitive);
    EligibleBetween(EncodeAll(a), EncodeAll(b), EncodeAll(c), EncodeAll(needle), Equal(b, needle, caseSensitive),
                    LastScalar(a), FirstScalar(c), caseSensitive, wholeWord, alphanumeric);
  }
}
