/** The language policy's word replacement, on the bytes of UTF-8 strings. A string is
    found only between characters, so that the text may be cut there; of the matches that may
    be replaced, the leftmost that do not overlap are, and there is one such choice; the
    method's loop with its cursor returns the text with those spliced. Case is folded on ASCII
    letters only, which moves no character. Which characters are alphanumeric is a parameter. */
module ReplaceMatches {
  import opened Common
  import opened Utf8

  // ------------------------------------------------------------------------- boundaries

  /** Where a string may be sliced. */
  predicate IsCharBoundary(text: seq<Byte>, i: nat) {
    i == |text| || (i < |text| && !IsTail(text[i]))
  }

  lemma {:induction false} BoundarySplits(text: seq<Byte>, i: nat)
    requires IsUtf8(text) && IsCharBoundary(text, i)
    ensures IsUtf8(text[..i]) && IsUtf8(text[i..])
    decreases |text|
  {
    if i == 0 {
      assert text[0..] == text && text[..0] == [];
    } else {
      var n := ReadHead(text).length;
      InsideHead(text);
      assert i >= n;
      BoundarySplits(text[n..], i - n);
      assert text[i..] == text[n..][i - n..];
      PrefixOfRest(text, i);
    }
  }

  lemma InsideHead(text: seq<Byte>)
    requires text != [] && ReadHead(text).Char?
    ensures !IsTail(text[0]) && forall i :: 1 <= i < ReadHead(text).length ==> IsTail(text[i])
  {
  }

  /** A string found in another begins and ends at character boundaries. */
  lemma MatchAtBoundaries(text: seq<Byte>, needle: seq<Byte>, i: nat)
    requires IsUtf8(text) && IsUtf8(needle) && needle != [] && Occurs(text, needle, i)
    ensures IsCharBoundary(text, i) && IsCharBoundary(text, i + |needle|)
  {
    InsideHead(needle);
    assert text[i] == text[i..i + |needle|][0];
    BoundarySplits(text, i);
    var rest := text[i + |needle|..];
    assert text[i..] == needle + rest;
    CheckAppend(needle, rest);
    if rest != [] {
      InsideHead(rest);
      assert rest[0] == text[i + |needle|];
    }
  }

  // -------------------------------------------------------------------------- the search

  predicate Occurs(text: seq<Byte>, needle: seq<Byte>, i: nat) {
    i + |needle| <= |text| && text[i..i + |needle|] == needle
  }

  /** `str::find` from a position on. */
  function Find(text: seq<Byte>, needle: seq<Byte>, from: nat): (found: Option<nat>)
    requires from <= |text|
    ensures found.Some? ==> from <= found.value && Occurs(text, needle, found.value)
    ensures forall i :: from <= i && (found.Some? ==> i < found.value) ==> !Occurs(text, needle, i)
    decreases |text| - from
  {
    if Occurs(text, needle, from) then Some(from)
    else if from == |text| then None
    else Find(text, needle, from + 1)
  }

  function LowerByte(b: Byte): Byte {
    if 'A' as int <= b <= 'Z' as int then b + 32 else b
  }

  function Lower(text: seq<Byte>): (lower: seq<Byte>)
    ensures |lower| == |text|
  {
    seq(|text|, i requires 0 <= i < |text| => LowerByte(text[i]))
  }

  lemma LowerHead(text: seq<Byte>)
    requires text != []
    ensures ReadHead(Lower(text)) == ReadHead(text)
  {
  }

  lemma {:induction false} LowerIsText(text: seq<Byte>)
    ensures FromUtf8(Lower(text)) == FromUtf8(text)
    decreases |text|
  {
    if text != [] {
      LowerHead(text);
      if ReadHead(text).Char? {
        var n := ReadHead(text).length;
        LowerIsText(text[n..]);
        assert Lower(text)[n..] == Lower(text[n..]);
      }
    }
  }

  function Folded(text: seq<Byte>, caseSensitive: bool): (folded: seq<Byte>)
    ensures |folded| == |text|
  {
    if caseSensitive then text else Lower(text)
  }

  lemma FoldedIsText(text: seq<Byte>, caseSensitive: bool)
    ensures FromUtf8(Folded(text, caseSensitive)) == FromUtf8(text)
    ensures forall i :: 0 <= i < |text| ==> IsTail(Folded(text, caseSensitive)[i]) == IsTail(text[i])
  {
    LowerIsText(text);
  }

  // ------------------------------------------------------------------------- whole words

  predicate IsWordEdge(neighbour: Option<Scalar>, alphanumeric: Scalar -> bool) {
    neighbour.None? || (!alphanumeric(neighbour.value) && neighbour.value != '_' as int)
  }

  function FirstOf(text: seq<Byte>): Option<Scalar>
    requires IsUtf8(text)
  {
    if text == [] then None else Some(Text(text)[0])
  }

  function LastOf(text: seq<Byte>): Option<Scalar>
    requires IsUtf8(text)
  {
    if text == [] then None else Some(Text(text)[|Text(text)| - 1])
  }

  predicate EdgesAllow(text: seq<Byte>, start: nat, end: nat, alphanumeric: Scalar -> bool)
    requires start <= end <= |text| && IsUtf8(text[..start]) && IsUtf8(text[end..])
  {
    IsWordEdge(LastOf(text[..start]), alphanumeric) && IsWordEdge(FirstOf(text[end..]), alphanumeric)
  }

  /** Whether the characters around a match let it be replaced. */
  predicate Respects(text: seq<Byte>, start: nat, end: nat, wholeWord: bool, alphanumeric: Scalar -> bool) {
    !wholeWord ||
    (start <= end <= |text| && IsUtf8(text[..start]) && IsUtf8(text[end..])
     && EdgesAllow(text, start, end, alphanumeric))
  }

  // --------------------------------------------------------- what is to be replaced, and how

  /** What a replacement works on, with case already folded. */
  datatype Job = Job(
    text: seq<Byte>, folded: seq<Byte>, needle: seq<Byte>, wholeWord: bool, alphanumeric: Scalar -> bool)

  predicate Eligible(job: Job, i: nat) {
    && Occurs(job.folded, job.needle, i)
    && Respects(job.text, i, i + |job.needle|, job.wholeWord, job.alphanumeric)
  }

  predicate Taken(starts: seq<nat>, width: nat, i: nat) {
    exists k :: 0 <= k < |starts| && starts[k] <= i < starts[k] + width
  }

  predicate Disjoint(starts: seq<nat>, width: nat) {
    forall j, k :: 0 <= j < k < |starts| ==> starts[j] + width <= starts[k]
  }

  /** The chosen positions do not overlap, and every eligible one before `limit` is chosen or
      overlaps one chosen to its left. */
  ghost predicate Leftmost(eligible: nat -> bool, width: nat, starts: seq<nat>, limit: nat) {
    && (forall k :: 0 <= k < |starts| ==> eligible(starts[k]) && starts[k] < limit)
    && Disjoint(starts, width)
    && (forall i: nat {:trigger Taken(starts, width, i)} :: i < limit && eligible(i) ==> Taken(starts, width, i))
  }

  function After(starts: seq<nat>, width: nat): nat {
    if starts == [] then 0 else starts[|starts| - 1] + width
  }

  /** The text with its matches replaced, up to `limit`. */
  function Spliced(text: seq<Byte>, starts: seq<nat>, width: nat, replacement: seq<Byte>, limit: nat): seq<Byte>
    decreases |starts|
  {
    var done := After(starts, width);
    var tail := if done <= limit <= |text| then text[done..limit] else [];
    if starts == [] then tail
    else
      var last := starts[|starts| - 1];
      Spliced(text, starts[..|starts| - 1], width, replacement, last) + replacement + tail
  }

  lemma SplicedMore(text: seq<Byte>, starts: seq<nat>, width: nat, replacement: seq<Byte>, from: nat, to: nat)
    requires After(starts, width) <= from <= to <= |text|
    ensures Spliced(text, starts, width, replacement, to) ==
            Spliced(text, starts, width, replacement, from) + text[from..to]
  {
    var done := After(starts, width);
    assert text[done..to] == text[done..from] + text[from..to];
    if starts != [] {
      var before := Spliced(text, starts[..|starts| - 1], width, replacement, starts[|starts| - 1]) + replacement;
      assert before + (text[done..from] + text[from..to]) == before + text[done..from] + text[from..to];
    }
  }

  lemma SplicedMatch(text: seq<Byte>, starts: seq<nat>, width: nat, replacement: seq<Byte>, start: nat)
    requires start + width <= |text|
    ensures Spliced(text, starts + [start], width, replacement, start + width) ==
            Spliced(text, starts, width, replacement, start) + replacement
  {
    assert (starts + [start])[..|starts|] == starts;
    assert text[start + width..start + width] == [];
  }

  lemma Apart(starts: seq<nat>, width: nat)
    requires Disjoint(starts, width)
    ensures forall k :: 0 <= k < |starts| ==> starts[k] + width <= After(starts, width)
  {
  }

  lemma DisjointMore(starts: seq<nat>, width: nat, start: nat)
    requires Disjoint(starts, width) && After(starts, width) <= start
    ensures Disjoint(starts + [start], width)
  {
    Apart(starts, width);
  }

  lemma DisjointFront(starts: seq<nat>, width: nat)
    requires Disjoint(starts, width) && starts != []
    ensures Disjoint(starts[..|starts| - 1], width) && After(starts[..|starts| - 1], width) <= starts[|starts| - 1]
  {
  }

  lemma TakenMore(starts: seq<nat>, width: nat, start: nat, i: nat)
    requires Taken(starts, width, i) || start <= i < start + width
    ensures Taken(starts + [start], width, i)
  {
    var more := starts + [start];
    if Taken(starts, width, i) {
      var k :| 0 <= k < |starts| && starts[k] <= i < starts[k] + width;
      assert more[k] == starts[k];
    } else {
      assert more[|starts|] == start;
    }
  }

  lemma LeftmostTakes(eligible: nat -> bool, width: nat, starts: seq<nat>, cursor: nat, start: nat)
    requires Leftmost(eligible, width, starts, cursor) && width > 0 && After(starts, width) <= cursor <= start
    requires forall i: nat :: cursor <= i < start ==> !eligible(i)
    requires eligible(start)
    ensures Leftmost(eligible, width, starts + [start], start + width)
  {
    DisjointMore(starts, width, start);
    forall i: nat | i < start + width && eligible(i)
      ensures Taken(starts + [start], width, i)
    {
      TakenMore(starts, width, start, i);
    }
  }

  lemma LeftmostSkips(eligible: nat -> bool, width: nat, starts: seq<nat>, cursor: nat, next: nat)
    requires Leftmost(eligible, width, starts, cursor) && cursor <= next
    requires forall i: nat :: cursor <= i < next ==> !eligible(i)
    ensures Leftmost(eligible, width, starts, next)
  {
  }

  /** The choice made by going through the positions before `limit`. */
  function Chosen(eligible: nat -> bool, width: nat, limit: nat): seq<nat> {
    if limit == 0 then []
    else
      var front := Chosen(eligible, width, limit - 1);
      if eligible(limit - 1) && After(front, width) <= limit - 1 then front + [limit - 1] else front
  }

  /** What is chosen is leftmost... */
  lemma {:induction false} ChosenIsLeftmost(eligible: nat -> bool, width: nat, limit: nat)
    requires width > 0
    ensures Leftmost(eligible, width, Chosen(eligible, width, limit), limit)
  {
    if limit > 0 {
      var front := Chosen(eligible, width, limit - 1);
      ChosenIsLeftmost(eligible, width, limit - 1);
      if eligible(limit - 1) && After(front, width) <= limit - 1 {
        LeftmostAdds(eligible, width, front, limit);
      } else if eligible(limit - 1) {
        assert front[|front| - 1] <= limit - 1 < front[|front| - 1] + width;
      }
    }
  }

  lemma LeftmostAdds(eligible: nat -> bool, width: nat, front: seq<nat>, limit: nat)
    requires limit > 0 && width > 0 && Leftmost(eligible, width, front, limit - 1)
    requires eligible(limit - 1) && After(front, width) <= limit - 1
    ensures Leftmost(eligible, width, front + [limit - 1], limit)
  {
    DisjointMore(front, width, limit - 1);
    forall i: nat | i < limit && eligible(i)
      ensures Taken(front + [limit - 1], width, i)
    {
      TakenMore(front, width, limit - 1, i);
    }
  }

  lemma LastIsLast(starts: seq<nat>, width: nat, limit: nat, last: nat)
    requires Disjoint(starts, width) && width > 0 && last in starts && limit == last + 1
    requires forall k :: 0 <= k < |starts| ==> starts[k] < limit
    ensures starts[|starts| - 1] == last && forall k :: 0 <= k < |starts| - 1 ==> starts[k] < last
  {
    var k :| 0 <= k < |starts| && starts[k] == last;
    Apart(starts, width);
  }

  lemma TakenFront(starts: seq<nat>, width: nat, i: nat)
    requires Taken(starts, width, i) && i < starts[|starts| - 1]
    ensures Taken(starts[..|starts| - 1], width, i)
  {
    var j :| 0 <= j < |starts| && starts[j] <= i < starts[j] + width;
    assert starts[..|starts| - 1][j] == starts[j];
  }

  lemma LastOne(eligible: nat -> bool, width: nat, starts: seq<nat>, limit: nat)
    requires limit > 0 && width > 0 && Leftmost(eligible, width, starts, limit) && limit - 1 in starts
    ensures starts == starts[..|starts| - 1] + [limit - 1]
    ensures Leftmost(eligible, width, starts[..|starts| - 1], limit - 1)
    ensures eligible(limit - 1) && After(starts[..|starts| - 1], width) <= limit - 1
  {
    LastIsLast(starts, width, limit, limit - 1);
    DisjointFront(starts, width);
    forall i: nat | i < limit - 1 && eligible(i)
      ensures Taken(starts[..|starts| - 1], width, i)
    {
      TakenFront(starts, width, i);
    }
  }

  lemma NotLast(eligible: nat -> bool, width: nat, starts: seq<nat>, limit: nat)
    requires limit > 0 && Leftmost(eligible, width, starts, limit) && limit - 1 !in starts
    ensures Leftmost(eligible, width, starts, limit - 1)
    ensures eligible(limit - 1) ==> After(starts, width) > limit - 1
  {
    Apart(starts, width);
    assert eligible(limit - 1) ==> Taken(starts, width, limit - 1);
  }

  lemma ChosenStep(eligible: nat -> bool, width: nat, limit: nat)
    requires limit > 0
    ensures var front := Chosen(eligible, width, limit - 1);
            Chosen(eligible, width, limit) ==
            if eligible(limit - 1) && After(front, width) <= limit - 1 then front + [limit - 1] else front
  {
  }

  lemma LimitPositive(starts: seq<nat>, limit: nat)
    requires starts != [] && forall k :: 0 <= k < |starts| ==> starts[k] < limit
    ensures limit > 0
  {
    assert starts[0] < limit;
  }

  /** ... and no other choice is. */
  lemma {:induction false} LeftmostIsChosen(eligible: nat -> bool, width: nat, starts: seq<nat>, limit: nat)
    requires Leftmost(eligible, width, starts, limit) && width > 0
    ensures starts == Chosen(eligible, width, limit)
    decreases limit
  {
    if limit > 0 {
      if limit - 1 in starts {
        LastOne(eligible, width, starts, limit);
        LeftmostIsChosen(eligible, width, starts[..|starts| - 1], limit - 1);
      } else {
        NotLast(eligible, width, starts, limit);
        LeftmostIsChosen(eligible, width, starts, limit - 1);
      }
      ChosenStep(eligible, width, limit);
    } else if starts != [] {
      LimitPositive(starts, limit);
    }
  }

  // -------------------------------------------------------------------------- the method

  function JobOf(text: seq<Byte>, needle: seq<Byte>, caseSensitive: bool, wholeWord: bool,
                 alphanumeric: Scalar -> bool): Job {
    Job(text, Folded(text, caseSensitive), Folded(needle, caseSensitive), wholeWord, alphanumeric)
  }

  function EligibleIn(job: Job): nat -> bool {
    (i: nat) => Eligible(job, i)
  }

  /** Text and needle are text, and folding has not moved any character. */
  ghost predicate Sound(job: Job) {
    && IsUtf8(job.text) && IsUtf8(job.folded) && IsUtf8(job.needle) && job.needle != []
    && |job.folded| == |job.text|
    && forall i :: 0 <= i < |job.text| ==> IsTail(job.folded[i]) == IsTail(job.text[i])
  }

  lemma JobIsSound(text: seq<Byte>, needle: seq<Byte>, caseSensitive: bool, wholeWord: bool,
                   alphanumeric: Scalar -> bool)
    requires IsUtf8(text) && IsUtf8(needle) && needle != []
    ensures Sound(JobOf(text, needle, caseSensitive, wholeWord, alphanumeric))
  {
    FoldedIsText(text, caseSensitive);
    FoldedIsText(needle, caseSensitive);
  }

  lemma {:induction false} SplicedIsText(job: Job, starts: seq<nat>, replacement: seq<Byte>, limit: nat)
    requires IsUtf8(job.text) && IsUtf8(replacement)
    requires forall k :: 0 <= k < |starts| ==>
               IsCharBoundary(job.text, starts[k]) && IsCharBoundary(job.text, starts[k] + |job.needle|)
    requires IsCharBoundary(job.text, limit)
    ensures IsUtf8(Spliced(job.text, starts, |job.needle|, replacement, limit))
    decreases |starts|
  {
    var done := After(starts, |job.needle|);
    var tail := if done <= limit <= |job.text| then job.text[done..limit] else [];
    if done <= limit <= |job.text| {
      SliceIsText(job.text, done, limit);
    }
    if starts != [] {
      var last := starts[|starts| - 1];
      var before := Spliced(job.text, starts[..|starts| - 1], |job.needle|, replacement, last);
      SplicedIsText(job, starts[..|starts| - 1], replacement, last);
      CheckAppend(before, replacement);
      CheckAppend(before + replacement, tail);
    }
  }

  lemma SliceIsText(text: seq<Byte>, from: nat, to: nat)
    requires IsUtf8(text) && from <= to && (from == 0 || IsCharBoundary(text, from)) && IsCharBoundary(text, to)
    ensures IsUtf8(text[from..to])
  {
    BoundarySplits(text, to);
    if from < to {
      if from > 0 {
        BoundarySplits(text[..to], from);
        assert text[from..to] == text[..to][from..];
      } else {
        assert text[from..to] == text[..to];
      }
    }
  }

  lemma MatchBoundaries(job: Job, i: nat)
    requires Sound(job) && Occurs(job.folded, job.needle, i)
    ensures i < |job.text| && IsCharBoundary(job.text, i) && IsCharBoundary(job.text, i + |job.needle|)
  {
    MatchAtBoundaries(job.folded, job.needle, i);
  }

  /** Nothing is found inside a character. */
  lemma NoneInside(job: Job, start: nat, step: nat)
    requires Sound(job) && start < |job.text| && IsUtf8(job.text[start..])
    requires step == ReadHead(job.text[start..]).length
    ensures start + step <= |job.text| && IsCharBoundary(job.text, start + step)
    ensures forall i :: start < i < start + step ==> !Occurs(job.folded, job.needle, i)
  {
    var rest := job.text[start..];
    HeadBoundary(rest);
    assert start + step < |job.text| ==> job.text[start + step] == rest[step];
    forall i | start < i < start + step
      ensures !Occurs(job.folded, job.needle, i)
    {
      assert IsTail(rest[i - start]);
      NotAtTail(job, i);
    }
  }

  lemma HeadBoundary(rest: seq<Byte>)
    requires rest != [] && IsUtf8(rest)
    ensures ReadHead(rest).Char? && IsCharBoundary(rest, ReadHead(rest).length)
    ensures forall i :: 1 <= i < ReadHead(rest).length ==> IsTail(rest[i])
  {
    InsideHead(rest);
    var after := rest[ReadHead(rest).length..];
    assert FromUtf8(after).Valid?;
    if after != [] {
      assert ReadHead(after).Char?;
      InsideHead(after);
    }
  }

  lemma NotAtTail(job: Job, i: nat)
    requires Sound(job) && i < |job.text| && IsTail(job.text[i])
    ensures !Occurs(job.folded, job.needle, i)
  {
    if Occurs(job.folded, job.needle, i) {
      MatchBoundaries(job, i);
    }
  }

  lemma ChosenBoundaries(job: Job, starts: seq<nat>)
    requires Sound(job) && forall k :: 0 <= k < |starts| ==> Eligible(job, starts[k])
    ensures forall k :: 0 <= k < |starts| ==>
              IsCharBoundary(job.text, starts[k]) && IsCharBoundary(job.text, starts[k] + |job.needle|)
  {
    forall k | 0 <= k < |starts|
      ensures IsCharBoundary(job.text, starts[k]) && IsCharBoundary(job.text, starts[k] + |job.needle|)
    {
      MatchBoundaries(job, starts[k]);
    }
  }

  /** So the text may be cut there, and the method's test is what makes a match eligible. */
  lemma MatchSlices(job: Job, start: nat)
    requires Sound(job) && Occurs(job.folded, job.needle, start)
    ensures start + |job.needle| <= |job.text|
    ensures IsUtf8(job.text[..start]) && IsUtf8(job.text[start..]) && IsUtf8(job.text[start + |job.needle|..])
  {
    MatchBoundaries(job, start);
    BoundarySplits(job.text, start);
    BoundarySplits(job.text, start + |job.needle|);
  }

  lemma EligibleIff(job: Job, start: nat, end: nat)
    requires Occurs(job.folded, job.needle, start) && end == start + |job.needle| <= |job.text|
    requires IsUtf8(job.text[..start]) && IsUtf8(job.text[end..])
    ensures Eligible(job, start) == (!job.wholeWord || EdgesAllow(job.text, start, end, job.alphanumeric))
  {
    EligibleParts(job, start, end);
    RespectsIff(job.text, start, end, job.wholeWord, job.alphanumeric);
  }

  lemma EligibleParts(job: Job, start: nat, end: nat)
    requires Occurs(job.folded, job.needle, start) && end == start + |job.needle|
    ensures Eligible(job, start) == Respects(job.text, start, end, job.wholeWord, job.alphanumeric)
  {
  }

  lemma RespectsIff(text: seq<Byte>, start: nat, end: nat, wholeWord: bool, alphanumeric: Scalar -> bool)
    requires start <= end <= |text| && IsUtf8(text[..start]) && IsUtf8(text[end..])
    ensures Respects(text, start, end, wholeWord, alphanumeric) ==
            (!wholeWord || EdgesAllow(text, start, end, alphanumeric))
  {
  }

  ghost predicate NoneBetween(job: Job, from: nat, to: nat) {
    forall i: nat :: from <= i < to ==> !Eligible(job, i)
  }

  ghost predicate FoundFrom(job: Job, from: nat, found: Option<nat>) {
    match found
    case Some(start) => from <= start && Occurs(job.folded, job.needle, start) && NoneBetween(job, from, start)
    case None => NoneBetween(job, from, |job.text|)
  }

  method FindIn(job: Job, from: nat) returns (found: Option<nat>)
    requires Sound(job) && from <= |job.text|
    ensures FoundFrom(job, from, found)
  {
    found := Find(job.folded, job.needle, from);
  }

  /** What the loop does at a match: whether it is replaced, and where the search goes on. */
  method Decide(job: Job, start: nat) returns (replaced: bool, next: nat)
    requires Sound(job) && Occurs(job.folded, job.needle, start)
    ensures start < next <= |job.text| && IsCharBoundary(job.text, next)
    ensures replaced == Eligible(job, start)
    ensures if replaced then next == start + |job.needle| else NoneBetween(job, start, next)
  {
    replaced := MayReplace(job, start);
    if replaced {
      next := start + |job.needle|;
      assert next <= |job.text| && IsCharBoundary(job.text, next) by {
        MatchBoundaries(job, start);
      }
    } else {
      next := AfterChar(job, start);
      NoneAfter(job, start, next);
    }
  }

  method MayReplace(job: Job, start: nat) returns (boundary: bool)
    requires Sound(job) && Occurs(job.folded, job.needle, start)
    ensures boundary == Eligible(job, start)
  {
    MatchSlices(job, start);
    boundary := AtEdges(job, start, start + |job.needle|);
  }

  method AtEdges(job: Job, start: nat, end: nat) returns (boundary: bool)
    requires Occurs(job.folded, job.needle, start) && end == start + |job.needle| <= |job.text|
    requires IsUtf8(job.text[..start]) && IsUtf8(job.text[end..])
    ensures boundary == Eligible(job, start)
  {
    EligibleIff(job, start, end);
    boundary := !job.wholeWord || EdgesAllow(job.text, start, end, job.alphanumeric);
  }

  method AfterChar(job: Job, start: nat) returns (next: nat)
    requires Sound(job) && Occurs(job.folded, job.needle, start)
    ensures start < next <= |job.text| && IsCharBoundary(job.text, next)
    ensures forall i :: start < i < next ==> !Occurs(job.folded, job.needle, i)
  {
    MatchSlices(job, start);
    next := start + ReadHead(job.text[start..]).length;
    NoneInside(job, start, next - start);
  }

  lemma NoneAfter(job: Job, start: nat, next: nat)
    requires !Eligible(job, start) && forall i :: start < i < next ==> !Occurs(job.folded, job.needle, i)
    ensures NoneBetween(job, start, next)
  {
  }

  lemma NoneJoined(job: Job, from: nat, middle: nat, to: nat)
    requires NoneBetween(job, from, middle) && NoneBetween(job, middle, to)
    ensures NoneBetween(job, from, to)
  {
  }

  /** The text up to `cursor` has been dealt with. */
  ghost predicate Progress(job: Job, replacement: seq<Byte>, starts: seq<nat>, cursor: nat, output: seq<Byte>) {
    && cursor <= |job.text| && IsCharBoundary(job.text, cursor)
    && After(starts, |job.needle|) <= cursor
    && Leftmost(EligibleIn(job), |job.needle|, starts, cursor)
    && output == Spliced(job.text, starts, |job.needle|, replacement, cursor)
  }

  lemma ProgressMatch(job: Job, replacement: seq<Byte>, starts: seq<nat>, cursor: nat, output: seq<Byte>, start: nat)
    requires Sound(job) && Progress(job, replacement, starts, cursor, output)
    requires cursor <= start && Eligible(job, start) && NoneBetween(job, cursor, start)
    ensures start <= |job.text|
    ensures Progress(job, replacement, starts + [start], start + |job.needle|,
                     output + job.text[cursor..start] + replacement)
  {
    MatchBoundaries(job, start);
    LeftmostTakes(EligibleIn(job), |job.needle|, starts, cursor, start);
    SplicedMore(job.text, starts, |job.needle|, replacement, cursor, start);
    SplicedMatch(job.text, starts, |job.needle|, replacement, start);
  }

  lemma ProgressSkip(job: Job, replacement: seq<Byte>, starts: seq<nat>, cursor: nat, output: seq<Byte>, next: nat)
    requires Progress(job, replacement, starts, cursor, output)
    requires cursor <= next <= |job.text| && IsCharBoundary(job.text, next) && NoneBetween(job, cursor, next)
    ensures Progress(job, replacement, starts, next, output + job.text[cursor..next])
  {
    LeftmostSkips(EligibleIn(job), |job.needle|, starts, cursor, next);
    SplicedMore(job.text, starts, |job.needle|, replacement, cursor, next);
  }

  lemma ProgressDone(job: Job, replacement: seq<Byte>, starts: seq<nat>, output: seq<Byte>)
    requires Sound(job) && IsUtf8(replacement) && Progress(job, replacement, starts, |job.text|, output)
    ensures output == Replaced(job, replacement) && IsUtf8(output)
  {
    LeftmostIsChosen(EligibleIn(job), |job.needle|, starts, |job.text|);
    ChosenBoundaries(job, starts);
    SplicedIsText(job, starts, replacement, |job.text|);
  }

  function Replaced(job: Job, replacement: seq<Byte>): seq<Byte> {
    Spliced(job.text, Chosen(EligibleIn(job), |job.needle|, |job.text|), |job.needle|, replacement, |job.text|)
  }

  /** One turn of the loop: what it copies, and where it goes on. */
  method Turn(job: Job, replacement: seq<Byte>, ghost starts: seq<nat>, cursor: nat, output: seq<Byte>, start: nat)
    returns (ghost more: seq<nat>, next: nat, longer: seq<Byte>)
    requires Sound(job) && Progress(job, replacement, starts, cursor, output) && FoundFrom(job, cursor, Some(start))
    ensures Progress(job, replacement, more, next, longer) && start < next <= |job.text|
  {
    var replaced;
    replaced, next := Decide(job, start);
    more := starts;
    if replaced {
      ProgressMatch(job, replacement, starts, cursor, output, start);
      longer := output + job.text[cursor..start] + replacement;
      more := starts + [start];
    } else {
      NoneJoined(job, cursor, start, next);
      ProgressSkip(job, replacement, starts, cursor, output, next);
      longer := output + job.text[cursor..next];
    }
  }

  /** The loop, on text and needle with case already folded. */
  method ReplaceIn(job: Job, replacement: seq<Byte>) returns (output: seq<Byte>)
    requires Sound(job) && IsUtf8(replacement)
    ensures output == Replaced(job, replacement) && IsUtf8(output)
  {
    output := [];
    var cursor := 0;
    ghost var starts: seq<nat> := [];
    ProgressStart(job, replacement);
    var found := FindIn(job, cursor);
    while found.Some?
      invariant cursor <= |job.text| && FoundFrom(job, cursor, found)
      invariant Progress(job, replacement, starts, cursor, output)
      decreases |job.text| - cursor
    {
      starts, cursor, output := Turn(job, replacement, starts, cursor, output, found.value);
      found := FindIn(job, cursor);
    }
    ProgressSkip(job, replacement, starts, cursor, output, |job.text|);
    output := output + job.text[cursor..];
    ProgressDone(job, replacement, starts, output);
  }

  lemma ProgressStart(job: Job, replacement: seq<Byte>)
    requires Sound(job)
    ensures Progress(job, replacement, [], 0, [])
  {
    if job.text != [] {
      InsideHead(job.text);
    }
  }

  /** The eligible matches, leftmost first and without overlap, are replaced and the rest of
      the text is copied as it is. The text is only cut between characters, and the result
      is well formed. */
  method ReplaceAll(text: seq<Byte>, needle: seq<Byte>, replacement: seq<Byte>,
                    caseSensitive: bool, wholeWord: bool, alphanumeric: Scalar -> bool) returns (output: seq<Byte>)
    requires IsUtf8(text) && IsUtf8(needle) && IsUtf8(replacement)
    ensures output == if needle == [] then text
                      else Replaced(JobOf(text, needle, caseSensitive, wholeWord, alphanumeric), replacement)
    ensures IsUtf8(output)
  {
    if needle == [] {
      return text;
    }
    JobIsSound(text, needle, caseSensitive, wholeWord, alphanumeric);
    output := ReplaceIn(JobOf(text, needle, caseSensitive, wholeWord, alphanumeric), replacement);
  }
}
