/** A subprocess's output decoded while it arrives, in whatever pieces it is read. The
    translator's reader and the live recogniser's are the same loop. */
module Utf8Stream {
  import opened Common
  import opened Utf8

  class Utf8Reader {
    var output: seq<Byte>
    var pending: seq<Byte>
    var updates: seq<seq<Byte>>

    ghost predicate Valid()
      reads this
    {
      Tracks(output, pending, updates)
    }

    constructor ()
      ensures Valid() && output == [] && updates == []
    {
      output, pending, updates := [], [], [];
    }

    method TakeValidUtf8() returns (ok: bool)
      modifies this`pending, this`updates
      ensures ok == !FromUtf8(old(pending)).Invalid?
      ensures var n := if ok then WellFormedLength(old(pending)) else 0;
              && pending == old(pending)[n..]
              && updates == old(updates) + Passed(old(pending), n)
    {
      match FromUtf8(pending)
      case Valid =>
        if pending != [] {
          updates := updates + [pending];
          assert pending[..|pending|] == pending;
        }
        pending := [];
        return true;
      case Incomplete(valid) =>
        if valid > 0 {
          updates := updates + [pending[..valid]];
          pending := pending[valid..];
        }
        return true;
      case Invalid(_) =>
        return false;
    }

    /** One read. It fails exactly when what has been read so far cannot be the beginning of
        any text; otherwise the updates are all its whole characters, and at most three
        bytes wait for the rest of one. */
    method Feed(buffer: seq<Byte>) returns (ok: bool)
      requires Valid()
      modifies this
      ensures output == old(output) + buffer
      ensures ok == !FromUtf8(output).Invalid?
      ensures ok ==> Valid() && |pending| <= 3
      ensures old(updates) <= updates
      ensures !ok ==> updates == old(updates)
    {
      FeedChecks(output, pending, updates, buffer);
      output := output + buffer;
      pending := pending + buffer;
      ok := TakeValidUtf8();
    }
  }

  function WellFormedLength(b: seq<Byte>): (n: nat)
    ensures n <= |b|
  {
    if FromUtf8(b).Valid? then |b| else FromUtf8(b).upTo
  }

  lemma PrefixWellFormed(b: seq<Byte>)
    ensures IsUtf8(b[..WellFormedLength(b)])
  {
    if IsUtf8(b) {
      assert b[..|b|] == b;
    } else {
      CheckSplits(b);
    }
  }

  /** What has been passed on is the longest well-formed prefix of what was read. */
  ghost predicate Tracks(output: seq<Byte>, pending: seq<Byte>, updates: seq<seq<Byte>>) {
    && !FromUtf8(output).Invalid?
    && Flatten(updates) + pending == output
    && |Flatten(updates)| == WellFormedLength(output)
    && AllText(updates)
  }

  predicate AllText(updates: seq<seq<Byte>>) {
    forall i :: 0 <= i < |updates| ==> updates[i] != [] && IsUtf8(updates[i])
  }

  lemma CheckFrom(prefix: seq<Byte>, rest: seq<Byte>, whole: seq<Byte>)
    requires IsUtf8(prefix) && whole == prefix + rest
    ensures FromUtf8(whole) == Shift(FromUtf8(rest), |prefix|)
  {
    CheckAppend(prefix, rest);
  }

  /** Checking only what is pending gives what checking everything would. */
  lemma PendingChecks(output: seq<Byte>, pending: seq<Byte>, updates: seq<seq<Byte>>, buffer: seq<Byte>)
    requires Tracks(output, pending, updates)
    ensures FromUtf8(output + buffer) == Shift(FromUtf8(pending + buffer), |Flatten(updates)|)
  {
    PrefixWellFormed(output);
    assert output[..WellFormedLength(output)] == Flatten(updates);
    CheckFrom(Flatten(updates), pending + buffer, output + buffer);
  }

  function Passed(p: seq<Byte>, n: nat): seq<seq<Byte>>
    requires n <= |p|
  {
    if n > 0 then [p[..n]] else []
  }

  lemma PassedOn(updates: seq<seq<Byte>>, p: seq<Byte>, n: nat)
    requires n <= |p|
    ensures Flatten(updates + Passed(p, n)) + p[n..] == Flatten(updates) + p
  {
    if n > 0 {
      FlattenSnoc(updates, p[..n]);
    } else {
      assert updates + [] == updates;
    }
  }

  lemma PassedText(updates: seq<seq<Byte>>, p: seq<Byte>)
    requires AllText(updates)
    ensures AllText(updates + Passed(p, WellFormedLength(p)))
  {
    PrefixWellFormed(p);
  }

  lemma FeedLength(output: seq<Byte>, pending: seq<Byte>, updates: seq<seq<Byte>>, buffer: seq<Byte>)
    requires Tracks(output, pending, updates)
    ensures var p := pending + buffer;
            && Flatten(updates) + p == output + buffer
            && WellFormedLength(output + buffer) == |Flatten(updates)| + WellFormedLength(p)
            && FromUtf8(output + buffer).Invalid? == FromUtf8(p).Invalid?
            && (!FromUtf8(p).Invalid? ==> |p| - WellFormedLength(p) <= 3)
  {
    PendingChecks(output, pending, updates, buffer);
    Associate(Flatten(updates), pending, buffer);
  }

  lemma FeedChecks(output: seq<Byte>, pending: seq<Byte>, updates: seq<seq<Byte>>, buffer: seq<Byte>)
    requires Tracks(output, pending, updates)
    ensures FromUtf8(output + buffer).Invalid? == FromUtf8(pending + buffer).Invalid?
    ensures var p := pending + buffer;
            var n := WellFormedLength(p);
            !FromUtf8(p).Invalid? ==> |p| - n <= 3 && Tracks(output + buffer, p[n..], updates + Passed(p, n))
  {
    var p := pending + buffer;
    var n := WellFormedLength(p);
    FeedLength(output, pending, updates, buffer);
    PassedOn(updates, p, n);
    PassedText(updates, p);
    var after := updates + Passed(p, n);
    assert |Flatten(after)| + |p[n..]| == |output + buffer|;
  }

  lemma {:induction false} FlattenPrefix(parts: seq<seq<Byte>>, n: nat)
    requires n <= |parts|
    ensures Flatten(parts[..n]) <= Flatten(parts)
    decreases |parts|
  {
    if n < |parts| {
      FlattenPrefix(parts[..|parts| - 1], n);
      assert parts[..|parts| - 1][..n] == parts[..n];
    } else {
      assert parts[..n] == parts;
    }
  }

  lemma InvalidStays(part: seq<Byte>, whole: seq<Byte>)
    requires part <= whole && FromUtf8(part).Invalid?
    ensures FromUtf8(whole).Invalid?
  {
    CheckAppend(part, whole[|part|..]);
    assert part + whole[|part|..] == whole;
  }

  /** The whole loop, on the reads up to the end of the output. However it is cut, it
      succeeds exactly on well-formed output, and the updates then put together are all
      of it. What was passed on before a failure is well formed too. */
  method ReadAll(parts: seq<seq<Byte>>) returns (output: Option<seq<Byte>>, updates: seq<seq<Byte>>)
    ensures output == if IsUtf8(Flatten(parts)) then Some(Flatten(parts)) else None
    ensures output.Some? ==> Flatten(updates) == Flatten(parts)
    ensures Flatten(updates) <= Flatten(parts)
    ensures AllText(updates)
  {
    var reader := new Utf8Reader();
    for i := 0 to |parts|
      invariant reader.Valid() && reader.output == Flatten(parts[..i]) && |reader.pending| <= 3
    {
      assert parts[..i + 1] == parts[..i] + [parts[i]];
      FlattenSnoc(parts[..i], parts[i]);
      FlattenPrefix(parts, i);
      FlattenPrefix(parts, i + 1);
      var ok := reader.Feed(parts[i]);
      if !ok {
        InvalidStays(reader.output, Flatten(parts));
        return None, reader.updates;
      }
    }
    assert parts[..|parts|] == parts;
    updates := reader.updates;
    if reader.pending != [] {
      return None, updates;
    }
    assert Flatten(updates) + [] == Flatten(updates);
    output := Some(reader.output);
  }
}
