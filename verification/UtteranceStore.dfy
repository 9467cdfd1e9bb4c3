/** The status column: every write to it, and the rows that interruption and recovery touch.
    A write is done, refused, or applied although its reply was lost. */
module UtteranceStore {
  import opened Common

  datatype Status =
    | Recognizing | Translating | TextReady | Completed
    | RecognitionFailed | TranslationFailed | TtsFailed
    | RecognitionInterrupted | TranslationInterrupted | TtsInterrupted

  /** An utterance: its session, and its number there. */
  datatype Key = Key(session: nat, number: nat)

  datatype Write = Done | Lost | Refused

  type Rows = map<Key, Status>

  function Lookup(rows: Rows, key: Key): Option<Status> {
    if key in rows then Some(rows[key]) else None
  }

  predicate IsTerminal(status: Status) {
    !status.Recognizing? && !status.Translating? && !status.TextReady?
  }

  function Insert(rows: Rows, key: Key, w: Write): Rows {
    if w.Refused? then rows else rows[key := Recognizing]
  }

  /** An update of a row that is not there changes nothing. */
  function Update(rows: Rows, key: Key, status: Status, w: Write): Rows {
    if w.Refused? || key !in rows then rows else rows[key := status]
  }

  function InterruptedAs(status: Status): Status {
    match status
    case Recognizing => RecognitionInterrupted
    case Translating => TranslationInterrupted
    case TextReady => TtsInterrupted
    case _ => status
  }

  predicate InScope(scope: Option<nat>, key: Key) {
    scope.None? || key.session == scope.value
  }

  function Unfinished(rows: Rows, scope: Option<nat>): set<Key> {
    set key | key in rows && InScope(scope, key) && !IsTerminal(rows[key])
  }

  function Interrupted(rows: Rows, scope: Option<nat>): Rows {
    map key | key in rows :: if InScope(scope, key) then InterruptedAs(rows[key]) else rows[key]
  }

  function Having(rows: Rows, scope: Option<nat>, status: Status): set<Key> {
    set key | key in rows && InScope(scope, key) && rows[key] == status
  }

  /** Afterwards nothing in scope is unfinished, what was finished and what is out of scope
      is as it was, and a second pass finds nothing. */
  lemma InterruptSettles(rows: Rows, scope: Option<nat>)
    ensures var after := Interrupted(rows, scope);
            && after.Keys == rows.Keys && Unfinished(after, scope) == {} && Interrupted(after, scope) == after
            && forall key :: key in rows ==>
                 (after[key] != rows[key] <==> InScope(scope, key) && !IsTerminal(rows[key]))
    ensures Unfinished(rows, scope) == {} <==> Interrupted(rows, scope) == rows
    ensures forall key :: key in rows && InScope(scope, key) ==>
              var after := Interrupted(rows, scope)[key];
              && (rows[key].Recognizing? ==> after.RecognitionInterrupted?)
              && (rows[key].Translating? ==> after.TranslationInterrupted?)
              && (rows[key].TextReady? ==> after.TtsInterrupted?)
  {
    var after := Interrupted(rows, scope);
    forall key | key in rows
      ensures after[key] != rows[key] <==> key in Unfinished(rows, scope)
    {
    }
  }

  function Replaced(rows: Rows, scope: Option<nat>, from: Status, to: Status): Rows {
    map key | key in rows :: if InScope(scope, key) && rows[key] == from then to else rows[key]
  }

  lemma HavingOther(rows: Rows, scope: Option<nat>, from: Status, to: Status, other: Status)
    requires other != from && other != to
    ensures Having(Replaced(rows, scope, from, to), scope, other) == Having(rows, scope, other)
  {
    var after := Replaced(rows, scope, from, to);
    forall key
      ensures key in Having(after, scope, other) <==> key in Having(rows, scope, other)
    {
    }
  }

  lemma ReplacedThrice(rows: Rows, scope: Option<nat>)
    ensures Replaced(Replaced(Replaced(rows, scope, Recognizing, RecognitionInterrupted),
                              scope, Translating, TranslationInterrupted),
                     scope, TextReady, TtsInterrupted) == Interrupted(rows, scope)
  {
  }

  lemma UnfinishedCount(rows: Rows, scope: Option<nat>)
    ensures |Unfinished(rows, scope)| ==
            |Having(rows, scope, Recognizing)| + |Having(rows, scope, Translating)| + |Having(rows, scope, TextReady)|
  {
    var r, t := Having(rows, scope, Recognizing), Having(rows, scope, Translating);
    var x := Having(rows, scope, TextReady);
    assert Unfinished(rows, scope) == r + t + x;
    assert r !! t && (r + t) !! x;
  }

  class Database {
    var rows: Rows

    constructor (rows: Rows)
      ensures this.rows == rows
    {
      this.rows := rows;
    }

    method CreateAttempt(key: Key, w: Write) returns (ok: bool)
      modifies this
      ensures rows == Insert(old(rows), key, w) && ok == w.Done?
    {
      if !w.Refused? {
        rows := rows[key := Recognizing];
      }
      return w.Done?;
    }

    method SetStatus(key: Key, status: Status, w: Write) returns (ok: bool)
      modifies this
      ensures rows == Update(old(rows), key, status, w) && ok == w.Done?
    {
      if !w.Refused? && key in rows {
        rows := rows[key := status];
      }
      return w.Done?;
    }

    /** Every row in scope with one status gets another. */
    method Replace(scope: Option<nat>, from: Status, to: Status) returns (updated: nat)
      modifies this
      ensures rows == Replaced(old(rows), scope, from, to)
      ensures updated == |Having(old(rows), scope, from)|
    {
      updated := |Having(rows, scope, from)|;
      rows := Replaced(rows, scope, from, to);
    }

    /** Three passes, as on a session's end (one session) and on a restart (all). */
    method Interrupt(scope: Option<nat>) returns (updated: nat)
      modifies this
      ensures rows == Interrupted(old(rows), scope) && updated == |Unfinished(old(rows), scope)|
    {
      ghost var before := rows;
      updated := Replace(scope, Recognizing, RecognitionInterrupted);
      HavingOther(before, scope, Recognizing, RecognitionInterrupted, Translating);
      HavingOther(before, scope, Recognizing, RecognitionInterrupted, TextReady);
      HavingOther(rows, scope, Translating, TranslationInterrupted, TextReady);
      var more := Replace(scope, Translating, TranslationInterrupted);
      updated := updated + more;
      more := Replace(scope, TextReady, TtsInterrupted);
      updated := updated + more;
      UnfinishedCount(before, scope);
      ReplacedThrice(before, scope);
    }
  }
}
