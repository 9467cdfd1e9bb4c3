/** Three workers in series, each taking jobs in order, over every interleaving of their
    steps. What an engine or a write does to a job is fixed in advance by its `Choices`,
    which may be anything. */
module StagePipeline {
  import opened Common
  import opened UtteranceStore

  const TEXT_QUEUE_CAPACITY: nat := 64

  datatype StageChoice = StageChoice(engine: bool, save: Write, mark: Write)

  datatype Choices = Choices(create: Write, recognise: StageChoice, translate: StageChoice, speak: StageChoice)

  /** The stages are recognition, translation and speech: 0, 1 and 2. */
  type Stage = k: nat | k < 3 witness 0

  function At(c: Choices, k: Stage): StageChoice {
    if k == 0 then c.recognise else if k == 1 then c.translate else c.speak
  }

  /** The status of a job in stage `k`, and of one that has left stage `k - 1` well. */
  function StatusIn(k: nat): Status
    requires k <= 3
  {
    if k == 0 then Recognizing else if k == 1 then Translating else if k == 2 then TextReady else Completed
  }

  function FailedIn(k: Stage): Status {
    if k == 0 then RecognitionFailed else if k == 1 then TranslationFailed else TtsFailed
  }

  // ----------------------------------------------------------------- one job on its own

  predicate Passes(c: Choices, k: Stage) {
    (k == 0 ==> c.create.Done?) && At(c, k).engine && At(c, k).save.Done?
  }

  /** The row of a job whose stage `k` has failed, before and after the failure is marked. */
  function RowAtFailure(c: Choices, k: Stage): Option<Status> {
    if k == 0 && c.create.Refused? then None
    else if k == 0 && c.create.Lost? then Some(Recognizing)
    else if At(c, k).engine && At(c, k).save.Lost? then Some(StatusIn(k + 1))
    else Some(StatusIn(k))
  }

  function RowAfterFailure(c: Choices, k: Stage): Option<Status> {
    if RowAtFailure(c, k).None? || At(c, k).mark.Refused? then RowAtFailure(c, k) else Some(FailedIn(k))
  }

  /** How a job ends. */
  function Verdict(c: Choices): Option<Status> {
    if !Passes(c, 0) then RowAfterFailure(c, 0)
    else if !Passes(c, 1) then RowAfterFailure(c, 1)
    else if !Passes(c, 2) then RowAfterFailure(c, 2)
    else Some(Completed)
  }

  predicate WritesSucceed(c: Choices) {
    c.create.Done? && forall k: Stage :: At(c, k).save.Done? && At(c, k).mark.Done?
  }

  /** If every write succeeds the four ends are told apart by the engines. */
  lemma VerdictOfEngines(c: Choices)
    requires WritesSucceed(c)
    ensures Verdict(c) == Some(if !c.recognise.engine then RecognitionFailed
                               else if !c.translate.engine then TranslationFailed
                               else if !c.speak.engine then TtsFailed else Completed)
  {
    assert At(c, 0).save.Done? && At(c, 1).save.Done? && At(c, 2).save.Done?;
    assert At(c, 0).mark.Done? && At(c, 1).mark.Done? && At(c, 2).mark.Done?;
  }

  /** A job is left unfinished exactly when its row exists, its failure could not be
      marked, and the failure was not the lost reply of its last write. */
  lemma VerdictUnfinishedIff(c: Choices)
    ensures Verdict(c).Some? && !IsTerminal(Verdict(c).value) <==>
            exists k: Stage ::
              && (forall j: Stage :: j < k ==> Passes(c, j)) && !Passes(c, k)
              && !(k == 0 && c.create.Refused?) && At(c, k).mark.Refused?
              && !(k == 2 && At(c, k).engine && At(c, k).save.Lost?)
  {
    if Verdict(c).Some? && !IsTerminal(Verdict(c).value) {
      var k: Stage := if !Passes(c, 0) then 0 else if !Passes(c, 1) then 1 else 2;
      assert !Passes(c, k) && At(c, k).mark.Refused?;
    }
  }

  /** The rows once the first jobs of a session have ended. */
  function Settled(rows: Rows, session: nat, choices: seq<Choices>): Rows {
    if choices == [] then rows
    else
      var n := |choices| - 1;
      var before := Settled(rows, session, choices[..n]);
      if Verdict(choices[n]).Some? then before[Key(session, n) := Verdict(choices[n]).value] else before
  }

  lemma {:induction false} SettledAt(rows: Rows, session: nat, choices: seq<Choices>, key: Key)
    ensures Lookup(Settled(rows, session, choices), key) ==
            if key.session == session && key.number < |choices| && Verdict(choices[key.number]).Some?
            then Verdict(choices[key.number]) else Lookup(rows, key)
  {
    if choices != [] {
      SettledAt(rows, session, choices[..|choices| - 1], key);
    }
  }

  // ------------------------------------------------------------------------ the workers

  /** One job through one stage, as `transcribe`, `translate` and `synthesize` do it. */
  method HandleJob(database: Database, k: Stage, key: Key, c: Choices) returns (ok: bool)
    requires if k == 0 then key !in database.rows else Lookup(database.rows, key) == Some(StatusIn(k))
    modifies database
    ensures ok == Passes(c, k)
    ensures forall other :: other != key ==> Lookup(database.rows, other) == Lookup(old(database.rows), other)
    ensures Lookup(database.rows, key) == if ok then Some(StatusIn(k + 1)) else RowAfterFailure(c, k)
  {
    ok := true;
    if k == 0 {
      ok := database.CreateAttempt(key, c.create);
    }
    if ok {
      ok := At(c, k).engine;
    }
    if ok {
      ok := database.SetStatus(key, StatusIn(k + 1), At(c, k).save);
    }
    if !ok {
      var _ := database.SetStatus(key, FailedIn(k), At(c, k).mark);
    }
  }

  /** The jobs handled one after the other, each through all its stages. */
  method RunInTurn(database: Database, session: nat, choices: seq<Choices>)
    requires forall n :: Key(session, n) !in database.rows
    modifies database
    ensures database.rows == Settled(old(database.rows), session, choices)
  {
    for n := 0 to |choices|
      invariant database.rows == Settled(old(database.rows), session, choices[..n])
    {
      ghost var before := database.rows;
      SettledAt(old(database.rows), session, choices[..n], Key(session, n));
      var key, c := Key(session, n), choices[n];
      var ok := HandleJob(database, 0, key, c);
      if ok {
        ok := HandleJob(database, 1, key, c);
      }
      if ok {
        ok := HandleJob(database, 2, key, c);
      }
      assert choices[..n + 1][..n] == choices[..n];
      SameRows(database.rows, Settled(old(database.rows), session, choices[..n + 1]), key);
    }
    assert choices[..|choices|] == choices;
  }

  lemma SameRows(a: Rows, b: Rows, key: Key)
    requires Lookup(a, key) == Lookup(b, key) && forall other :: other != key ==> Lookup(a, other) == Lookup(b, other)
    ensures a == b
  {
    forall other ensures Lookup(a, other) == Lookup(b, other) {
    }
    assert forall other :: (other in a) == Lookup(a, other).Some?;
    assert forall other :: (other in b) == Lookup(b, other).Some?;
    assert a.Keys == b.Keys;
  }
}
