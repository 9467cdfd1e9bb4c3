/** Every interleaving of the workers' steps. */
module StageRuns {
  import opened Common
  import opened UtteranceStore
  import opened StagePipeline
  import opened StageWorkers

  // --------------------------------------------------------------------------- all runs

  /** Events that cannot happen where they stand are passed over. */
  function Run(s: State, events: seq<Event>): State {
    if events == [] then s
    else
      var before, e := Run(s, events[..|events| - 1]), events[|events| - 1];
      if Shaped(before) && Possible(before, e) then Next(before, e) else before
  }

  /** A state of some run that began with these rows, none of them the session's. */
  ghost predicate Reached(s: State, rows: Rows) {
    && (forall n :: Key(s.session, n) !in rows)
    && exists events :: s == Run(Start(s.session, s.choices, rows), events)
  }

  lemma StartKeeps(session: nat, choices: seq<Choices>, rows: Rows)
    requires forall n :: Key(session, n) !in rows
    ensures Inv(Start(session, choices, rows), rows)
  {
    assert Flow(Start(session, choices, rows)) == [];
  }

  lemma SameSession(s: State, e: Event)
    requires Shaped(s) && Possible(s, e)
    ensures Next(s, e).session == s.session && Next(s, e).choices == s.choices
  {
  }

  lemma {:induction false} RunKeeps(session: nat, choices: seq<Choices>, rows: Rows, events: seq<Event>)
    requires forall n :: Key(session, n) !in rows
    ensures var s := Run(Start(session, choices, rows), events);
            Inv(s, rows) && s.session == session && s.choices == choices
  {
    if events == [] {
      StartKeeps(session, choices, rows);
    } else {
      RunKeeps(session, choices, rows, events[..|events| - 1]);
      var before, e := Run(Start(session, choices, rows), events[..|events| - 1]), events[|events| - 1];
      if Possible(before, e) {
        StepKeeps(before, rows, e);
        SameSession(before, e);
      }
    }
  }

  lemma ReachedKeeps(s: State, rows: Rows)
    requires Reached(s, rows)
    ensures Inv(s, rows)
  {
    var events :| s == Run(Start(s.session, s.choices, rows), events);
    RunKeeps(s.session, s.choices, rows, events);
  }

  /** At most 64 jobs wait for a stage. A worker with a job done is held up exactly while 64
      wait for the next stage, whose worker then still runs. */
  lemma QueuesBounded(s: State, rows: Rows)
    requires Reached(s, rows)
    ensures Shaped(s) && forall k: Stage :: |s.queues[k]| <= 64
    ensures forall k: Stage :: k < 2 && s.workers[k].Busy? && s.workers[k].phase.Handing? ==>
              !s.workers[k + 1].Stopped? && (Possible(s, Act(k)) <==> |s.queues[k + 1]| < 64)
    ensures !s.closed && s.next < |s.choices| ==> (Possible(s, Enqueue) <==> |s.queues[0]| < 64)
  {
    ReachedKeeps(s, rows);
    forall k: Stage | k < 2 && s.workers[k].Busy?
      ensures !s.workers[k + 1].Stopped?
    {
      SuccessorRuns(s, k);
    }
  }

  /** First in, first out: jobs leave the last worker, and reach any other, in the order
      they were sent. */
  lemma FirstInFirstOut(s: State, rows: Rows)
    requires Reached(s, rows)
    ensures Shaped(s) && Increasing(s.past)
    ensures forall k: Stage, n, m :: n in s.past + In(s.workers[k]) && m in s.queues[k] ==> n < m < s.next
    ensures forall k: Stage :: Increasing(s.queues[k])
  {
    ReachedKeeps(s, rows);
    forall i, j | 0 <= i < j < |s.past|
      ensures s.past[i] < s.past[j]
    {
      assert Flow(s)[i] == s.past[i] && Flow(s)[j] == s.past[j];
    }
    forall k: Stage
      ensures Increasing(s.queues[k])
      ensures forall n, m :: n in s.past + In(s.workers[k]) && m in s.queues[k] ==> n < m < s.next
    {
      StageInOrder(s, k);
    }
  }

  lemma StageInOrder(s: State, k: Stage)
    requires Ordered(s)
    ensures Increasing(s.queues[k])
    ensures forall n, m :: n in s.past + In(s.workers[k]) && m in s.queues[k] ==> n < m < s.next
  {
    FlowSplits(s, k);
    var middle := Ahead(s, k)[|s.past|..];
    assert Ahead(s, k) == s.past + middle;
    var rest := Behind(s, k)[|s.queues[k]|..];
    assert Behind(s, k) == s.queues[k] + rest;
    InOrder(Flow(s), s.past, middle, In(s.workers[k]), s.queues[k], rest, s.next);
  }

  lemma InOrder(flow: seq<nat>, a: seq<nat>, b: seq<nat>, c: seq<nat>, d: seq<nat>, e: seq<nat>, bound: nat)
    requires flow == a + b + c + (d + e) && Increasing(flow) && Below(flow, bound)
    ensures Increasing(d) && forall n, m :: n in a + c && m in d ==> n < m < bound
  {
    var before := |a + b + c|;
    assert forall j :: 0 <= j < |d| ==> flow[before + j] == d[j];
    forall n, m | n in a + c && m in d
      ensures n < m < bound
    {
      var j :| 0 <= j < |d| && d[j] == m;
      if n in a {
        var i :| 0 <= i < |a| && a[i] == n;
        assert flow[i] == n && flow[before + j] == m;
      } else {
        var i :| 0 <= i < |c| && c[i] == n;
        assert flow[|a + b| + i] == n && flow[before + j] == m;
      }
    }
  }

  predicate Drained(s: State) {
    Shaped(s) && forall k: Stage :: s.workers[k].Stopped?
  }

  lemma SameLookups(a: Rows, b: Rows)
    requires forall key :: Lookup(a, key) == Lookup(b, key)
    ensures a == b
  {
    assert forall key :: (key in a) == Lookup(a, key).Some?;
    assert forall key :: (key in b) == Lookup(b, key).Some?;
  }

  lemma DrainedRow(s: State, rows: Rows, key: Key)
    requires Inv(s, rows) && Drained(s)
    ensures Lookup(s.rows, key) ==
            if key.session == s.session && key.number < s.next then Verdict(s.choices[key.number])
            else Lookup(rows, key)
  {
    if key.session == s.session && key.number < s.next {
      assert key == Key(s.session, key.number);
      assert !InFlight(s, key.number);
    }
  }

  /** Whatever the interleaving, once the workers have stopped the rows are those of
      handling the jobs one after the other. */
  lemma DrainedRows(s: State, rows: Rows)
    requires Reached(s, rows) && Drained(s)
    ensures s.rows == Settled(rows, s.session, s.choices[..s.next])
  {
    ReachedKeeps(s, rows);
    forall key
      ensures Lookup(s.rows, key) == Lookup(Settled(rows, s.session, s.choices[..s.next]), key)
    {
      SettledAt(rows, s.session, s.choices[..s.next], key);
      DrainedRow(s, rows, key);
    }
    SameLookups(s.rows, Settled(rows, s.session, s.choices[..s.next]));
  }

  /** If every write succeeds, each job sent has ended, in the one way its engines decide. */
  lemma EveryJobEnds(s: State, rows: Rows)
    requires Reached(s, rows) && Drained(s) && forall n :: 0 <= n < |s.choices| ==> WritesSucceed(s.choices[n])
    ensures forall n: nat :: n < s.next ==>
              var c := s.choices[n];
              Lookup(s.rows, Key(s.session, n)) ==
              Some(if !c.recognise.engine then RecognitionFailed
                   else if !c.translate.engine then TranslationFailed
                   else if !c.speak.engine then TtsFailed else Completed)
  {
    ReachedKeeps(s, rows);
    forall n: nat | n < s.next
      ensures Lookup(s.rows, Key(s.session, n)) == Verdict(s.choices[n]) && WritesSucceed(s.choices[n])
    {
      DrainedRow(s, rows, Key(s.session, n));
    }
    forall n: nat | n < s.next {
      VerdictOfEngines(s.choices[n]);
    }
  }

  /** So the pass over an ended session's rows changes one exactly when its failure could
      not be marked, and nothing at all if every write succeeded. */
  lemma DrainLeavesNothing(s: State, rows: Rows)
    requires Reached(s, rows) && Drained(s)
    ensures Interrupted(s.rows, Some(s.session)) == s.rows <==>
            forall n: nat :: n < s.next && Verdict(s.choices[n]).Some? ==> IsTerminal(Verdict(s.choices[n]).value)
    ensures (forall n :: 0 <= n < |s.choices| ==> WritesSucceed(s.choices[n])) ==>
            Interrupted(s.rows, Some(s.session)) == s.rows
  {
    ReachedKeeps(s, rows);
    InterruptSettles(s.rows, Some(s.session));
    forall key
      ensures key in Unfinished(s.rows, Some(s.session)) <==>
              && key.session == s.session && key.number < s.next && Verdict(s.choices[key.number]).Some?
              && !IsTerminal(Verdict(s.choices[key.number]).value)
    {
      DrainedRow(s, rows, key);
    }
    if Unfinished(s.rows, Some(s.session)) == {} {
      forall n: nat | n < s.next && Verdict(s.choices[n]).Some?
        ensures IsTerminal(Verdict(s.choices[n]).value)
      {
        assert Key(s.session, n) !in Unfinished(s.rows, Some(s.session));
      }
    }
    if forall n :: 0 <= n < |s.choices| ==> WritesSucceed(s.choices[n]) {
      forall n: nat | n < s.next
        ensures Verdict(s.choices[n]).Some? && IsTerminal(Verdict(s.choices[n]).value)
      {
        VerdictOfEngines(s.choices[n]);
      }
    }
  }

  lemma QueuedReady(s: State, k: Stage, n: nat)
    requires Ordered(s) && AllFit(s) && n in s.queues[k]
    ensures RowOf(s, n) == ReadyRow(k)
  {
    StageInOrder(s, k);
    FlowSplits(s, k);
    var i :| 0 <= i < |s.queues[k]| && s.queues[k][i] == n;
    assert Flow(s)[|Ahead(s, k) + In(s.workers[k])| + i] == n;
    assert QueueFits(s, k);
  }

  lemma RecoveredRow(rows: Rows, key: Key)
    ensures Lookup(Interrupted(rows, None), key) ==
            if key in rows then Some(InterruptedAs(rows[key])) else None
  {
  }

  /** A crash anywhere, then the restart's pass over all rows: every row is final, those
      that were final are as they were, and a job caught waiting or working in a stage is
      marked as interrupted there. A job not yet taken up leaves no row. */
  lemma CrashRecovers(s: State, rows: Rows)
    requires Reached(s, rows)
    ensures var after := Interrupted(s.rows, None);
            && Unfinished(after, None) == {} && after.Keys == s.rows.Keys
            && forall key :: key in s.rows && IsTerminal(s.rows[key]) ==> after[key] == s.rows[key]
    ensures Shaped(s)
    ensures forall k: Stage, n :: n in s.queues[k] ==>
              Lookup(Interrupted(s.rows, None), Key(s.session, n)) ==
              if k == 0 then None else Some(InterruptedAs(StatusIn(k)))
    ensures forall k: Stage :: s.workers[k].Busy? && (s.workers[k].phase.Working? || s.workers[k].phase.Saving?) ==>
              Lookup(Interrupted(s.rows, None), Key(s.session, s.workers[k].job)) == Some(InterruptedAs(StatusIn(k)))
  {
    ReachedKeeps(s, rows);
    InterruptSettles(s.rows, None);
    forall k: Stage, n | n in s.queues[k]
      ensures Lookup(Interrupted(s.rows, None), Key(s.session, n)) ==
              if k == 0 then None else Some(InterruptedAs(StatusIn(k)))
    {
      QueuedReady(s, k, n);
      RecoveredRow(s.rows, Key(s.session, n));
    }
    forall k: Stage | s.workers[k].Busy? && (s.workers[k].phase.Working? || s.workers[k].phase.Saving?)
      ensures Lookup(Interrupted(s.rows, None), Key(s.session, s.workers[k].job)) == Some(InterruptedAs(StatusIn(k)))
    {
      WorkedRow(s, k);
      RecoveredRow(s.rows, Key(s.session, s.workers[k].job));
    }
  }

  lemma WorkedRow(s: State, k: Stage)
    requires Shaped(s) && AllFit(s)
    requires s.workers[k].Busy? && (s.workers[k].phase.Working? || s.workers[k].phase.Saving?)
    ensures RowOf(s, s.workers[k].job) == Some(StatusIn(k))
  {
    assert BusyFits(s, k);
  }

  // ------------------------------------------------------------------- the drain finishes

  predicate IsWork(e: Event) {
    e.Take? || e.Stop? || e.Act?
  }

  lemma StopChain(s: State)
    requires Shaped(s) && StopsInOrder(s)
    ensures s.workers[2].Stopped? ==> s.workers[1].Stopped?
    ensures s.workers[1].Stopped? ==> s.workers[0].Stopped?
    ensures s.workers[0].Stopped? && s.workers[1].Stopped? && s.workers[2].Stopped? ==> Drained(s)
  {
    var middle: Stage, last: Stage := 1, 2;
    assert s.workers[last].Stopped? ==> InputClosed(s, last);
    assert s.workers[middle].Stopped? ==> InputClosed(s, middle);
  }

  /** Once closed, some worker can move until all have stopped. */
  lemma NeverStuck(s: State, rows: Rows)
    requires Inv(s, rows) && s.closed && !Drained(s)
    ensures exists e :: IsWork(e) && Possible(s, e)
  {
    assert BusyFits(s, 2);
    StopChain(s);
    if s.workers[2].Busy? {
      assert Possible(s, Act(2));
    } else if s.workers[2].Idle? && s.queues[2] != [] {
      assert Possible(s, Take(2));
    } else if s.workers[2].Idle? && s.workers[1].Stopped? {
      assert Possible(s, Stop(2));
    } else if s.workers[1].Busy? {
      SuccessorRuns(s, 1);
      assert Possible(s, Act(1));
    } else if s.workers[1].Idle? && s.queues[1] != [] {
      assert Possible(s, Take(1));
    } else if s.workers[1].Idle? && s.workers[0].Stopped? {
      assert Possible(s, Stop(1));
    } else if s.workers[0].Busy? {
      SuccessorRuns(s, 0);
      assert Possible(s, Act(0));
    } else if s.workers[0].Idle? && s.queues[0] != [] {
      assert Possible(s, Take(0));
    } else {
      assert Possible(s, Stop(0));
    }
  }

  function Worth(w: Worker, k: Stage): nat {
    match w
    case Stopped => 0
    case Idle => 1
    case Busy(_, phase) =>
      1 + 6 * (2 - k) + (match phase case Creating => 5 case Working => 4 case Saving => 3 case _ => 1)
  }

  /** An upper bound on the steps the workers have left. */
  function Remaining(s: State): nat
    requires Shaped(s)
  {
    18 * |s.queues[0]| + 12 * |s.queues[1]| + 6 * |s.queues[2]|
    + Worth(s.workers[0], 0) + Worth(s.workers[1], 1) + Worth(s.workers[2], 2)
  }

  lemma WorkerShrinks(s: State, k: Stage, worker: Worker)
    requires Shaped(s) && (worker.Busy? ==> worker.job < |s.choices|)
    ensures Remaining(Now(s, k, worker)) == Remaining(s) - Worth(s.workers[k], k) + Worth(worker, k)
  {
  }

  lemma TakeShrinks(s: State, k: Stage)
    requires Shaped(s) && Possible(s, Take(k)) && s.queues[k][0] < |s.choices|
    ensures Remaining(Next(s, Take(k))) < Remaining(s)
  {
  }

  lemma ActShrinks(s: State, k: Stage)
    requires Shaped(s) && Possible(s, Act(k)) && (s.workers[k].phase.Handing? ==> k < 2)
    ensures Shaped(ActNext(s, k)) && Remaining(ActNext(s, k)) < Remaining(s)
  {
    match s.workers[k].phase
    case Creating => StartShrinks(s, k);
    case Working => StartShrinks(s, k);
    case Saving => SavingShrinks(s, k);
    case Marking => MarkingShrinks(s, k);
    case Handing => HandingShrinks(s, k);
  }

  lemma StartShrinks(s: State, k: Stage)
    requires Shaped(s) && s.workers[k].Busy? && (s.workers[k].phase.Creating? || s.workers[k].phase.Working?)
    ensures Shaped(ActNext(s, k)) && Remaining(ActNext(s, k)) < Remaining(s)
  {
    var n := s.workers[k].job;
    WorkerShrinks(s, k, Goes(n, s.choices[n].create.Done?, Working));
    WorkerShrinks(s, k, Goes(n, At(s.choices[n], k).engine, Saving));
  }

  lemma MarkingShrinks(s: State, k: Stage)
    requires Shaped(s) && s.workers[k].Busy? && s.workers[k].phase.Marking?
    ensures Shaped(ActNext(s, k)) && Remaining(ActNext(s, k)) < Remaining(s)
  {
    WorkerShrinks(s, k, Idle);
  }

  lemma SavingShrinks(s: State, k: Stage)
    requires Shaped(s) && s.workers[k].Busy? && s.workers[k].phase.Saving?
    ensures Shaped(ActNext(s, k)) && Remaining(ActNext(s, k)) < Remaining(s)
  {
    var n := s.workers[k].job;
    WorkerShrinks(s, k, Goes(n, At(s.choices[n], k).save.Done?, Handing));
    WorkerShrinks(s, k, Idle);
  }

  lemma HandingShrinks(s: State, k: Stage)
    requires Shaped(s) && Possible(s, Act(k)) && s.workers[k].phase.Handing? && k < 2
    ensures Shaped(ActNext(s, k)) && Remaining(ActNext(s, k)) < Remaining(s)
  {
    WorkerShrinks(s, k, Idle);
    WorkerShrinks(s, k, Stopped);
  }

  lemma WorkShrinks(s: State, rows: Rows, e: Event)
    requires Inv(s, rows) && IsWork(e) && Possible(s, e)
    ensures Shaped(Next(s, e)) && Remaining(Next(s, e)) < Remaining(s)
  {
    StepKeeps(s, rows, e);
    match e
    case Take(k) =>
      TakeOrdered(s, k);
      TakeShrinks(s, k);
    case Stop(k) => WorkerShrinks(s, k, Stopped);
    case Act(k) =>
      assert BusyFits(s, k);
      ActShrinks(s, k);
  }

  predicate WorkStep(s: State, e: Event) {
    Shaped(s) && IsWork(e) && Possible(s, e)
  }

  lemma WorkKeeps(s: State, rows: Rows, e: Event)
    requires Inv(s, rows) && s.closed && WorkStep(s, e)
    ensures Inv(Next(s, e), rows) && Next(s, e).closed && Remaining(Next(s, e)) < Remaining(s)
  {
    StepKeeps(s, rows, e);
    WorkShrinks(s, rows, e);
  }

  lemma {:induction false} WorkRuns(s: State, rows: Rows, events: seq<Event>)
    requires Inv(s, rows) && s.closed
    requires forall i :: 0 <= i < |events| ==> WorkStep(Run(s, events[..i]), events[i])
    ensures var t := Run(s, events);
            && Inv(t, rows) && t.closed && |events| + Remaining(t) <= Remaining(s)
            && (Drained(t) || exists e :: WorkStep(t, e))
  {
    var t := Run(s, events);
    if events != [] {
      var front, e := events[..|events| - 1], events[|events| - 1];
      forall i | 0 <= i < |front|
        ensures WorkStep(Run(s, front[..i]), front[i])
      {
        assert front[..i] == events[..i];
      }
      WorkRuns(s, rows, front);
      assert WorkStep(Run(s, events[..|events| - 1]), e);
      WorkKeeps(Run(s, front), rows, e);
    }
    if !Drained(t) {
      NeverStuck(t, rows);
      var e :| IsWork(e) && Possible(t, e);
      assert WorkStep(t, e);
    }
  }

  /** So a closed pipeline drains, whatever the interleaving: the steps of its workers are
      no more than `Remaining`, and as long as it has not drained there is another. */
  lemma DrainsWithin(s: State, rows: Rows, events: seq<Event>)
    requires Reached(s, rows) && s.closed
    requires forall i :: 0 <= i < |events| ==> WorkStep(Run(s, events[..i]), events[i])
    ensures Shaped(s) && |events| <= Remaining(s)
    ensures Drained(Run(s, events)) || exists e :: WorkStep(Run(s, events), e)
  {
    ReachedKeeps(s, rows);
    WorkRuns(s, rows, events);
  }

  // ------------------------------------------------------------- a row left unfinished

  lemma Extend(start: State, events: seq<Event>, s: State, e: Event, t: State) returns (longer: seq<Event>)
    requires Run(start, events) == s && Shaped(s) && Possible(s, e) && Next(s, e) == t
    ensures Run(start, longer) == t
  {
    longer := events + [e];
    assert longer[..|longer| - 1] == events;
  }

  /** Recognition fails, and so does the write that should say so. */
  const Unmarked := Choices(
    Done, StageChoice(false, Done, Refused), StageChoice(true, Done, Done), StageChoice(true, Done, Done))

  lemma UnmarkedSent()
    ensures var s := Start(0, [Unmarked], map[]);
            Shaped(s) && Possible(s, Enqueue) && Next(s, Enqueue) == s.(next := 1, queues := [[0], [], []])
  {
    var queues: seq<seq<nat>> := [[], [], []];
    assert queues[0] + [0] == [0];
    assert queues[0 := [0]] == [[0], [], []];
  }

  lemma UnmarkedTaken() returns (events: seq<Event>)
    ensures Run(Start(0, [Unmarked], map[]), events) ==
            State(0, [Unmarked], map[], 1, true, [[], [], []], [Busy(0, Creating), Idle, Idle], [])
  {
    var start := Start(0, [Unmarked], map[]);
    UnmarkedSent();
    var s := start.(next := 1, queues := [[0], [], []]);
    events := Extend(start, [], start, Enqueue, s);
    UnmarkedTakes(s.(closed := true));
    events := Extend(start, events, s, Close, s.(closed := true));
    events := Extend(start, events, s.(closed := true), Take(0),
                     s.(closed := true, queues := [[], [], []], workers := [Busy(0, Creating), Idle, Idle]));
  }

  lemma UnmarkedTakes(s: State)
    requires s == State(0, [Unmarked], map[], 1, true, [[0], [], []], [Idle, Idle, Idle], [])
    ensures Shaped(s) && Possible(s, Take(0))
    ensures Next(s, Take(0)) == s.(queues := [[], [], []], workers := [Busy(0, Creating), Idle, Idle])
  {
    assert s.queues[0][1..] == [];
    assert s.queues[0 := []] == [[], [], []];
    assert s.workers[0 := Busy(0, Creating)] == [Busy(0, Creating), Idle, Idle];
  }

  /** The one job sent has been given up, and the queue is closed. */
  lemma UnmarkedWorked() returns (events: seq<Event>)
    ensures Run(Start(0, [Unmarked], map[]), events) ==
            State(0, [Unmarked], map[Key(0, 0) := Recognizing], 1, true, [[], [], []], [Idle, Idle, Idle], [])
  {
    var start := Start(0, [Unmarked], map[]);
    events := UnmarkedTaken();
    var s := Run(start, events);
    var t := s.(rows := map[Key(0, 0) := Recognizing], workers := [Busy(0, Working), Idle, Idle]);
    events := Extend(start, events, s, Act(0), t);
    s, t := t, t.(workers := [Busy(0, Marking), Idle, Idle]);
    events := Extend(start, events, s, Act(0), t);
    s, t := t, t.(workers := [Idle, Idle, Idle]);
    events := Extend(start, events, s, Act(0), t);
  }

  /** A state that the drain ends in with a row unfinished, which the pass then settles. */
  lemma DrainedUnfinished() returns (s: State)
    ensures Reached(s, map[]) && Drained(s)
    ensures Unfinished(s.rows, Some(s.session)) == {Key(0, 0)}
    ensures Lookup(Interrupted(s.rows, Some(s.session)), Key(0, 0)) == Some(RecognitionInterrupted)
  {
    var start := Start(0, [Unmarked], map[]);
    var events := UnmarkedWorked();
    s := Run(start, events);
    var t := s.(workers := [Stopped, Idle, Idle]);
    events := Extend(start, events, s, Stop(0), t);
    s, t := t, t.(workers := [Stopped, Stopped, Idle]);
    events := Extend(start, events, s, Stop(1), t);
    s, t := t, t.(workers := [Stopped, Stopped, Stopped]);
    events := Extend(start, events, s, Stop(2), t);
    s := t;
    assert s == Run(Start(s.session, s.choices, map[]), events);
  }
}
