/** The three workers, the session that feeds them and the close, as one system in which any
    of them may move next: a worker takes a job, does one thing to it or to its row, hands it
    on, or stops. Every step keeps the jobs in the order in which they were sent, each of
    them in one place, and for each of them the row that its place calls for: that of a job
    that waits for the stage, of one at a worker according to what the worker does next, and
    of one that has left, which is its verdict. */
module StageWorkers {
  import opened Common
  import opened UtteranceStore
  import opened StagePipeline

  /** Where a worker stands in the job it holds. */
  datatype Phase = Creating | Working | Saving | Marking | Handing

  datatype Worker = Idle | Busy(job: nat, phase: Phase) | Stopped

  /** Jobs are numbered as the session sends them; `past` are those that left the last
      worker, in that order, whether saved or not. */
  datatype State = State(
    session: nat, choices: seq<Choices>, rows: Rows,
    next: nat, closed: bool, queues: seq<seq<nat>>, workers: seq<Worker>, past: seq<nat>)

  datatype Event = Enqueue | Close | Take(stage: Stage) | Stop(stage: Stage) | Act(stage: Stage)

  function Start(session: nat, choices: seq<Choices>, rows: Rows): State {
    State(session, choices, rows, 0, false, [[], [], []], [Idle, Idle, Idle], [])
  }

  predicate Shaped(s: State) {
    && |s.queues| == 3 && |s.workers| == 3 && s.next <= |s.choices|
    && forall k: Stage :: s.workers[k].Busy? ==> s.workers[k].job < |s.choices|
  }

  /** What feeds stage `k` is gone. */
  predicate InputClosed(s: State, k: Stage)
    requires Shaped(s)
  {
    if k == 0 then s.closed else s.workers[k - 1].Stopped?
  }

  predicate Possible(s: State, e: Event)
    requires Shaped(s)
  {
    match e
    case Enqueue => !s.closed && s.next < |s.choices| && |s.queues[0]| < TEXT_QUEUE_CAPACITY
    case Close => !s.closed
    case Take(k) => s.workers[k].Idle? && s.queues[k] != []
    case Stop(k) => s.workers[k].Idle? && s.queues[k] == [] && InputClosed(s, k)
    case Act(k) =>
      && s.workers[k].Busy?
      && (s.workers[k].phase.Handing? && k < 2 ==>
            s.workers[k + 1].Stopped? || |s.queues[k + 1]| < TEXT_QUEUE_CAPACITY)
  }

  function Now(s: State, k: Stage, worker: Worker): State
    requires Shaped(s)
  {
    s.(workers := s.workers[k := worker])
  }

  function Goes(job: nat, well: bool, phase: Phase): Worker {
    Busy(job, if well then phase else Marking)
  }

  /** A worker's next action on its job. A handing worker whose successor is gone stops. */
  function ActNext(s: State, k: Stage): State
    requires Shaped(s) && Possible(s, Act(k))
  {
    var n := s.workers[k].job;
    var key, c := Key(s.session, n), s.choices[n];
    match s.workers[k].phase
    case Creating => Now(s, k, Goes(n, c.create.Done?, Working)).(rows := Insert(s.rows, key, c.create))
    case Working => Now(s, k, Goes(n, At(c, k).engine, Saving))
    case Saving =>
      var saved := s.(rows := Update(s.rows, key, StatusIn(k + 1), At(c, k).save));
      if k == 2 && At(c, k).save.Done? then Now(saved, k, Idle).(past := s.past + [n])
      else Now(saved, k, Goes(n, At(c, k).save.Done?, Handing))
    case Marking =>
      Now(s, k, Idle).(rows := Update(s.rows, key, FailedIn(k), At(c, k).mark),
                       past := if k == 2 then s.past + [n] else s.past)
    case Handing =>
      if k == 2 then Now(s, k, Idle)
      else if s.workers[k + 1].Stopped? then Now(s, k, Stopped)
      else Now(s, k, Idle).(queues := s.queues[k + 1 := s.queues[k + 1] + [n]])
  }

  function Next(s: State, e: Event): State
    requires Shaped(s) && Possible(s, e)
  {
    match e
    case Enqueue => s.(next := s.next + 1, queues := s.queues[0 := s.queues[0] + [s.next]])
    case Close => s.(closed := true)
    case Take(k) =>
      if s.queues[k][0] < |s.choices| then
        Now(s, k, Busy(s.queues[k][0], if k == 0 then Creating else Working)).(
          queues := s.queues[k := s.queues[k][1..]])
      else s
    case Stop(k) => Now(s, k, Stopped)
    case Act(k) => ActNext(s, k)
  }

  // -------------------------------------------------------------------------- the order

  function In(w: Worker): seq<nat> {
    if w.Busy? then [w.job] else []
  }

  /** The jobs in the pipeline, the foremost first, after those past it. */
  function Flow(s: State): seq<nat>
    requires Shaped(s)
  {
    s.past + (In(s.workers[2]) + s.queues[2] + (In(s.workers[1]) + s.queues[1] + (In(s.workers[0]) + s.queues[0])))
  }

  predicate Increasing(xs: seq<nat>) {
    forall i, j :: 0 <= i < j < |xs| ==> xs[i] < xs[j]
  }

  predicate Below(xs: seq<nat>, bound: nat) {
    forall i :: 0 <= i < |xs| ==> xs[i] < bound
  }

  ghost predicate Ordered(s: State) {
    Shaped(s) && Increasing(Flow(s)) && Below(Flow(s), s.next)
  }

  // --------------------------------------------------------------- what the rows must be

  /** A job waiting for stage `k` has passed the earlier ones. */
  predicate Ready(c: Choices, k: Stage) {
    (k > 0 ==> Passes(c, 0)) && (k > 1 ==> Passes(c, 1))
  }

  function ReadyRow(k: Stage): Option<Status> {
    if k == 0 then None else Some(StatusIn(k))
  }

  predicate WorkerFits(c: Choices, k: Stage, phase: Phase, row: Option<Status>) {
    && Ready(c, k)
    && (match phase
        case Creating => k == 0 && row == None
        case Working => (k == 0 ==> c.create.Done?) && row == Some(StatusIn(k))
        case Saving => (k == 0 ==> c.create.Done?) && At(c, k).engine && row == Some(StatusIn(k))
        case Marking => !Passes(c, k) && row == RowAtFailure(c, k)
        case Handing => k < 2 && Passes(c, k) && row == Some(StatusIn(k + 1)))
  }

  function RowOf(s: State, n: nat): Option<Status> {
    Lookup(s.rows, Key(s.session, n))
  }

  ghost predicate QueueFits(s: State, k: Stage)
    requires Shaped(s)
  {
    forall n :: n in s.queues[k] && n < |s.choices| ==> Ready(s.choices[n], k) && RowOf(s, n) == ReadyRow(k)
  }

  ghost predicate BusyFits(s: State, k: Stage)
    requires Shaped(s)
  {
    s.workers[k].Busy? ==>
      WorkerFits(s.choices[s.workers[k].job], k, s.workers[k].phase, RowOf(s, s.workers[k].job))
  }

  predicate InFlight(s: State, n: nat)
    requires Shaped(s)
  {
    exists k: Stage :: n in In(s.workers[k]) || n in s.queues[k]
  }

  ghost predicate GoneFits(s: State)
    requires Shaped(s)
  {
    forall n: nat :: n < s.next && !InFlight(s, n) ==> RowOf(s, n) == Verdict(s.choices[n])
  }

  /** Rows that are not the session's, or not yet sent, are as they were. */
  ghost predicate OthersKept(s: State, rows: Rows) {
    forall key: Key :: key.session != s.session || key.number >= s.next ==> Lookup(s.rows, key) == Lookup(rows, key)
  }

  /** A worker stops only after its input is closed and its queue empty, so the stopped
      ones are the foremost. */
  predicate StopsInOrder(s: State)
    requires Shaped(s)
  {
    forall k: Stage :: s.workers[k].Stopped? ==> InputClosed(s, k) && s.queues[k] == []
  }

  predicate WithinCapacity(s: State)
    requires Shaped(s)
  {
    forall k: Stage :: |s.queues[k]| <= TEXT_QUEUE_CAPACITY
  }

  ghost predicate Inv(s: State, rows: Rows) {
    && Ordered(s) && StopsInOrder(s) && WithinCapacity(s)
    && QueueFits(s, 0) && QueueFits(s, 1) && QueueFits(s, 2)
    && BusyFits(s, 0) && BusyFits(s, 1) && BusyFits(s, 2)
    && GoneFits(s) && OthersKept(s, rows)
    && (forall n :: Key(s.session, n) !in rows)
  }

  // ------------------------------------------------------------------ keeping the order

  lemma Apart(left: seq<nat>, n: nat, right: seq<nat>)
    requires Increasing(left + [n] + right)
    ensures n !in left && n !in right && Increasing(left + right)
  {
    var xs := left + [n] + right;
    assert xs[|left|] == n;
    forall i | 0 <= i < |left|
      ensures left[i] < n
    {
      assert xs[i] == left[i];
    }
    forall i | 0 <= i < |right|
      ensures right[i] > n
    {
      assert xs[|left| + 1 + i] == right[i];
    }
    forall i, j | 0 <= i < j < |left + right|
      ensures (left + right)[i] < (left + right)[j]
    {
      assert (left + right)[i] == xs[if i < |left| then i else i + 1];
      assert (left + right)[j] == xs[if j < |left| then j else j + 1];
    }
  }

  /** What is ahead of worker `k`'s job, and what is behind it. */
  function Ahead(s: State, k: Stage): seq<nat>
    requires Shaped(s)
  {
    if k == 2 then s.past
    else if k == 1 then s.past + (In(s.workers[2]) + s.queues[2])
    else s.past + (In(s.workers[2]) + s.queues[2] + (In(s.workers[1]) + s.queues[1]))
  }

  function Behind(s: State, k: Stage): seq<nat>
    requires Shaped(s)
  {
    if k == 0 then s.queues[0]
    else if k == 1 then s.queues[1] + (In(s.workers[0]) + s.queues[0])
    else s.queues[2] + (In(s.workers[1]) + s.queues[1] + (In(s.workers[0]) + s.queues[0]))
  }

  lemma FlowSplits(s: State, k: Stage)
    requires Shaped(s)
    ensures Flow(s) == Ahead(s, k) + In(s.workers[k]) + Behind(s, k)
  {
    var a, b, c := In(s.workers[2]) + s.queues[2], In(s.workers[1]) + s.queues[1], In(s.workers[0]) + s.queues[0];
    if k == 2 {
      Associate(s.past, In(s.workers[2]), s.queues[2] + (b + c));
    } else if k == 1 {
      Associate(s.past + a, In(s.workers[1]), s.queues[1] + c);
    }
  }

  /** A job a worker holds is nowhere else. */
  lemma HeldOnce(s: State, k: Stage)
    requires Ordered(s) && s.workers[k].Busy?
    ensures var n := s.workers[k].job;
            && n < s.next && n !in s.past
            && forall j: Stage :: n !in s.queues[j] && (j != k ==> n !in In(s.workers[j]))
  {
    FlowSplits(s, k);
    var n := s.workers[k].job;
    assert Flow(s)[|Ahead(s, k)|] == n;
    Apart(Ahead(s, k), n, Behind(s, k));
    forall j: Stage
      ensures n !in s.queues[j] && (j != k ==> n !in In(s.workers[j]))
    {
    }
  }

  lemma WithoutOne(left: seq<nat>, n: nat, right: seq<nat>, bound: nat)
    requires Increasing(left + [n] + right) && Below(left + [n] + right, bound)
    ensures Increasing(left + right) && Below(left + right, bound)
  {
    Apart(left, n, right);
    forall i | 0 <= i < |left + right|
      ensures (left + right)[i] < bound
    {
      assert (left + right)[i] == (left + [n] + right)[if i < |left| then i else i + 1];
    }
  }

  lemma Dropped(s: State, k: Stage)
    requires Ordered(s) && s.workers[k].Busy?
    ensures Ordered(Now(s, k, Idle))
  {
    var t := Now(s, k, Idle);
    FlowSplits(s, k);
    FlowSplits(t, k);
    WithoutOne(Ahead(s, k), s.workers[k].job, Behind(s, k), s.next);
    assert Ahead(t, k) == Ahead(s, k) && Behind(t, k) == Behind(s, k);
    assert Ahead(s, k) + [] + Behind(s, k) == Ahead(s, k) + Behind(s, k);
  }

  lemma EnqueueOrdered(s: State)
    requires Ordered(s) && Possible(s, Enqueue)
    ensures Ordered(Next(s, Enqueue)) && Flow(Next(s, Enqueue)) == Flow(s) + [s.next]
  {
    var t := Next(s, Enqueue);
    FlowSplits(s, 0);
    FlowSplits(t, 0);
    assert Flow(t) == Flow(s) + [s.next];
    forall i, j | 0 <= i < j < |Flow(t)|
      ensures Flow(t)[i] < Flow(t)[j]
    {
      assert Flow(t)[i] == Flow(s)[i];
      assert j < |Flow(s)| ==> Flow(t)[j] == Flow(s)[j];
    }
  }

  lemma TakeOrdered(s: State, k: Stage)
    requires Ordered(s) && Possible(s, Take(k))
    ensures s.queues[k][0] < s.next
    ensures Ordered(Next(s, Take(k))) && Flow(Next(s, Take(k))) == Flow(s)
  {
    FlowSplits(s, k);
    var n := s.queues[k][0];
    assert Behind(s, k)[0] == n;
    assert Flow(s)[|Ahead(s, k)|] == n;
    var t := Next(s, Take(k));
    FlowSplits(t, k);
    assert In(t.workers[k]) + t.queues[k] == In(s.workers[k]) + s.queues[k];
  }

  /** The job is in the next worker's queue. */
  function Handed(s: State, k: Stage): State
    requires Shaped(s) && k < 2 && s.workers[k].Busy?
  {
    Now(s, k, Idle).(queues := s.queues[k + 1 := s.queues[k + 1] + [s.workers[k].job]])
  }

  lemma HandOrdered(s: State, k: Stage)
    requires Ordered(s) && k < 2 && s.workers[k].Busy?
    ensures var t := Handed(s, k);
            Ordered(t) && Flow(t) == Flow(s)
  {
    var t := Handed(s, k);
    FlowSplits(s, k);
    FlowSplits(t, k);
    var n := s.workers[k].job;
    assert Ahead(t, k) == Ahead(s, k) + [n];
    assert Behind(t, k) == Behind(s, k);
    assert Flow(t) == Flow(s);
  }

  lemma PassOrdered(s: State)
    requires Ordered(s) && s.workers[2].Busy?
    ensures var t := Now(s, 2, Idle).(past := s.past + [s.workers[2].job]);
            Ordered(t) && Flow(t) == Flow(s)
  {
    var t := Now(s, 2, Idle).(past := s.past + [s.workers[2].job]);
    FlowSplits(s, 2);
    FlowSplits(t, 2);
    assert Behind(t, 2) == Behind(s, 2);
    assert Flow(t) == Flow(s);
  }

  // ------------------------------------------------------------------- keeping the rows

  /** Fits for every stage. */
  ghost predicate AllFit(s: State)
    requires Shaped(s)
  {
    && QueueFits(s, 0) && QueueFits(s, 1) && QueueFits(s, 2)
    && BusyFits(s, 0) && BusyFits(s, 1) && BusyFits(s, 2)
  }

  /** A row written for worker `k`'s job is no other job's. */
  lemma OthersFit(s: State, t: State, k: Stage)
    requires Ordered(s) && s.workers[k].Busy? && AllFit(s)
    requires Shaped(t) && t.session == s.session && t.choices == s.choices
    requires forall key :: key != Key(s.session, s.workers[k].job) ==> Lookup(t.rows, key) == Lookup(s.rows, key)
    requires t.queues == s.queues && forall j: Stage :: j != k ==> t.workers[j] == s.workers[j]
    requires BusyFits(t, k)
    ensures AllFit(t)
  {
    HeldOnce(s, k);
    forall j: Stage
      ensures QueueFits(t, j)
    {
      assert QueueFits(s, j);
      assert s.workers[k].job !in s.queues[j];
    }
    forall j: Stage
      ensures BusyFits(t, j)
    {
      assert BusyFits(s, j);
      if j != k {
        assert t.workers[j] == s.workers[j];
        assert s.workers[k].job !in In(s.workers[j]);
        if s.workers[j].Busy? {
          assert In(s.workers[j])[0] == s.workers[j].job;
        }
      }
    }
  }

  /** Rows may differ at one key only. */
  ghost predicate OnlyAt(before: Rows, after: Rows, key: Key) {
    forall other :: other != key ==> Lookup(after, other) == Lookup(before, other)
  }

  lemma SameFlight(s: State, t: State, n: nat)
    requires Shaped(s) && Shaped(t) && t.queues == s.queues
    requires forall k: Stage :: In(t.workers[k]) == In(s.workers[k])
    ensures InFlight(t, n) == InFlight(s, n)
  {
  }

  function StayBusy(s: State, k: Stage, phase: Phase, rows: Rows): State
    requires Shaped(s) && s.workers[k].Busy?
  {
    Now(s, k, Busy(s.workers[k].job, phase)).(rows := rows)
  }

  lemma StaysBusy(s: State, start: Rows, k: Stage, phase: Phase, rows: Rows)
    requires Inv(s, start) && s.workers[k].Busy?
    requires var key := Key(s.session, s.workers[k].job);
             && OnlyAt(s.rows, rows, key)
             && WorkerFits(s.choices[s.workers[k].job], k, phase, Lookup(rows, key))
    ensures Inv(StayBusy(s, k, phase, rows), start)
  {
    var t, n := StayBusy(s, k, phase, rows), s.workers[k].job;
    assert In(t.workers[0]) == In(s.workers[0]) && In(t.workers[1]) == In(s.workers[1]);
    assert In(t.workers[2]) == In(s.workers[2]);
    assert Flow(t) == Flow(s);
    HeldOnce(s, k);
    OthersFit(s, t, k);
    GoneStays(s, t, k);
    assert OthersKept(t, start);
  }

  lemma GoneStays(s: State, t: State, k: Stage)
    requires Ordered(s) && Shaped(t) && GoneFits(s) && s.workers[k].Busy? && t.queues == s.queues
    requires t.session == s.session && t.choices == s.choices && t.next == s.next
    requires In(t.workers[k]) == In(s.workers[k]) && forall j: Stage :: j != k ==> t.workers[j] == s.workers[j]
    requires OnlyAt(s.rows, t.rows, Key(s.session, s.workers[k].job))
    ensures GoneFits(t)
  {
    forall n: nat | n < t.next && !InFlight(t, n)
      ensures RowOf(t, n) == Verdict(t.choices[n])
    {
      SameFlight(s, t, n);
      assert In(s.workers[k])[0] == s.workers[k].job;
    }
  }

  /** The job is done with: its row is what it ends with. */
  function Leave(s: State, k: Stage, rows: Rows): State
    requires Shaped(s) && s.workers[k].Busy?
  {
    Now(s, k, Idle).(rows := rows, past := if k == 2 then s.past + [s.workers[k].job] else s.past)
  }

  lemma LeaveOrdered(s: State, k: Stage, rows: Rows)
    requires Ordered(s) && s.workers[k].Busy?
    ensures Ordered(Leave(s, k, rows))
  {
    var t := Leave(s, k, rows);
    if k == 2 {
      PassOrdered(s);
      assert Flow(t) == Flow(Now(s, 2, Idle).(past := s.past + [s.workers[2].job]));
    } else {
      Dropped(s, k);
      assert Flow(t) == Flow(Now(s, k, Idle));
    }
  }

  lemma GoneLeaves(s: State, k: Stage, rows: Rows)
    requires Ordered(s) && GoneFits(s) && s.workers[k].Busy?
    requires var n := s.workers[k].job;
             && OnlyAt(s.rows, rows, Key(s.session, n)) && Lookup(rows, Key(s.session, n)) == Verdict(s.choices[n])
    ensures GoneFits(Leave(s, k, rows))
  {
    var t := Leave(s, k, rows);
    forall n: nat | n < t.next && !InFlight(t, n)
      ensures RowOf(t, n) == Verdict(t.choices[n])
    {
      if n != s.workers[k].job {
        forall j: Stage ensures n !in In(s.workers[j]) && n !in s.queues[j] {
          assert n !in In(t.workers[j]) && n !in t.queues[j];
        }
        assert !InFlight(s, n);
      }
    }
  }

  lemma Leaves(s: State, start: Rows, k: Stage, rows: Rows)
    requires Inv(s, start) && s.workers[k].Busy?
    requires var n := s.workers[k].job;
             && OnlyAt(s.rows, rows, Key(s.session, n)) && Lookup(rows, Key(s.session, n)) == Verdict(s.choices[n])
    ensures Inv(Leave(s, k, rows), start)
  {
    HeldOnce(s, k);
    LeaveOrdered(s, k, rows);
    OthersFit(s, Leave(s, k, rows), k);
    GoneLeaves(s, k, rows);
    assert OthersKept(Leave(s, k, rows), start);
  }

  lemma Moves(s: State, t: State)
    requires Shaped(s) && Shaped(t) && GoneFits(s)
    requires t.session == s.session && t.choices == s.choices && t.rows == s.rows && t.next == s.next
    requires forall n: nat :: InFlight(s, n) ==> InFlight(t, n)
    ensures GoneFits(t)
  {
  }

  lemma HandFlight(s: State, k: Stage, n: nat)
    requires Shaped(s) && k < 2 && s.workers[k].Busy? && InFlight(s, n)
    ensures InFlight(Handed(s, k), n)
  {
    var t := Handed(s, k);
    var j: Stage :| n in In(s.workers[j]) || n in s.queues[j];
    if n in In(s.workers[k]) {
      assert n == s.workers[k].job && n in t.queues[k + 1];
    } else if n in s.queues[j] {
      assert n in t.queues[j];
    } else {
      assert n in In(t.workers[j]);
    }
  }

  lemma HandKeeps(s: State, start: Rows, k: Stage)
    requires Inv(s, start) && k < 2 && s.workers[k].Busy? && s.workers[k].phase.Handing?
    requires |s.queues[k + 1]| < TEXT_QUEUE_CAPACITY && !s.workers[k + 1].Stopped?
    ensures Inv(Next(s, Act(k)), start)
  {
    HandOrdered(s, k);
    HandGone(s, k);
    HandFits(s, k);
    HandCapacity(s, k);
    assert Next(s, Act(k)) == Handed(s, k) && OthersKept(Handed(s, k), start);
  }

  lemma HandCapacity(s: State, k: Stage)
    requires Shaped(s) && StopsInOrder(s) && WithinCapacity(s)
    requires k < 2 && s.workers[k].Busy? && s.workers[k].job < |s.choices|
    requires |s.queues[k + 1]| < TEXT_QUEUE_CAPACITY && !s.workers[k + 1].Stopped?
    ensures var t := Handed(s, k); Shaped(t) ==> StopsInOrder(t) && WithinCapacity(t)
  {
  }

  lemma HandGone(s: State, k: Stage)
    requires Shaped(s) && GoneFits(s) && k < 2 && s.workers[k].Busy? && s.workers[k].job < |s.choices|
    ensures var t := Handed(s, k);
            Shaped(t) ==> GoneFits(t)
  {
    var t := Handed(s, k);
    if Shaped(t) {
      forall m: nat | InFlight(s, m)
        ensures InFlight(t, m)
      {
        HandFlight(s, k, m);
      }
      Moves(s, t);
    }
  }

  lemma HandFits(s: State, k: Stage)
    requires Shaped(s) && AllFit(s) && k < 2 && s.workers[k].Busy? && s.workers[k].phase.Handing?
    ensures AllFit(Handed(s, k))
  {
    var t := Handed(s, k);
    assert BusyFits(s, k);
    forall j: Stage
      ensures QueueFits(t, j) && BusyFits(t, j)
    {
      assert QueueFits(s, j) && BusyFits(s, j);
    }
  }

  lemma TakeFits(s: State, k: Stage)
    requires Ordered(s) && AllFit(s) && Possible(s, Take(k))
    ensures AllFit(Next(s, Take(k)))
  {
    TakeOrdered(s, k);
    TakenFits(s, k);
    forall j: Stage | j != k
      ensures QueueFits(Next(s, Take(k)), j) && BusyFits(Next(s, Take(k)), j)
    {
      assert QueueFits(s, j) && BusyFits(s, j);
    }
  }

  lemma TakenFits(s: State, k: Stage)
    requires Shaped(s) && QueueFits(s, k) && Possible(s, Take(k)) && s.queues[k][0] < |s.choices|
    ensures QueueFits(Next(s, Take(k)), k) && BusyFits(Next(s, Take(k)), k)
  {
    assert s.queues[k][0] in s.queues[k];
  }

  lemma TakeKeeps(s: State, start: Rows, k: Stage)
    requires Inv(s, start) && Possible(s, Take(k))
    ensures Inv(Next(s, Take(k)), start)
  {
    TakeOrdered(s, k);
    TakeFits(s, k);
    var t := Next(s, Take(k));
    forall m: nat | InFlight(s, m)
      ensures InFlight(t, m)
    {
      TakeFlight(s, k, m);
    }
    Moves(s, t);
    assert OthersKept(t, start);
  }

  lemma TakeFlight(s: State, k: Stage, m: nat)
    requires Shaped(s) && Possible(s, Take(k)) && s.queues[k][0] < |s.choices| && InFlight(s, m)
    ensures InFlight(Next(s, Take(k)), m)
  {
    var n, t := s.queues[k][0], Next(s, Take(k));
    assert s.queues[k] == [n] + t.queues[k];
    var j: Stage :| m in In(s.workers[j]) || m in s.queues[j];
    assert m == n ==> m in In(t.workers[k]);
    assert m != n ==> m in In(t.workers[j]) || m in t.queues[j];
  }

  lemma EnqueueFits(s: State, start: Rows)
    requires Inv(s, start) && Possible(s, Enqueue)
    ensures AllFit(Next(s, Enqueue)) && GoneFits(Next(s, Enqueue))
  {
    var t := Next(s, Enqueue);
    assert Key(s.session, s.next) !in start;
    assert RowOf(s, s.next) == None;
    forall j: Stage
      ensures QueueFits(t, j) && BusyFits(t, j)
    {
      assert QueueFits(s, j) && BusyFits(s, j);
    }
    assert s.next in t.queues[0];
    forall m: nat | m < t.next && !InFlight(t, m)
      ensures RowOf(t, m) == Verdict(t.choices[m])
    {
      assert m != s.next;
      forall j: Stage ensures m !in In(s.workers[j]) && m !in s.queues[j] {
        assert m !in In(t.workers[j]) && m !in t.queues[j];
      }
    }
  }

  lemma EnqueueKeeps(s: State, start: Rows)
    requires Inv(s, start) && Possible(s, Enqueue)
    ensures Inv(Next(s, Enqueue), start)
  {
    EnqueueOrdered(s);
    EnqueueFits(s, start);
    assert OthersKept(Next(s, Enqueue), start);
  }

  lemma SettleKeeps(s: State, t: State, start: Rows)
    requires Inv(s, start) && Shaped(t) && t == s.(closed := t.closed, workers := t.workers)
    requires forall k: Stage :: In(t.workers[k]) == In(s.workers[k])
    requires forall k: Stage :: t.workers[k].Busy? ==> t.workers[k] == s.workers[k]
    requires StopsInOrder(t)
    ensures Inv(t, start)
  {
    assert In(t.workers[0]) == In(s.workers[0]) && In(t.workers[1]) == In(s.workers[1]);
    assert In(t.workers[2]) == In(s.workers[2]);
    assert Flow(t) == Flow(s);
    forall j: Stage
      ensures QueueFits(t, j) && BusyFits(t, j)
    {
      assert QueueFits(s, j) && BusyFits(s, j);
    }
    forall n: nat
      ensures InFlight(t, n) == InFlight(s, n)
    {
      SameFlight(s, t, n);
    }
    Moves(s, t);
    assert OthersKept(t, start);
  }

  lemma FailureVerdict(c: Choices, k: Stage)
    requires Ready(c, k) && !Passes(c, k)
    ensures Verdict(c) == RowAfterFailure(c, k)
  {
  }

  /** A worker never finds its successor gone when it hands a job on. */
  lemma SuccessorRuns(s: State, k: Stage)
    requires Shaped(s) && StopsInOrder(s) && k < 2 && s.workers[k].Busy?
    ensures !s.workers[k + 1].Stopped?
  {
    var next: Stage := k + 1;
    assert s.workers[next].Stopped? ==> InputClosed(s, next);
  }

  lemma CreatingKeeps(s: State, start: Rows, k: Stage)
    requires Inv(s, start) && s.workers[k].Busy? && s.workers[k].phase.Creating?
    ensures Inv(ActNext(s, k), start)
  {
    var n := s.workers[k].job;
    var c := s.choices[n];
    assert BusyFits(s, k);
    StaysBusy(s, start, k, if c.create.Done? then Working else Marking, Insert(s.rows, Key(s.session, n), c.create));
  }

  lemma WorkingKeeps(s: State, start: Rows, k: Stage)
    requires Inv(s, start) && s.workers[k].Busy? && s.workers[k].phase.Working?
    ensures Inv(ActNext(s, k), start)
  {
    var c := s.choices[s.workers[k].job];
    assert BusyFits(s, k);
    StaysBusy(s, start, k, if At(c, k).engine then Saving else Marking, s.rows);
  }

  lemma SavingKeeps(s: State, start: Rows, k: Stage)
    requires Inv(s, start) && s.workers[k].Busy? && s.workers[k].phase.Saving?
    ensures Inv(ActNext(s, k), start)
  {
    var n := s.workers[k].job;
    var c := s.choices[n];
    var rows := Update(s.rows, Key(s.session, n), StatusIn(k + 1), At(c, k).save);
    assert BusyFits(s, k);
    if k == 2 && At(c, k).save.Done? {
      Leaves(s, start, k, rows);
    } else {
      StaysBusy(s, start, k, if At(c, k).save.Done? then Handing else Marking, rows);
    }
  }

  lemma MarkingKeeps(s: State, start: Rows, k: Stage)
    requires Inv(s, start) && s.workers[k].Busy? && s.workers[k].phase.Marking?
    ensures Inv(ActNext(s, k), start)
  {
    var n := s.workers[k].job;
    var c := s.choices[n];
    assert BusyFits(s, k);
    FailureVerdict(c, k);
    Leaves(s, start, k, Update(s.rows, Key(s.session, n), FailedIn(k), At(c, k).mark));
  }

  lemma HandingKeeps(s: State, start: Rows, k: Stage)
    requires Inv(s, start) && Possible(s, Act(k)) && s.workers[k].phase.Handing?
    ensures Inv(ActNext(s, k), start)
  {
    assert BusyFits(s, k);
    assert k < 2;
    SuccessorRuns(s, k);
    HandKeeps(s, start, k);
  }

  lemma ActKeeps(s: State, start: Rows, k: Stage)
    requires Inv(s, start) && Possible(s, Act(k))
    ensures Inv(ActNext(s, k), start)
  {
    match s.workers[k].phase
    case Creating => CreatingKeeps(s, start, k);
    case Working => WorkingKeeps(s, start, k);
    case Saving => SavingKeeps(s, start, k);
    case Marking => MarkingKeeps(s, start, k);
    case Handing => HandingKeeps(s, start, k);
  }

  lemma StepKeeps(s: State, start: Rows, e: Event)
    requires Inv(s, start) && Possible(s, e)
    ensures Inv(Next(s, e), start)
  {
    match e
    case Enqueue => EnqueueKeeps(s, start);
    case Close => SettleKeeps(s, Next(s, e), start);
    case Take(k) => TakeKeeps(s, start, k);
    case Stop(k) => SettleKeeps(s, Next(s, e), start);
    case Act(k) => ActKeeps(s, start, k);
  }
}
