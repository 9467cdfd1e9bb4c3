/** The runtime command bus: a bounded log of commands in the admin process, a cursor-driven
    streamer with a wake-up, a connection that may lose what is in flight, and a consumer
    that reconnects and remembers what it has applied. */
module CommandBus {
  import opened Common

  const QUEUE_CAPACITY: nat := 2_048
  const MEMORY_CAPACITY: nat := 4_096

  /** A command id is a fresh UUID; it is modelled by the number of commands published
      before it, and only equality of ids is ever used by the operations. `valid` is whether
      `apply_runtime_command` accepts the action. */
  datatype Command = Command(id: nat, sequence: nat, valid: bool)

  // ---------------------------------------------------------------- operations

  function Enqueue(commands: seq<Command>, command: Command): seq<Command> {
    (if |commands| == QUEUE_CAPACITY then commands[1..] else commands) + [command]
  }

  function CommandsAfter(commands: seq<Command>, sequence: nat): seq<Command> {
    if commands == [] then []
    else
      var command := commands[|commands| - 1];
      CommandsAfter(commands[..|commands| - 1], sequence) + if command.sequence > sequence then [command] else []
  }

  /** The cursor a new stream starts from: one beyond the latest number belongs to an
      earlier admin process and is reset. */
  function StartCursor(next: nat, after: nat): nat
    requires next >= 1
  {
    if after > next - 1 then 0 else after
  }

  datatype Memory = Memory(ids: set<nat>, order: seq<nat>)

  function Remember(m: Memory, id: nat): Memory {
    if id in m.ids then m
    else if |m.order| + 1 > MEMORY_CAPACITY then
      var order := m.order + [id];
      Memory(m.ids + {id} - {order[0]}, order[1..])
    else Memory(m.ids + {id}, m.order + [id])
  }

  /** `applied` and `received` record, in order, the ids that were applied and the
      commands that arrived. */
  datatype Consumer = Consumer(after: nat, memory: Memory, applied: seq<nat>, received: seq<Command>)

  const NewConsumer := Consumer(0, Memory({}, []), [], [])

  function Receive(c: Consumer, command: Command): Consumer {
    var seen := c.(after := if command.sequence > c.after then command.sequence else c.after,
                   received := c.received + [command]);
    if command.id in c.memory.ids || !command.valid then seen
    else seen.(memory := Remember(c.memory, command.id), applied := c.applied + [command.id])
  }

  function ReceiveAll(c: Consumer, commands: seq<Command>): Consumer {
    if commands == [] then c
    else Receive(ReceiveAll(c, commands[..|commands| - 1]), commands[|commands| - 1])
  }

  // ------------------------------------------------------ the objects that change

  class RuntimeCommandBus {
    var nextSequence: nat
    var commands: seq<Command>

    constructor ()
      ensures nextSequence == 1 && commands == []
    {
      nextSequence, commands := 1, [];
    }

    method Publish(id: nat, valid: bool)
      modifies this
      ensures nextSequence == old(nextSequence) + 1
      ensures commands == Enqueue(old(commands), Command(id, old(nextSequence), valid))
    {
      var command := Command(id, nextSequence, valid);
      nextSequence := nextSequence + 1;
      if |commands| == QUEUE_CAPACITY {
        commands := commands[1..];
      }
      commands := commands + [command];
    }

    method Snapshot(sequence: nat) returns (batch: seq<Command>)
      ensures batch == CommandsAfter(commands, sequence)
    {
      batch := [];
      for i := 0 to |commands|
        invariant batch == CommandsAfter(commands[..i], sequence)
      {
        assert commands[..i + 1][..i] == commands[..i];
        if commands[i].sequence > sequence {
          batch := batch + [commands[i]];
        }
      }
      assert commands[..|commands|] == commands;
    }
  }

  class ProcessedCommands {
    var ids: set<nat>
    var order: seq<nat>

    function Value(): Memory
      reads this
    {
      Memory(ids, order)
    }

    constructor ()
      ensures Value() == Memory({}, [])
    {
      ids, order := {}, [];
    }

    method Insert(id: nat)
      modifies this
      ensures Value() == Remember(old(Value()), id)
    {
      if id in ids {
        return;
      }
      ids := ids + {id};
      order := order + [id];
      if |order| > MEMORY_CAPACITY {
        var expired := order[0];
        order := order[1..];
        ids := ids - {expired};
      }
    }
  }

  class CommandListener {
    var after: nat
    const processed: ProcessedCommands
    var applied: seq<nat>
    ghost var received: seq<Command>

    ghost function Value(): Consumer
      reads this, processed
    {
      Consumer(after, processed.Value(), applied, received)
    }

    constructor ()
      ensures Value() == NewConsumer && fresh(processed)
    {
      after, applied, received := 0, [], [];
      processed := new ProcessedCommands();
    }

    /** One connection: the messages that arrive before it is lost. */
    method ConsumeStream(messages: seq<Command>)
      modifies this, processed
      ensures Value() == ReceiveAll(old(Value()), messages)
    {
      for i := 0 to |messages|
        invariant Value() == ReceiveAll(old(Value()), messages[..i])
      {
        var command := messages[i];
        assert messages[..i + 1][..i] == messages[..i];
        if command.sequence > after {
          after := command.sequence;
        }
        received := received + [command];
        if command.id !in processed.ids && command.valid {
          applied := applied + [command.id];
          processed.Insert(command.id);
        }
      }
      assert messages[..|messages|] == messages;
    }
  }

  // ------------------------------------------------------------- the whole system

  /** Where the streamer of the current connection is in its loop. */
  datatype Streamer =
    | Disconnected
    | Ready(cursor: nat)
    | Armed(cursor: nat, notified: bool)
    | Waiting(cursor: nat, notified: bool)
    | Sending(cursor: nat, batch: seq<Command>)

  /** `unnotified` counts publishers between storing a command and waking waiters;
      `channel` is what was sent and has not arrived; `published` is every command of
      every admin process so far. */
  datatype System = System(
    next: nat, commands: seq<Command>, unnotified: nat,
    streamer: Streamer, channel: seq<Command>,
    consumer: Consumer, published: seq<Command>)

  const Initial := System(1, [], 0, Disconnected, [], NewConsumer, [])

  datatype Event =
    | Publish(valid: bool)
    | Notify
    | Restart
    | Connect
    | Arm
    | Fetch
    | Wake
    | Send
    | Deliver
    | Disconnect

  predicate Enabled(s: System, e: Event) {
    match e
    case Publish(_) => true
    case Notify => s.unnotified > 0
    case Restart => true
    case Connect => s.streamer.Disconnected? && s.next >= 1
    case Arm => s.streamer.Ready?
    case Fetch => s.streamer.Armed?
    case Wake => s.streamer.Waiting? && s.streamer.notified
    case Send => s.streamer.Sending? && s.streamer.batch != []
    case Deliver => s.channel != []
    case Disconnect => true
  }

  function Step(s: System, e: Event): System
    requires Enabled(s, e)
  {
    match e
    case Publish(valid) =>
      var command := Command(|s.published|, s.next, valid);
      s.(next := s.next + 1, commands := Enqueue(s.commands, command),
         unnotified := s.unnotified + 1, published := s.published + [command])
    case Notify =>
      s.(unnotified := s.unnotified - 1,
         streamer := match s.streamer
                     case Armed(cursor, _) => Armed(cursor, true)
                     case Waiting(cursor, _) => Waiting(cursor, true)
                     case other => other)
    case Restart =>
      s.(next := 1, commands := [], unnotified := 0, streamer := Disconnected)
    case Connect =>
      s.(streamer := Ready(StartCursor(s.next, s.consumer.after)), channel := [])
    case Arm =>
      s.(streamer := Armed(s.streamer.cursor, false))
    case Fetch =>
      var batch := CommandsAfter(s.commands, s.streamer.cursor);
      s.(streamer := if batch == [] then Waiting(s.streamer.cursor, s.streamer.notified)
                     else Sending(s.streamer.cursor, batch))
    case Wake =>
      s.(streamer := Ready(s.streamer.cursor))
    case Send =>
      var command := s.streamer.batch[0];
      s.(channel := s.channel + [command],
         streamer := if |s.streamer.batch| == 1 then Ready(command.sequence)
                     else Sending(command.sequence, s.streamer.batch[1..]))
    case Deliver =>
      s.(channel := s.channel[1..], consumer := Receive(s.consumer, s.channel[0]))
    case Disconnect =>
      s.(streamer := Disconnected, channel := [])
  }

  /** `events` can happen, one after the other, from `s`. */
  predicate Possible(s: System, events: seq<Event>)
    decreases |events|
  {
    events == [] || (Enabled(s, events[0]) && Possible(Step(s, events[0]), events[1..]))
  }

  function Run(s: System, events: seq<Event>): System
    requires Possible(s, events)
    decreases |events|
  {
    if events == [] then s else Run(Step(s, events[0]), events[1..])
  }

  // ------------------------------------------------ the log is a contiguous suffix

  ghost predicate Distinct(xs: seq<nat>) {
    forall i, j :: 0 <= i < j < |xs| ==> xs[i] != xs[j]
  }

  /** The queue is the last few commands published, numbered without gaps up to `next`. */
  ghost predicate LogInv(s: System) {
    && s.next >= 1
    && |s.commands| <= QUEUE_CAPACITY
    && |s.commands| <= s.next - 1 <= |s.published|
    && s.commands == s.published[|s.published| - |s.commands|..]
    && (forall i :: 0 <= i < |s.published| ==> s.published[i].id == i)
    && (forall i :: |s.published| - (s.next - 1) <= i < |s.published| ==>
          s.published[i].sequence == i - (|s.published| - s.next))
  }

  lemma LogStep(s: System, e: Event)
    requires LogInv(s) && Enabled(s, e)
    ensures LogInv(Step(s, e))
  {
  }

  /** The snapshot of a gap-free log is the part of it beyond the cursor. */
  lemma {:induction false} CommandsAfterIsSuffix(commands: seq<Command>, first: nat, sequence: nat)
    requires forall i :: 0 <= i < |commands| ==> commands[i].sequence == first + i
    ensures CommandsAfter(commands, sequence) ==
            if sequence < first then commands
            else if sequence - first + 1 <= |commands| then commands[sequence - first + 1..] else []
  {
    if commands != [] {
      var front, last := commands[..|commands| - 1], commands[|commands| - 1];
      CommandsAfterIsSuffix(front, first, sequence);
      assert commands == front + [last] && last.sequence == first + |front|;
      SuffixMore(front, last, first, sequence);
    }
  }

  lemma SuffixMore(front: seq<Command>, last: Command, first: nat, sequence: nat)
    requires last.sequence == first + |front|
    ensures (if sequence < first then front
             else if sequence - first + 1 <= |front| then front[sequence - first + 1..] else []) +
            (if last.sequence > sequence then [last] else []) ==
            (if sequence < first then front + [last]
             else if sequence - first + 1 <= |front + [last]| then (front + [last])[sequence - first + 1..] else [])
  {
    if first <= sequence {
      SuffixSnoc(front, last, sequence - first + 1);
    }
  }

  lemma SuffixSnoc(front: seq<Command>, last: Command, from: nat)
    ensures from <= |front| ==> (front + [last])[from..] == front[from..] + [last]
    ensures from == |front| + 1 ==> (front + [last])[from..] == []
  {
  }

  /** What a fetch with this cursor gets: the published commands with a number beyond
      the cursor that are still in the queue. */
  lemma FetchIsSuffix(s: System, cursor: nat)
    requires LogInv(s)
    ensures CommandsAfter(s.commands, cursor) ==
            s.published[Min(|s.published|, Max(|s.published| - |s.commands|, |s.published| - (s.next - 1) + cursor))..]
  {
    if s.commands != [] {
      var first := s.commands[0].sequence;
      assert s.commands[0] == s.published[|s.published| - |s.commands|];
      assert first == s.next - |s.commands|;
      CommandsAfterIsSuffix(s.commands, first, cursor);
    }
  }

  /** A fetch is gap-free exactly when the streamer is at most a queue behind. */
  lemma FetchGapFreeIff(s: System, cursor: nat)
    requires LogInv(s) && s.next - 1 == |s.published| && cursor <= |s.published|
    requires |s.commands| == Min(2_048, |s.published|)
    ensures CommandsAfter(s.commands, cursor) == s.published[cursor..] <==>
            s.next - 1 - cursor <= 2_048
  {
    FetchIsSuffix(s, cursor);
  }

  /** One connection replays the whole queue of the process it reaches exactly when the
      cursor kept by the consumer is beyond its numbers, or before the first it still has. */
  lemma ReplayedInFullIff(s: System)
    requires LogInv(s)
    ensures CommandsAfter(s.commands, StartCursor(s.next, s.consumer.after)) == s.commands <==>
            s.consumer.after > s.next - 1 || s.consumer.after < s.next - |s.commands|
  {
    FetchIsSuffix(s, StartCursor(s.next, s.consumer.after));
  }

  // ------------------------------------------------------------ applied at most once

  /** What may still arrive on this connection, in order. */
  function InFlight(s: System): seq<Command> {
    s.channel + if s.streamer.Sending? then s.streamer.batch else []
  }

  function Cursor(streamer: Streamer): nat
    requires !streamer.Disconnected?
  {
    streamer.cursor
  }

  /** Commands in publication order, all among the first `bound` published. */
  ghost predicate Ordered(xs: seq<Command>, bound: int) {
    && (forall i :: 0 <= i < |xs| ==> xs[i].id < bound)
    && (forall i, j :: 0 <= i < j < |xs| ==> xs[i].id < xs[j].id)
  }

  /** The connection carries published commands in publication order; what was sent is
      up to the cursor, what is still to send is beyond it. */
  ghost predicate StreamInv(s: System) {
    && Ordered(s.channel, |s.published|)
    && (!s.streamer.Disconnected? ==>
          Ordered(s.channel, |s.published| - (s.next - 1) + Cursor(s.streamer)))
    && (s.streamer.Sending? ==> BatchInv(s, s.streamer.batch))
  }

  ghost predicate BatchInv(s: System, batch: seq<Command>)
    requires !s.streamer.Disconnected?
  {
    && Ordered(batch, |s.published|)
    && (forall i :: 0 <= i < |batch| ==>
          && batch[i].id >= |s.published| - (s.next - 1) + Cursor(s.streamer)
          && batch[i].id == |s.published| - s.next + batch[i].sequence)
  }

  lemma StreamSend(s: System)
    requires LogInv(s) && StreamInv(s) && Enabled(s, Send)
    ensures StreamInv(Step(s, Send))
  {
    var batch := s.streamer.batch;
    var t := Step(s, Send);
    assert t.channel == s.channel + [batch[0]];
    if t.streamer.Sending? {
      assert t.streamer.batch == batch[1..];
    }
  }

  lemma StreamFetch(s: System)
    requires LogInv(s) && StreamInv(s) && Enabled(s, Fetch)
    ensures StreamInv(Step(s, Fetch))
  {
    FetchedBatch(s, s.streamer.cursor);
  }

  /** What a fetch gets is in order, and beyond the cursor. */
  lemma FetchedBatch(s: System, cursor: nat)
    requires LogInv(s)
    ensures var batch := CommandsAfter(s.commands, cursor);
            && Ordered(batch, |s.published|)
            && forall i :: 0 <= i < |batch| ==>
                 && batch[i].id >= |s.published| - (s.next - 1) + cursor
                 && batch[i].id == |s.published| - s.next + batch[i].sequence
  {
    FetchIsSuffix(s, cursor);
    var from := Min(|s.published|, Max(|s.published| - |s.commands|, |s.published| - (s.next - 1) + cursor));
    var batch := CommandsAfter(s.commands, cursor);
    forall i | 0 <= i < |batch|
      ensures batch[i].id == from + i && batch[i].sequence == from + i - (|s.published| - s.next)
    {
      assert batch[i] == s.published[from + i];
    }
  }

  lemma StreamStep(s: System, e: Event)
    requires LogInv(s) && StreamInv(s) && Enabled(s, e)
    ensures StreamInv(Step(s, e))
  {
    if e.Fetch? {
      StreamFetch(s);
    } else if e.Send? {
      StreamSend(s);
    }
  }

  ghost predicate Carries(commands: seq<Command>, id: nat) {
    exists i :: 0 <= i < |commands| && commands[i].id == id
  }

  /** The command can still reach the consumer, now or after any number of reconnects. */
  ghost predicate MayArrive(s: System, id: nat) {
    || |s.published| - |s.commands| <= id < |s.published|
    || Carries(s.channel, id)
    || (s.streamer.Sending? && Carries(s.streamer.batch, id))
  }

  /** The memory is a duplicate-free list with its set of elements. A number is
      remembered after a larger one only if they are less than a queue apart. */
  ghost predicate MemoryInv(m: Memory) {
    && Distinct(m.order)
    && (forall id :: id in m.ids <==> id in m.order)
    && |m.order| <= MEMORY_CAPACITY
    && (forall i, j :: 0 <= i < j < |m.order| ==> m.order[i] < m.order[j] + QUEUE_CAPACITY)
  }

  /** Nothing remembered is a whole queue ahead of anything that may still arrive. */
  ghost predicate NearInv(s: System) {
    && (forall o :: o in s.consumer.memory.order ==> o < |s.published|)
    && (forall o, i :: o in s.consumer.memory.order && 0 <= i < |s.channel| ==>
          o < s.channel[i].id + QUEUE_CAPACITY)
    && (s.streamer.Sending? ==>
          forall o, i :: o in s.consumer.memory.order && 0 <= i < |s.streamer.batch| ==>
            o < s.streamer.batch[i].id + QUEUE_CAPACITY)
  }

  /** Whatever was applied and may still arrive is remembered. */
  ghost predicate AppliedInv(s: System) {
    && Distinct(s.consumer.applied)
    && (forall a :: a in s.consumer.applied ==> a < |s.published|)
    && (forall a :: a in s.consumer.applied && MayArrive(s, a) ==> a in s.consumer.memory.ids)
  }

  ghost predicate SafeInv(s: System) {
    LogInv(s) && StreamInv(s) && MemoryInv(s.consumer.memory) && NearInv(s) && AppliedInv(s)
  }

  lemma RememberKeeps(m: Memory, id: nat)
    requires MemoryInv(m) && forall o :: o in m.order ==> o < id + QUEUE_CAPACITY
    ensures MemoryInv(Remember(m, id))
    ensures forall o :: o in Remember(m, id).order ==> o in m.order || o == id
  {
    var order := m.order + [id];
    if id !in m.ids {
      assert Distinct(order);
      forall i, j | 0 <= i < j < |order|
        ensures order[i] < order[j] + QUEUE_CAPACITY
      {
        assert order[i] in m.order;
      }
      assert forall x :: x in order <==> x in m.order || x == id;
      if |order| > MEMORY_CAPACITY {
        assert forall x :: x in order[1..] <==> x in order && x != order[0];
      }
    }
  }

  lemma NearStep(s: System, e: Event)
    requires SafeInv(s) && Enabled(s, e)
    ensures MemoryInv(Step(s, e).consumer.memory) && NearInv(Step(s, e))
  {
    if e.Fetch? {
      FetchIsSuffix(s, s.streamer.cursor);
    } else if e.Deliver? {
      RememberKeeps(s.consumer.memory, s.channel[0].id);
      NearDeliver(s);
    }
  }

  lemma NearDeliver(s: System)
    requires SafeInv(s) && Enabled(s, Deliver)
    ensures NearInv(Step(s, Deliver))
  {
    var id := s.channel[0].id;
    RememberKeeps(s.consumer.memory, id);
    if s.streamer.Sending? {
      forall i | 0 <= i < |s.streamer.batch|
        ensures id < s.streamer.batch[i].id
      {
      }
    }
  }

  /** Distinct numbers from a range are no more than the range holds. */
  lemma Pigeonhole(xs: seq<nat>, low: int, high: int)
    requires Distinct(xs) && low <= high
    requires forall x :: x in xs ==> low <= x < high
    ensures |xs| <= high - low
  {
    ElementsCount(xs);
    var range := Range(low, high);
    assert range == Elements(xs) + (range - Elements(xs));
  }

  ghost function Range(low: int, high: int): (r: set<int>)
    requires low <= high
    ensures |r| == high - low && forall x :: x in r <==> low <= x < high
    decreases high - low
  {
    if low == high then {} else Range(low, high - 1) + {high - 1}
  }

  ghost function Elements(xs: seq<nat>): set<int> {
    set x: int | x in xs
  }

  /** The elements of a duplicate-free list are as many as the list is long. */
  lemma {:induction false} ElementsCount(xs: seq<nat>)
    requires Distinct(xs)
    ensures |Elements(xs)| == |xs|
  {
    if xs != [] {
      var front, last := xs[..|xs| - 1], xs[|xs| - 1];
      ElementsCount(front);
      assert xs == front + [last];
      assert Elements(xs) == Elements(front) + {last};
    }
  }

  /** A number pushed out of a full memory belongs to a command that cannot arrive any
      more: everything remembered after it lies less than a queue away on either side,
      and those are fewer numbers than the memory holds. */
  lemma ForgottenCannotArrive(s: System, id: nat, forgotten: nat)
    requires LogInv(s) && MemoryInv(s.consumer.memory) && NearInv(s)
    requires s.channel != [] && StreamInv(s) && s.channel[0].id == id
    requires id !in s.consumer.memory.ids && |s.consumer.memory.order| == MEMORY_CAPACITY
    requires forgotten == s.consumer.memory.order[0]
    ensures !MayArrive(Step(s, Deliver), forgotten)
  {
    var order := s.consumer.memory.order + [id];
    var t := Step(s, Deliver);
    if MayArrive(t, forgotten) {
      forall x | x in order
        ensures forgotten - QUEUE_CAPACITY < x < forgotten + QUEUE_CAPACITY
      {
        NearForgotten(s, id, forgotten, x);
      }
      Pigeonhole(order, forgotten - QUEUE_CAPACITY + 1, forgotten + QUEUE_CAPACITY);
      assert false;
    }
  }

  lemma NearForgotten(s: System, id: nat, forgotten: nat, x: nat)
    requires LogInv(s) && MemoryInv(s.consumer.memory) && NearInv(s)
    requires s.channel != [] && StreamInv(s) && s.channel[0].id == id
    requires s.consumer.memory.order != [] && forgotten == s.consumer.memory.order[0]
    requires MayArrive(Step(s, Deliver), forgotten)
    requires x in s.consumer.memory.order || x == id
    ensures forgotten - QUEUE_CAPACITY < x < forgotten + QUEUE_CAPACITY
  {
    var order := s.consumer.memory.order;
    assert forgotten in order;
    if x in order {
      var k :| 0 <= k < |order| && order[k] == x;
      assert order[0] < order[k] + QUEUE_CAPACITY;
    }
    if Carries(s.channel[1..], forgotten) {
      var i :| 0 <= i < |s.channel[1..]| && s.channel[1..][i].id == forgotten;
      assert s.channel[i + 1].id == forgotten;
    } else if s.streamer.Sending? && Carries(s.streamer.batch, forgotten) {
      var i :| 0 <= i < |s.streamer.batch| && s.streamer.batch[i].id == forgotten;
    }
  }

  /** No command is applied twice, over any run of publishing, disconnecting, restarting
      the admin process and reconnecting; and the memory stays a bounded list with
      exactly its set of elements. */
  lemma AppliedAtMostOnce(events: seq<Event>)
    requires Possible(Initial, events)
    ensures Distinct(Run(Initial, events).consumer.applied)
    ensures var m := Run(Initial, events).consumer.memory;
            |m.order| <= 4_096 && Distinct(m.order) && forall id :: id in m.ids <==> id in m.order
  {
    SafeRun(Initial, events);
  }

  /** The memory is the last 4,096 ids applied. */
  ghost predicate RemembersLatest(c: Consumer) {
    && c.memory.order == c.applied[|c.applied| - Min(4_096, |c.applied|)..]
    && forall id :: id in c.memory.ids <==> id in c.memory.order
  }

  lemma ReceiveRemembers(c: Consumer, command: Command)
    requires RemembersLatest(c) && Distinct(c.memory.order)
    ensures RemembersLatest(Receive(c, command))
  {
    if command.id !in c.memory.ids && command.valid {
      var more := c.applied + [command.id];
      assert c.memory.order + [command.id] == more[|more| - Min(4_096, |c.applied|) - 1..];
      RememberIs(c.memory, command.id);
    }
  }

  lemma RememberIs(m: Memory, id: nat)
    requires id !in m.ids && Distinct(m.order) && forall o :: o in m.ids <==> o in m.order
    ensures var order := m.order + [id];
            Remember(m, id).order == if |order| > 4_096 then order[1..] else order
    ensures forall o :: o in Remember(m, id).ids <==> o in Remember(m, id).order
  {
    var order := m.order + [id];
    if |order| > 4_096 {
      forall o
        ensures o in order[1..] <==> o in order && o != order[0]
      {
        if o in order && o != order[0] {
          var i :| 0 <= i < |order| && order[i] == o;
          assert order[1..][i - 1] == o;
        }
        if o in order[1..] {
          var i :| 0 <= i < |order| - 1 && order[1..][i] == o;
          assert order[i + 1] == o;
        }
      }
    }
  }

  /** Over any run the consumer remembers exactly the last 4,096 ids it applied. */
  lemma {:induction false} MemoryIsLatest(s: System, events: seq<Event>)
    requires SafeInv(s) && RemembersLatest(s.consumer) && Possible(s, events)
    ensures RemembersLatest(Run(s, events).consumer)
    decreases |events|
  {
    if events != [] {
      SafeStep(s, events[0]);
      if events[0].Deliver? {
        ReceiveRemembers(s.consumer, s.channel[0]);
      }
      MemoryIsLatest(Step(s, events[0]), events[1..]);
    }
  }

  // ------------------------------------------------------------- no wake-up is lost

  /** A waiting streamer that nobody has woken or is about to wake has nothing to send. */
  ghost predicate WakeInv(s: System) {
    (s.streamer.Waiting? && !s.streamer.notified && s.unnotified == 0) ==>
      CommandsAfter(s.commands, s.streamer.cursor) == []
  }

  lemma {:induction false} WakeRun(s: System, events: seq<Event>)
    requires WakeInv(s) && Possible(s, events)
    ensures WakeInv(Run(s, events))
    decreases |events|
  {
    if events != [] {
      assert WakeInv(Step(s, events[0]));
      WakeRun(Step(s, events[0]), events[1..]);
    }
  }

  /** No wake-up is lost, over any run. */
  lemma NoLostWakeup(events: seq<Event>)
    requires Possible(Initial, events)
    ensures WakeInv(Run(Initial, events))
  {
    WakeRun(Initial, events);
  }

  // ------------------------------------------- in order and complete, one admin life

  /** The connection is up, everything sent has arrived and nobody is about to wake the
      streamer. */
  predicate Quiet(s: System) {
    s.streamer.Waiting? && !s.streamer.notified && s.unnotified == 0 && s.channel == []
  }

  /** Within one admin process, with the streamer at most a queue behind whenever it
      fetches. */
  ghost predicate KeepsUp(s: System, events: seq<Event>)
    requires Possible(s, events)
    decreases |events|
  {
    events == [] ||
    (&& !events[0].Restart?
     && (events[0].Fetch? ==> s.next - 1 - s.streamer.cursor <= 2_048)
     && KeepsUp(Step(s, events[0]), events[1..]))
  }

  function ValidIds(commands: seq<Command>): seq<nat> {
    if commands == [] then []
    else
      var command := commands[|commands| - 1];
      ValidIds(commands[..|commands| - 1]) + if command.valid then [command.id] else []
  }

  /** The consumer has received and applied a prefix of the log. */
  ghost predicate HasPrefix(c: Consumer, published: seq<Command>) {
    && c.after <= |published|
    && c.received == published[..c.after]
    && c.applied == ValidIds(c.received)
    && (forall id :: id in c.memory.ids ==> id < c.after)
  }

  /** The connection carries the log from `after` on, without gaps. */
  ghost predicate CarriesNext(streamer: Streamer, channel: seq<Command>, after: nat, published: seq<Command>) {
    match streamer
    case Disconnected => channel == []
    case _ =>
      && after <= streamer.cursor <= |published|
      && channel == published[after..streamer.cursor]
      && (streamer.Sending? ==>
            && streamer.cursor + |streamer.batch| <= |published|
            && streamer.batch == published[streamer.cursor..streamer.cursor + |streamer.batch|])
  }

  ghost predicate OrderInv(s: System) {
    && LogInv(s)
    && s.next - 1 == |s.published|
    && |s.commands| == Min(QUEUE_CAPACITY, |s.published|)
    && HasPrefix(s.consumer, s.published)
    && CarriesNext(s.streamer, s.channel, s.consumer.after, s.published)
  }

  /** The consumer has received exactly the first commands published, in sequence order
      and without gaps, and applied the valid ones of them; and when the connection is
      quiet it has received all of them. */
  lemma DeliveredInOrder(events: seq<Event>)
    requires Possible(Initial, events) && KeepsUp(Initial, events)
    ensures var s := Run(Initial, events);
            && s.consumer.received <= s.published
            && (forall i :: 0 <= i < |s.consumer.received| ==> s.consumer.received[i].sequence == i + 1)
            && s.consumer.applied == ValidIds(s.consumer.received)
            && (Quiet(s) ==> s.consumer.received == s.published)
  {
    StartInOrder(Initial);
    OrderRun(Initial, events);
    NoLostWakeup(events);
    Caught(Run(Initial, events));
  }

  /** A command that has left the log, is not on its way and has not been received. */
  ghost predicate Gone(s: System, id: nat) {
    && LogInv(s) && id < |s.published| - |s.commands|
    && !Carries(s.channel, id) && !Carries(s.consumer.received, id)
    && (s.streamer.Sending? ==> !Carries(s.streamer.batch, id))
  }

  /** Such a command is never received, whatever happens, restarts included. */
  lemma {:induction false} GoneForGood(s: System, id: nat, events: seq<Event>)
    requires Gone(s, id) && Possible(s, events)
    ensures Gone(Run(s, events), id)
    decreases |events|
  {
    if events != [] {
      GoneStep(s, id, events[0]);
      GoneForGood(Step(s, events[0]), id, events[1..]);
    }
  }

  /** Within one admin process, the consumer of a quiet connection has received everything
      exactly if no fetch came more than a queue late; otherwise a command is gone. */
  lemma CompleteIffKeepsUp(events: seq<Event>)
    requires Possible(Initial, events) && Restart !in events
    ensures var s := Run(Initial, events);
            && (Quiet(s) ==> (s.consumer.received == s.published <==> KeepsUp(Initial, events)))
            && (!KeepsUp(Initial, events) ==> exists id: nat :: Gone(s, id))
  {
    StartInOrder(Initial);
    KeepsUpOrGone(Initial, events);
    if KeepsUp(Initial, events) {
      DeliveredInOrder(events);
    } else {
      var s := Run(Initial, events);
      var id: nat :| Gone(s, id);
      assert s.published[id].id == id;
    }
  }

  function Publishes(n: nat): seq<Event> {
    if n == 0 then [] else [Publish(true)] + Publishes(n - 1)
  }

  /** A stalled streamer: 2,049 commands are published between its connection and its fetch,
      and one of them is gone. */
  lemma StalledStreamer() returns (events: seq<Event>)
    ensures Possible(Initial, events) && Restart !in events
    ensures exists id: nat :: Gone(Run(Initial, events), id)
  {
    events := StalledFor(2_049);
    CompleteIffKeepsUp(events);
  }

  lemma StalledFor(n: nat) returns (events: seq<Event>)
    requires n > QUEUE_CAPACITY
    ensures Possible(Initial, events) && Restart !in events && !KeepsUp(Initial, events)
  {
    var rest := Publishes(n) + [Fetch];
    events := [Connect, Arm] + rest;
    var s := Step(Initial, Connect);
    assert events[1..] == [Arm] + rest && events[1..][1..] == rest;
    Stalled(Step(s, Arm), n);
    assert Possible(s, events[1..]) && !KeepsUp(s, events[1..]);
  }

  lemma {:induction false} Stalled(s: System, n: nat)
    requires s.streamer == Armed(0, false) && s.next - 1 + n > QUEUE_CAPACITY
    ensures var events := Publishes(n) + [Fetch];
            Possible(s, events) && Restart !in events && !KeepsUp(s, events)
    decreases n
  {
    var events := Publishes(n) + [Fetch];
    if n == 0 {
      assert events == [Fetch];
    } else {
      assert events[1..] == Publishes(n - 1) + [Fetch];
      Stalled(Step(s, Publish(true)), n - 1);
    }
  }

  /** Completeness does not survive a restart of the admin process: here the consumer
      kept cursor 1 from the first process, and so never gets the first command of the
      second although the connection is quiet. */
  lemma StaleCursorSkipsCommand() returns (events: seq<Event>)
    ensures Possible(Initial, events)
    ensures var s := Run(Initial, events);
            && Quiet(s) && |s.published| == 2 && s.consumer.applied == [0]
  {
    events := FirstProcess();
    var s := Run(Initial, events);
    var a := s.published[0];
    var b := Command(1, 1, true);
    var t := s.(next := 1, commands := [], streamer := Disconnected);
    events := Extend(events, s, Restart, t);
    s, t := t, t.(next := 2, commands := [b], unnotified := 1, published := [a, b]);
    events := Extend(events, s, Publish(true), t);
    s, t := t, t.(unnotified := 0);
    events := Extend(events, s, Notify, t);
    s, t := t, t.(streamer := Ready(1));
    events := Extend(events, s, Connect, t);
    s, t := t, t.(streamer := Armed(1, false));
    events := Extend(events, s, Arm, t);
    assert CommandsAfter([b], 1) == [];
    s, t := t, t.(streamer := Waiting(1, false));
    events := Extend(events, s, Fetch, t);
  }

  lemma FirstProcess() returns (events: seq<Event>)
    ensures Possible(Initial, events)
    ensures var a := Command(0, 1, true);
            Run(Initial, events) == System(2, [a], 0, Ready(1), [], Consumer(1, Memory({0}, [0]), [0], [a]), [a])
  {
    var a := Command(0, 1, true);
    events := [];
    var s, t := Initial, Initial.(next := 2, commands := [a], unnotified := 1, published := [a]);
    events := Extend(events, s, Publish(true), t);
    s, t := t, t.(unnotified := 0);
    events := Extend(events, s, Notify, t);
    s, t := t, t.(streamer := Ready(0));
    events := Extend(events, s, Connect, t);
    s, t := t, t.(streamer := Armed(0, false));
    events := Extend(events, s, Arm, t);
    assert CommandsAfter([a], 0) == [a];
    s, t := t, t.(streamer := Sending(0, [a]));
    events := Extend(events, s, Fetch, t);
    s, t := t, t.(streamer := Ready(1), channel := [a]);
    events := Extend(events, s, Send, t);
    s, t := t, t.(channel := [], consumer := Consumer(1, Memory({0}, [0]), [0], [a]));
    events := Extend(events, s, Deliver, t);
  }

  // ------------------------------------------------- the proofs, one step after another

  lemma {:induction false} ThenEvent(from: System, events: seq<Event>, e: Event)
    requires Possible(from, events) && Enabled(Run(from, events), e)
    ensures Possible(from, events + [e]) && Run(from, events + [e]) == Step(Run(from, events), e)
    decreases |events|
  {
    if events == [] {
      assert events + [e] == [e];
    } else {
      ThenEvent(Step(from, events[0]), events[1..], e);
      assert (events + [e])[1..] == events[1..] + [e];
    }
  }

  lemma Extend(events: seq<Event>, s: System, e: Event, t: System) returns (longer: seq<Event>)
    requires Possible(Initial, events) && Run(Initial, events) == s
    requires Enabled(s, e) && Step(s, e) == t
    ensures longer == events + [e] && Possible(Initial, longer) && Run(Initial, longer) == t
  {
    ThenEvent(Initial, events, e);
    longer := events + [e];
  }

  lemma AppliedDeliver(s: System)
    requires SafeInv(s) && Enabled(s, Deliver)
    ensures AppliedInv(Step(s, Deliver))
  {
    var t := Step(s, Deliver);
    var command := s.channel[0];
    assert Carries(s.channel, command.id);
    if command.id !in s.consumer.memory.ids && command.valid {
      if |s.consumer.memory.order| == MEMORY_CAPACITY {
        ForgottenCannotArrive(s, command.id, s.consumer.memory.order[0]);
      }
      assert command.id !in s.consumer.applied;
    }
    forall a | a in s.consumer.applied && MayArrive(t, a)
      ensures a in s.consumer.memory.ids
    {
      if Carries(t.channel, a) {
        var i :| 0 <= i < |t.channel| && t.channel[i].id == a;
        assert s.channel[i + 1].id == a;
      }
    }
  }

  lemma AppliedOther(s: System, e: Event)
    requires SafeInv(s) && Enabled(s, e) && !e.Deliver?
    ensures AppliedInv(Step(s, e))
  {
    var t := Step(s, e);
    forall a | a in s.consumer.applied && MayArrive(t, a)
      ensures MayArrive(s, a)
    {
      if e.Fetch? {
        FetchIsSuffix(s, s.streamer.cursor);
      } else if e.Send? && Carries(t.channel, a) {
        var i :| 0 <= i < |t.channel| && t.channel[i].id == a;
        if i < |s.channel| {
          assert s.channel[i].id == a;
        } else {
          assert s.streamer.batch[0].id == a;
        }
      } else if e.Send? && t.streamer.Sending? && Carries(t.streamer.batch, a) {
        var i :| 0 <= i < |t.streamer.batch| && t.streamer.batch[i].id == a;
        assert s.streamer.batch[i + 1].id == a;
      }
    }
  }

  lemma SafeStep(s: System, e: Event)
    requires SafeInv(s) && Enabled(s, e)
    ensures SafeInv(Step(s, e))
  {
    LogStep(s, e);
    StreamStep(s, e);
    NearStep(s, e);
    if e.Deliver? {
      AppliedDeliver(s);
    } else {
      AppliedOther(s, e);
    }
  }

  lemma {:induction false} SafeRun(s: System, events: seq<Event>)
    requires SafeInv(s) && Possible(s, events)
    ensures SafeInv(Run(s, events))
    decreases |events|
  {
    if events != [] {
      SafeStep(s, events[0]);
      SafeRun(Step(s, events[0]), events[1..]);
    }
  }

  lemma GoneStep(s: System, id: nat, e: Event)
    requires Gone(s, id) && Enabled(s, e)
    ensures Gone(Step(s, e), id)
  {
    LogStep(s, e);
    match e
    case Fetch => NotFetched(s, id, s.streamer.cursor);
    case Send => assert s.streamer.batch[0].id != id;
    case Deliver => assert s.channel[0].id != id;
    case _ =>
  }

  /** A fetch does not bring back what has left the log. */
  lemma NotFetched(s: System, id: nat, cursor: nat)
    requires LogInv(s) && id < |s.published| - |s.commands|
    ensures !Carries(CommandsAfter(s.commands, cursor), id)
  {
    FetchIsSuffix(s, cursor);
  }

  /** The command next after the cursor, when a fetch comes too late for it. */
  lemma LateFetch(s: System)
    requires OrderInv(s) && s.streamer.Armed? && s.next - 1 - s.streamer.cursor > QUEUE_CAPACITY
    ensures Gone(s, s.streamer.cursor)
  {
    var id := s.streamer.cursor;
    assert forall i :: 0 <= i < |s.channel| ==> s.channel[i] == s.published[s.consumer.after + i];
    assert forall i :: 0 <= i < |s.consumer.received| ==> s.consumer.received[i] == s.published[i];
  }

  lemma {:induction false} KeepsUpOrGone(s: System, events: seq<Event>)
    requires OrderInv(s) && Possible(s, events) && Restart !in events
    ensures !KeepsUp(s, events) ==> exists id: nat :: Gone(Run(s, events), id)
    decreases |events|
  {
    if events != [] {
      if events[0].Fetch? && s.next - 1 - s.streamer.cursor > QUEUE_CAPACITY {
        LateFetch(s);
        GoneForGood(s, s.streamer.cursor, events);
      } else {
        assert events[0] != Restart;
        OrderStep(s, events[0]);
        KeepsUpOrGone(Step(s, events[0]), events[1..]);
        assert KeepsUp(s, events) == KeepsUp(Step(s, events[0]), events[1..]);
        assert Run(s, events) == Run(Step(s, events[0]), events[1..]);
      }
    }
  }

  lemma PrefixGrows(c: Consumer, published: seq<Command>)
    requires HasPrefix(c, published) && c.after < |published|
    requires published[c.after].id == c.after && published[c.after].sequence == c.after + 1
    ensures HasPrefix(Receive(c, published[c.after]), published)
    ensures Receive(c, published[c.after]).after == c.after + 1
  {
    var t := Receive(c, published[c.after]);
    assert t.received[..c.after] == c.received;
    assert t.received == published[..c.after + 1];
  }

  lemma OrderPublish(s: System, valid: bool)
    requires OrderInv(s)
    ensures OrderInv(Step(s, Publish(valid)))
  {
    LogStep(s, Publish(valid));
    var t := Step(s, Publish(valid));
    forall i, j | 0 <= i <= j <= |s.published|
      ensures t.published[i..j] == s.published[i..j]
    {
    }
    assert t.published[..s.consumer.after] == s.published[..s.consumer.after];
  }

  lemma OrderDeliver(s: System)
    requires OrderInv(s) && Enabled(s, Deliver)
    ensures OrderInv(Step(s, Deliver))
  {
    var after := s.consumer.after;
    assert s.channel[0] == s.published[after];
    assert s.published[after].id == after && s.published[after].sequence == after + 1;
    PrefixGrows(s.consumer, s.published);
  }

  lemma OrderSend(streamer: Streamer, channel: seq<Command>, after: nat, published: seq<Command>)
    requires CarriesNext(streamer, channel, after, published) && streamer.Sending? && streamer.batch != []
    requires streamer.cursor < |published| ==> published[streamer.cursor].sequence == streamer.cursor + 1
    ensures var command := streamer.batch[0];
            CarriesNext(if |streamer.batch| == 1 then Ready(command.sequence)
                        else Sending(command.sequence, streamer.batch[1..]),
                        channel + [command], after, published)
  {
    assert streamer.batch[0] == published[streamer.cursor];
    assert published[after..streamer.cursor] + [published[streamer.cursor]] == published[after..streamer.cursor + 1];
  }

  /** A streamer at most a queue behind gets everything beyond its cursor. */
  lemma FetchIsRest(s: System, cursor: nat)
    requires LogInv(s) && s.next - 1 == |s.published| && cursor <= |s.published|
    requires |s.commands| == Min(QUEUE_CAPACITY, |s.published|) && s.next - 1 - cursor <= QUEUE_CAPACITY
    ensures CommandsAfter(s.commands, cursor) == s.published[cursor..]
  {
    FetchIsSuffix(s, cursor);
  }

  lemma FetchedCarries(streamer: Streamer, batch: seq<Command>, channel: seq<Command>, after: nat,
                       published: seq<Command>)
    requires CarriesNext(streamer, channel, after, published) && streamer.Armed?
    requires batch == published[streamer.cursor..]
    ensures CarriesNext(if batch == [] then Waiting(streamer.cursor, streamer.notified)
                        else Sending(streamer.cursor, batch), channel, after, published)
  {
  }

  lemma OrderFetch(s: System)
    requires OrderInv(s) && Enabled(s, Fetch) && s.next - 1 - s.streamer.cursor <= QUEUE_CAPACITY
    ensures OrderInv(Step(s, Fetch))
  {
    var batch := CommandsAfter(s.commands, s.streamer.cursor);
    FetchIsRest(s, s.streamer.cursor);
    FetchedCarries(s.streamer, batch, s.channel, s.consumer.after, s.published);
    OnlyStreamer(s, Step(s, Fetch).streamer);
  }

  lemma OnlyStreamer(s: System, streamer: Streamer)
    requires OrderInv(s) && CarriesNext(streamer, s.channel, s.consumer.after, s.published)
    ensures OrderInv(s.(streamer := streamer))
  {
  }

  lemma OrderSends(s: System)
    requires OrderInv(s) && Enabled(s, Send)
    ensures OrderInv(Step(s, Send))
  {
    assert s.streamer.batch[0] == s.published[s.streamer.cursor];
    OrderSend(s.streamer, s.channel, s.consumer.after, s.published);
  }

  lemma OrderStep(s: System, e: Event)
    requires OrderInv(s) && Enabled(s, e) && !e.Restart?
    requires e.Fetch? ==> s.next - 1 - s.streamer.cursor <= QUEUE_CAPACITY
    ensures OrderInv(Step(s, e))
  {
    match e
    case Publish(valid) => OrderPublish(s, valid);
    case Fetch => OrderFetch(s);
    case Deliver => OrderDeliver(s);
    case Send => OrderSends(s);
    case Notify =>
    case Connect =>
    case Arm =>
    case Wake =>
    case Disconnect =>
  }

  lemma {:induction false} OrderRun(s: System, events: seq<Event>)
    requires OrderInv(s) && Possible(s, events) && KeepsUp(s, events)
    ensures OrderInv(Run(s, events))
    decreases |events|
  {
    if events != [] {
      OrderStep(s, events[0]);
      OrderRun(Step(s, events[0]), events[1..]);
    }
  }

  lemma PrefixStart(published: seq<Command>)
    requires published == []
    ensures HasPrefix(NewConsumer, published) && CarriesNext(Disconnected, [], 0, published)
  {
  }

  lemma StartInOrder(s: System)
    requires s.next == 1 && s.commands == [] && s.published == []
    requires s.streamer == Disconnected && s.channel == [] && s.consumer == NewConsumer
    ensures OrderInv(s)
  {
    LogStart(s);
    PrefixStart(s.published);
    assert HasPrefix(s.consumer, s.published) && s.consumer.after == 0;
  }

  lemma LogStart(s: System)
    requires s.next == 1 && s.commands == [] && s.published == []
    ensures LogInv(s)
  {
  }

  lemma Caught(s: System)
    requires OrderInv(s) && WakeInv(s)
    ensures s.consumer.received <= s.published && s.consumer.applied == ValidIds(s.consumer.received)
    ensures forall i :: 0 <= i < |s.consumer.received| ==> s.consumer.received[i].sequence == i + 1
    ensures Quiet(s) ==> s.consumer.received == s.published
  {
    if Quiet(s) {
      FetchIsSuffix(s, s.streamer.cursor);
      assert s.consumer.after == s.streamer.cursor;
    }
  }
}
