/** A connection left alone delivers what there is: in a bounded number of steps, in any
    order, it is quiet. */
module CommandDrain {
  import opened Common
  import opened CommandBus

  /** The steps of the connection and of publishers that have stored a command. */
  predicate IsWork(e: Event) {
    e.Notify? || e.Arm? || e.Fetch? || e.Wake? || e.Send? || e.Deliver?
  }

  predicate AllWork(events: seq<Event>) {
    forall i :: 0 <= i < |events| ==> IsWork(events[i])
  }

  /** Unless it is quiet, a connection can go on. */
  lemma GoesOn(s: System)
    requires !s.streamer.Disconnected? && !Quiet(s)
    requires s.streamer.Sending? ==> s.streamer.batch != []
    ensures exists e :: IsWork(e) && Enabled(s, e)
  {
    var e := if s.channel != [] then Deliver
             else if s.streamer.Ready? then Arm
             else if s.streamer.Armed? then Fetch
             else if s.streamer.Sending? then Send
             else if s.streamer.notified then Wake
             else Notify;
    assert IsWork(e) && Enabled(s, e);
  }

  /** The commands beyond a cursor, and what sending and delivering them takes. */
  function Beyond(s: System, cursor: nat): nat {
    var n := |CommandsAfter(s.commands, cursor)|;
    if n > 0 then 2 * n + 2 else 0
  }

  function Left(s: System): nat {
    match s.streamer
    case Disconnected => 0
    case Ready(cursor) => 2 + Beyond(s, cursor)
    case Armed(cursor, notified) => 1 + (if notified then 3 else 0) + Beyond(s, cursor)
    case Waiting(cursor, notified) => (if notified then 3 else 0) + Beyond(s, cursor)
    case Sending(cursor, batch) =>
      2 * |batch| + 2 + if batch == [] then 0 else Beyond(s, batch[|batch| - 1].sequence)
  }

  /** An upper bound on the steps there are to do. */
  function Remaining(s: System): nat {
    4 * s.unnotified + |s.channel| + Left(s)
  }

  ghost predicate Sound(s: System) {
    LogInv(s) && (s.streamer.Sending? ==> 0 < |s.streamer.batch| <= 2_048)
  }

  lemma FetchIsShort(s: System, cursor: nat)
    requires LogInv(s)
    ensures |CommandsAfter(s.commands, cursor)| <= 2_048
  {
    FetchIsSuffix(s, cursor);
  }

  /** A batch reaches to the end of the log. */
  lemma BatchIsRest(s: System, cursor: nat)
    requires LogInv(s)
    ensures var batch := CommandsAfter(s.commands, cursor);
            batch != [] ==> CommandsAfter(s.commands, batch[|batch| - 1].sequence) == []
  {
    FetchIsSuffix(s, cursor);
    FetchIsSuffix(s, s.next - 1);
  }

  lemma SoundStep(s: System, e: Event)
    requires Sound(s) && Enabled(s, e)
    ensures Sound(Step(s, e))
  {
    LogStep(s, e);
    if e.Fetch? {
      FetchIsShort(s, s.streamer.cursor);
    }
  }

  lemma FetchShrinks(s: System)
    requires Sound(s) && Enabled(s, Fetch)
    ensures Remaining(Step(s, Fetch)) < Remaining(s)
  {
    BatchIsRest(s, s.streamer.cursor);
  }

  lemma SendShrinks(s: System)
    requires Sound(s) && Enabled(s, Send)
    ensures Remaining(Step(s, Send)) < Remaining(s)
  {
  }

  lemma WorkShrinks(s: System, e: Event)
    requires Sound(s) && IsWork(e) && Enabled(s, e)
    ensures Remaining(Step(s, e)) < Remaining(s)
  {
    if e.Fetch? {
      FetchShrinks(s);
    } else if e.Send? {
      SendShrinks(s);
    }
  }

  lemma {:induction false} SoundRun(s: System, events: seq<Event>)
    requires Sound(s) && Possible(s, events)
    ensures Sound(Run(s, events))
    decreases |events|
  {
    if events != [] {
      SoundStep(s, events[0]);
      SoundRun(Step(s, events[0]), events[1..]);
    }
  }

  lemma {:induction false} WorkEnds(s: System, events: seq<Event>)
    requires Sound(s) && Possible(s, events) && AllWork(events)
    ensures |events| + Remaining(Run(s, events)) <= Remaining(s)
    ensures !s.streamer.Disconnected? ==> !Run(s, events).streamer.Disconnected?
    decreases |events|
  {
    if events != [] {
      SoundStep(s, events[0]);
      WorkShrinks(s, events[0]);
      WorkEnds(Step(s, events[0]), events[1..]);
    }
  }

  lemma RemainingIsFew(s: System)
    requires Sound(s)
    ensures Remaining(s) <= 4 * s.unnotified + |s.channel| + 8_196
  {
    match s.streamer
    case Ready(cursor) => FetchIsShort(s, cursor);
    case Armed(cursor, _) => FetchIsShort(s, cursor);
    case Waiting(cursor, _) => FetchIsShort(s, cursor);
    case Sending(_, batch) => FetchIsShort(s, batch[|batch| - 1].sequence);
    case Disconnected =>
  }

  /** After any run that leaves a connection up, publishers, streamer and consumer take at most
      so many more steps, whatever their order; and when none is left to take, the connection
      is quiet. */
  lemma QuietWithin(before: seq<Event>, events: seq<Event>)
    requires Possible(Initial, before) && Possible(Run(Initial, before), events) && AllWork(events)
    requires !Run(Initial, before).streamer.Disconnected?
    ensures var s := Run(Initial, before);
            |events| <= 4 * s.unnotified + |s.channel| + 8_196
    ensures var s := Run(Run(Initial, before), events);
            (forall e :: IsWork(e) ==> !Enabled(s, e)) ==> Quiet(s)
  {
    var s := Run(Initial, before);
    StartInOrder(Initial);
    SoundRun(Initial, before);
    WorkEnds(s, events);
    RemainingIsFew(s);
    SoundRun(s, events);
    var t := Run(s, events);
    if !Quiet(t) {
      GoesOn(t);
    }
  }

  // ------------------------------------------------------------------------- one connection

  function Deliveries(n: nat): seq<Event> {
    if n == 0 then [] else [Deliver] + Deliveries(n - 1)
  }

  lemma {:induction false} ReceiveFirst(c: Consumer, commands: seq<Command>)
    requires commands != []
    ensures ReceiveAll(c, commands) == ReceiveAll(Receive(c, commands[0]), commands[1..])
    decreases |commands|
  {
    var front := commands[..|commands| - 1];
    if front == [] {
      assert commands[1..] == [];
    } else {
      ReceiveFirst(c, front);
      assert commands[1..][..|commands| - 2] == front[1..];
    }
  }

  /** What the consumer makes of one connection's messages is what it makes of them as they
      arrive one by one. */
  lemma {:induction false} DeliveredOneByOne(s: System, n: nat)
    requires n <= |s.channel|
    ensures Possible(s, Deliveries(n)) && Run(s, Deliveries(n)).consumer == ReceiveAll(s.consumer, s.channel[..n])
    ensures Run(s, Deliveries(n)).channel == s.channel[n..]
    decreases n
  {
    if n > 0 {
      var t := Step(s, Deliver);
      DeliveredOneByOne(t, n - 1);
      ReceiveFirst(s.consumer, s.channel[..n]);
      assert s.channel[..n][1..] == t.channel[..n - 1];
      assert Deliveries(n)[1..] == Deliveries(n - 1);
    }
  }
}
