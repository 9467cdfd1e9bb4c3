/** What reaches the consumer of one admin process after a restart, and what is applied. */
module CommandRestart {
  import opened CommandBus
  import opened CommandFlow

  // ------------------------------------------------------------------------- the theorem

  /** What a restart finds in flight and received is of earlier processes. */
  ghost predicate OnlyOlder(s: System) {
    && StreamInv(s) && LogInv(s)
    && forall i :: 0 <= i < |s.consumer.received| ==> s.consumer.received[i].id < |s.published|
  }

  lemma {:induction false} OlderRun(s: System, events: seq<Event>)
    requires OnlyOlder(s) && Possible(s, events)
    ensures OnlyOlder(Run(s, events))
    decreases |events|
  {
    if events != [] {
      LogStep(s, events[0]);
      StreamStep(s, events[0]);
      OlderRun(Step(s, events[0]), events[1..]);
    }
  }

  lemma RestartHasNone(s: System)
    requires OnlyOlder(s)
    ensures HasFirst(Step(s, Restart), |s.published|, 0)
  {
    var base := |s.published|;
    forall id ensures id !in ReceivedFrom(s.consumer.received, base) {
      ReceivedFromIff(s.consumer.received, base, id);
    }
    assert Range(base, base) == {};
    LogStep(s, Restart);
    StreamStep(s, Restart);
  }

  /** Everything a process publishes, up to now. */
  ghost predicate ReceivedAll(s: System, base: nat) {
    forall id :: base <= id < |s.published| ==> id in ReceivedFrom(s.consumer.received, base)
  }

  lemma QuietHasAll(s: System, base: nat, r: nat)
    requires HasFirst(s, base, r) && WakeInv(s) && Quiet(s)
    ensures ReceivedAll(s, base)
  {
    FetchIsSuffix(s, s.streamer.cursor);
  }

  /** When the connection is quiet after these events, the consumer has received every
      command of the process exactly if no connection was made with a cursor that the
      process's numbers had reached but that counts more of its commands than had arrived,
      and no fetch came when the log had moved beyond both the cursor and what had arrived.
      Without these, those received are at any time the first so many. */
  ghost predicate CompleteExactlyIfNoneLost(s: System, events: seq<Event>, base: nat)
    requires Possible(s, events)
  {
    var t := Run(s, events);
    var ids := ReceivedFrom(t.consumer.received, base);
    && (Quiet(t) ==> (ReceivedAll(t, base) <==> NeverLoses(s, events, base)))
    && (NeverLoses(s, events, base) ==> base + |ids| <= |t.published| && ids == Range(base, base + |ids|))
  }

  /** After any run and a restart, for whatever happens until the next. */
  lemma CompleteAfterRestartIff(before: seq<Event>, events: seq<Event>)
    requires Possible(Initial, before)
    requires Possible(Step(Run(Initial, before), Restart), events) && Restart !in events
    ensures var s := Step(Run(Initial, before), Restart);
            CompleteExactlyIfNoneLost(s, events, |s.published|)
  {
    var s := Step(Run(Initial, before), Restart);
    OlderRun(Initial, before);
    RestartHasNone(Run(Initial, before));
    WakeAfter(before, events);
    CompleteIff(s, events, |s.published|);
  }

  lemma CompleteIff(s: System, events: seq<Event>, base: nat)
    requires HasFirst(s, base, 0) && Possible(s, events) && Restart !in events && WakeInv(Run(s, events))
    ensures CompleteExactlyIfNoneLost(s, events, base)
  {
    RestartRun(s, events, base, 0);
    var t := Run(s, events);
    if NeverLoses(s, events, base) {
      var r: nat :| HasFirst(t, base, r);
      if Quiet(t) {
        QuietHasAll(t, base, r);
      }
    } else {
      var id: nat :| Lost(t, base, id);
      assert !ReceivedAll(t, base);
    }
  }

  lemma WakeAfter(before: seq<Event>, events: seq<Event>)
    requires Possible(Initial, before)
    requires Possible(Step(Run(Initial, before), Restart), events)
    ensures WakeInv(Run(Step(Run(Initial, before), Restart), events))
  {
    NoLostWakeup(before);
    WakeRun(Step(Run(Initial, before), Restart), events);
  }

  // ---------------------------------------------------------------- received is applied

  ghost predicate ReceivedApplied(c: Consumer) {
    && (forall id :: id in c.memory.ids ==> id in c.applied)
    && (forall i :: 0 <= i < |c.received| && c.received[i].valid ==> c.received[i].id in c.applied)
  }

  lemma {:induction false} AppliedRun(s: System, events: seq<Event>)
    requires ReceivedApplied(s.consumer) && Possible(s, events)
    ensures ReceivedApplied(Run(s, events).consumer)
    decreases |events|
  {
    if events != [] {
      AppliedRun(Step(s, events[0]), events[1..]);
    }
  }

  /** Over any run with any restarts, every valid command received has been applied. */
  lemma ValidAreApplied(events: seq<Event>)
    requires Possible(Initial, events)
    ensures var c := Run(Initial, events).consumer;
            forall i :: 0 <= i < |c.received| && c.received[i].valid ==> c.received[i].id in c.applied
  {
    AppliedRun(Initial, events);
  }

  // --------------------------------------------------------------- a replay is not enough

  lemma TwoDelivered() returns (events: seq<Event>)
    ensures Possible(Initial, events)
    ensures var a, b := Command(0, 1, true), Command(1, 2, true);
            Run(Initial, events) ==
            System(3, [a, b], 0, Ready(2), [], Consumer(2, Memory({0, 1}, [0, 1]), [0, 1], [a, b]), [a, b])
  {
    events := FirstProcess();
    var a, b := Command(0, 1, true), Command(1, 2, true);
    var s := Run(Initial, events);
    var t := s.(next := 3, commands := [a, b], unnotified := 1, published := [a, b]);
    events := Extend(events, s, Publish(true), t);
    s, t := t, t.(unnotified := 0);
    events := Extend(events, s, Notify, t);
    s, t := t, t.(streamer := Armed(1, false));
    events := Extend(events, s, Arm, t);
    BeyondOne(a, b);
    s, t := t, t.(streamer := Sending(1, [b]));
    events := Extend(events, s, Fetch, t);
    s, t := t, t.(streamer := Ready(2), channel := [b]);
    events := Extend(events, s, Send, t);
    s, t := t, t.(channel := [], consumer := Consumer(2, Memory({0, 1}, [0, 1]), [0, 1], [a, b]));
    events := Extend(events, s, Deliver, t);
  }

  lemma BeyondOne(a: Command, b: Command)
    requires a.sequence == 1 && b.sequence == 2
    ensures CommandsAfter([a, b], 1) == [b] && CommandsAfter([a, b], 2) == []
  {
    CommandsAfterIsSuffix([a, b], 1, 1);
    CommandsAfterIsSuffix([a, b], 1, 2);
  }

  /** The one command of the new process is replayed, as the kept cursor is beyond it. */
  lemma Replayed(before: seq<Event>, start: System, a: Command, b: Command, c: Command) returns (all: seq<Event>)
    requires Possible(Initial, before) && Run(Initial, before) == start && c == Command(2, 1, true)
    requires start ==
             System(2, [c], 1, Disconnected, [], Consumer(2, Memory({0, 1}, [0, 1]), [0, 1], [a, b]), [a, b, c])
    ensures before <= all && Possible(Initial, all)
    ensures Run(Initial, all) ==
            System(2, [c], 0, Ready(1), [], Consumer(2, Memory({0, 1, 2}, [0, 1, 2]), [0, 1, 2], [a, b, c]), [a, b, c])
  {
    var s, t := start, start.(unnotified := 0);
    all := Extend(before, s, Notify, t);
    s, t := t, t.(streamer := Ready(0));
    all := Extend(all, s, Connect, t);
    s, t := t, t.(streamer := Armed(0, false));
    all := Extend(all, s, Arm, t);
    assert CommandsAfter([c], 0) == [c];
    s, t := t, t.(streamer := Sending(0, [c]));
    all := Extend(all, s, Fetch, t);
    s, t := t, t.(streamer := Ready(1), channel := [c]);
    all := Extend(all, s, Send, t);
    s, t := t, t.(channel := [], consumer := Consumer(2, Memory({0, 1, 2}, [0, 1, 2]), [0, 1, 2], [a, b, c]));
    all := Extend(all, s, Deliver, t);
  }

  /** The next connection starts from the kept cursor, which the numbers have reached. */
  lemma SkippedThen(before: seq<Event>, start: System, a: Command, b: Command, c: Command, d: Command)
      returns (all: seq<Event>)
    requires Possible(Initial, before) && Run(Initial, before) == start
    requires c == Command(2, 1, true) && d == Command(3, 2, true)
    requires start ==
             System(2, [c], 0, Ready(1), [], Consumer(2, Memory({0, 1, 2}, [0, 1, 2]), [0, 1, 2], [a, b, c]), [a, b, c])
    ensures before <= all && Possible(Initial, all)
    ensures var s := Run(Initial, all);
            Quiet(s) && |s.published| == 4 && s.consumer.applied == [0, 1, 2]
  {
    var s, t := start, start.(streamer := Disconnected);
    all := Extend(before, s, Disconnect, t);
    s, t := t, t.(next := 3, commands := [c, d], unnotified := 1, published := [a, b, c, d]);
    all := Extend(all, s, Publish(true), t);
    s, t := t, t.(unnotified := 0);
    all := Extend(all, s, Notify, t);
    s, t := t, t.(streamer := Ready(2));
    all := Extend(all, s, Connect, t);
    s, t := t, t.(streamer := Armed(2, false));
    all := Extend(all, s, Arm, t);
    BeyondOne(c, d);
    s, t := t, t.(streamer := Waiting(2, false));
    all := Extend(all, s, Fetch, t);
  }

  lemma RestartedWithOne() returns (before: seq<Event>)
    ensures Possible(Initial, before)
    ensures var a, b, c := Command(0, 1, true), Command(1, 2, true), Command(2, 1, true);
            Run(Initial, before) ==
            System(2, [c], 1, Disconnected, [], Consumer(2, Memory({0, 1}, [0, 1]), [0, 1], [a, b]), [a, b, c])
  {
    before := TwoDelivered();
    var a, b, c := Command(0, 1, true), Command(1, 2, true), Command(2, 1, true);
    var s := Run(Initial, before);
    var t := s.(next := 1, commands := [], streamer := Disconnected);
    before := Extend(before, s, Restart, t);
    s, t := t, t.(next := 2, commands := [c], unnotified := 1, published := [a, b, c]);
    before := Extend(before, s, Publish(true), t);
  }

  /** The first connection after the restart replays the whole log of the new process, since
      the kept cursor 2 is beyond its one command; but the cursor stays 2, and the second
      connection, made when there are two, passes over the second for good. */
  lemma ReplayIsNotEnough() returns (before: seq<Event>, events: seq<Event>)
    ensures Possible(Initial, before) && Possible(Initial, before + events)
    ensures var s := Run(Initial, before);
            s.next >= 1 &&
            CommandsAfter(s.commands, StartCursor(s.next, s.consumer.after)) == s.commands == [Command(2, 1, true)]
    ensures var s := Run(Initial, before + events);
            Quiet(s) && |s.published| == 4 && s.consumer.applied == [0, 1, 2]
  {
    before := RestartedWithOne();
    var a, b, c, d := Command(0, 1, true), Command(1, 2, true), Command(2, 1, true), Command(3, 2, true);
    assert CommandsAfter([c], 0) == [c];
    var replayed := Replayed(before, Run(Initial, before), a, b, c);
    var all := SkippedThen(replayed, Run(Initial, replayed), a, b, c, d);
    events := all[|before|..];
    assert before + events == all;
  }
}
