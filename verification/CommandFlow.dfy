/** The commands of one admin process on their way to a consumer that may come with a cursor
    of the process before. As long as none is lost, the consumer has received the first so
    many, and what is in flight goes on with them or repeats some. A command is lost in two
    ways: a connection starts from a cursor beyond it, or a fetch comes after it has left the
    log; from then on no step brings it back. */
module CommandFlow {
  import opened Common
  import opened CommandBus

  /** The ids received of the process whose first command has id `base`. */
  ghost function ReceivedFrom(received: seq<Command>, base: nat): set<int> {
    if received == [] then {}
    else
      var last := received[|received| - 1];
      ReceivedFrom(received[..|received| - 1], base) + (if last.id >= base then {last.id} else {})
  }

  lemma {:induction false} ReceivedFromIff(received: seq<Command>, base: nat, id: int)
    ensures id in ReceivedFrom(received, base) <==>
            exists i :: 0 <= i < |received| && received[i].id == id && id >= base
  {
    if received != [] {
      var front := received[..|received| - 1];
      ReceivedFromIff(front, base, id);
      if id in ReceivedFrom(front, base) {
        var i :| 0 <= i < |front| && front[i].id == id && id >= base;
        assert received[i].id == id;
      } else if exists i :: 0 <= i < |received| && received[i].id == id && id >= base {
        var i :| 0 <= i < |received| && received[i].id == id && id >= base;
        assert i < |front| ==> front[i].id == id;
      }
    }
  }

  // -------------------------------------------------------------- how a command is lost

  /** A connection made now would keep the cursor although a command up to it has not
      arrived: fewer of this process's commands have than the cursor counts. */
  ghost predicate SkipsAt(s: System, base: nat) {
    |ReceivedFrom(s.consumer.received, base)| < s.consumer.after <= s.next - 1
  }

  /** A fetch made now would come too late: the log has moved more than a queue beyond both
      the cursor and what has arrived. */
  ghost predicate LateAt(s: System, base: nat)
    requires !s.streamer.Disconnected?
  {
    s.next - 1 - Max(s.streamer.cursor, |ReceivedFrom(s.consumer.received, base)|) > 2_048
  }

  ghost predicate LosesAt(s: System, base: nat, e: Event)
    requires Enabled(s, e)
  {
    (e.Connect? && SkipsAt(s, base)) || (e.Fetch? && LateAt(s, base))
  }

  ghost predicate NeverLoses(s: System, events: seq<Event>, base: nat)
    requires Possible(s, events)
    decreases |events|
  {
    events == [] || (!LosesAt(s, base, events[0]) && NeverLoses(Step(s, events[0]), events[1..], base))
  }

  // ---------------------------------------------------------- this process's commands

  /** This process's log and numbers begin at `base`. */
  ghost predicate Begun(s: System, base: nat) {
    && LogInv(s) && StreamInv(s)
    && base <= |s.published| && s.next - 1 == |s.published| - base
    && |s.commands| == Min(QUEUE_CAPACITY, s.next - 1)
  }

  lemma BegunStep(s: System, base: nat, e: Event)
    requires Begun(s, base) && Enabled(s, e) && !e.Restart?
    ensures Begun(Step(s, e), base)
  {
    LogStep(s, e);
    StreamStep(s, e);
  }

  /** Commands of this process, from the one with id `low` on. */
  ghost predicate Numbered(xs: seq<Command>, base: nat, low: nat) {
    forall i :: 0 <= i < |xs| ==> xs[i].id >= low && xs[i].sequence == xs[i].id - base + 1
  }

  /** Each command is one up to `next` or follows its predecessor. */
  ghost predicate NoGap(xs: seq<Command>, next: nat) {
    && (xs != [] ==> xs[0].id <= next)
    && forall i :: 0 < i < |xs| ==> xs[i].id <= next || xs[i].id == xs[i - 1].id + 1
  }

  /** What a fetch gets of this process: consecutive commands, from the cursor or the
      beginning of the log on. */
  lemma FetchedOurs(s: System, base: nat, cursor: nat)
    requires Begun(s, base)
    ensures var batch := CommandsAfter(s.commands, cursor);
            var from := base + Max(cursor, s.next - 1 - |s.commands|);
            && Numbered(batch, base, from)
            && forall i :: 0 <= i < |batch| ==> batch[i].id == from + i
  {
    FetchIsSuffix(s, cursor);
    var from := base + Max(cursor, s.next - 1 - |s.commands|);
    SuffixOurs(s, base, from);
    assert Min(|s.published|, Max(|s.published| - |s.commands|, base + cursor)) == Min(|s.published|, from);
  }

  lemma SuffixOurs(s: System, base: nat, from: nat)
    requires Begun(s, base) && base <= from
    ensures var batch := s.published[Min(|s.published|, from)..];
            Numbered(batch, base, from) && forall i :: 0 <= i < |batch| ==> batch[i].id == from + i
  {
  }

  // ------------------------------------------------------------------ while none is lost

  /** What has been sent is up to the cursor, and what is in flight leaves no gap. */
  ghost predicate Flows(s: System, base: nat, r: nat)
    requires !s.streamer.Disconnected?
  {
    && Numbered(InFlight(s), base, base) && NoGap(InFlight(s), base + r)
    && (if s.channel == [] then s.streamer.cursor <= r
        else s.streamer.cursor == s.channel[|s.channel| - 1].sequence)
  }

  /** The consumer has received the first `r` of this process's commands, and the connection
      carries on with them or repeats some; without one only older commands are in flight. */
  ghost predicate HasFirst(s: System, base: nat, r: nat) {
    && Begun(s, base) && r <= s.next - 1 && r <= s.consumer.after
    && ReceivedFrom(s.consumer.received, base) == Range(base, base + r)
    && |ReceivedFrom(s.consumer.received, base)| == r
    && (if s.streamer.Disconnected? then forall i :: 0 <= i < |s.channel| ==> s.channel[i].id < base
        else Flows(s, base, r))
  }

  lemma ReceivedSnoc(received: seq<Command>, command: Command, base: nat)
    ensures ReceivedFrom(received + [command], base) ==
            ReceivedFrom(received, base) + (if command.id >= base then {command.id} else {})
  {
    assert (received + [command])[..|received|] == received;
  }

  /** Receiving the next command makes the first so many one more; one of those is received
      again to no effect, and so is an older one. */
  lemma ReceivedNext(received: seq<Command>, command: Command, base: nat, r: nat)
    requires ReceivedFrom(received, base) == Range(base, base + r) && command.id <= base + r
    ensures var more := if command.id == base + r then r + 1 else r;
            && ReceivedFrom(received + [command], base) == Range(base, base + more)
            && |ReceivedFrom(received + [command], base)| == more
  {
    var ids := ReceivedFrom(received, base);
    ReceivedSnoc(received, command, base);
    if command.id < base {
      assert ids + {} == ids;
    }
  }

  lemma NoGapRest(xs: seq<Command>, next: nat)
    requires xs != [] && NoGap(xs, next)
    ensures xs[0].id <= next && NoGap(xs[1..], if xs[0].id == next then next + 1 else next)
  {
    assert forall i :: 0 <= i < |xs| - 1 ==> xs[1..][i] == xs[i + 1];
  }

  lemma NoGapConcat(xs: seq<Command>, ys: seq<Command>, next: nat)
    requires NoGap(xs, next) && forall i :: 0 <= i < |ys| ==> ys[i].id == ys[0].id + i
    requires ys != [] ==> ys[0].id <= next || (xs != [] && ys[0].id == xs[|xs| - 1].id + 1)
    ensures NoGap(xs + ys, next)
  {
  }

  lemma NumberedConcat(xs: seq<Command>, ys: seq<Command>, base: nat, low: nat)
    requires Numbered(xs, base, low) && Numbered(ys, base, low)
    ensures Numbered(xs + ys, base, low)
  {
  }

  lemma InFlightAfterDeliver(s: System)
    requires s.channel != []
    ensures InFlight(s) != [] && InFlight(s)[0] == s.channel[0]
    ensures InFlight(Step(s, Deliver)) == InFlight(s)[1..]
  {
  }

  lemma InFlightAfterSend(s: System)
    requires Enabled(s, Send)
    ensures InFlight(Step(s, Send)) == InFlight(s)
    ensures InFlight(s)[|s.channel|] == s.streamer.batch[0] && |s.channel| < |InFlight(s)|
  {
    var batch := s.streamer.batch;
    Associate(s.channel, [batch[0]], batch[1..]);
    assert [batch[0]] + batch[1..] == batch;
  }

  lemma InFlightAfterFetch(s: System)
    requires Enabled(s, Fetch)
    ensures InFlight(s) == s.channel
    ensures InFlight(Step(s, Fetch)) == s.channel + CommandsAfter(s.commands, s.streamer.cursor)
  {
  }

  lemma FlowsDeliver(s: System, base: nat, r: nat)
    requires s.channel != [] && !s.streamer.Disconnected? && Flows(s, base, r)
    ensures base <= s.channel[0].id <= base + r
    ensures Flows(Step(s, Deliver), base, if s.channel[0].id == base + r then r + 1 else r)
  {
    var more := if s.channel[0].id == base + r then r + 1 else r;
    InFlightAfterDeliver(s);
    NoGapRest(InFlight(s), base + r);
    NumberedRest(InFlight(s), base, base);
    FlowsFrom(s, Step(s, Deliver), base, r, more);
  }

  lemma FlowsFrom(s: System, t: System, base: nat, r: nat, more: nat)
    requires s.channel != [] && !s.streamer.Disconnected? && Flows(s, base, r)
    requires t.streamer == s.streamer && t.channel == s.channel[1..]
    requires Numbered(InFlight(t), base, base) && NoGap(InFlight(t), base + more)
    requires r <= more && s.channel[0].sequence <= more
    ensures Flows(t, base, more)
  {
  }

  lemma HasFirstDeliver(s: System, base: nat, r: nat)
    requires HasFirst(s, base, r) && Enabled(s, Deliver)
    ensures exists more: nat :: HasFirst(Step(s, Deliver), base, more)
  {
    BegunStep(s, base, Deliver);
    if s.streamer.Disconnected? {
      HasFirstReceived(s, Step(s, Deliver), base, r, r);
    } else {
      FlowsDeliver(s, base, r);
      OldestSent(s, base);
      HasFirstReceived(s, Step(s, Deliver), base, r, if s.channel[0].id == base + r then r + 1 else r);
    }
  }

  lemma HasFirstReceived(s: System, t: System, base: nat, r: nat, more: nat)
    requires HasFirst(s, base, r) && s.channel != [] && Begun(t, base) && t.next == s.next
    requires t.streamer == s.streamer && t.channel == s.channel[1..]
    requires t.consumer.received == s.consumer.received + [s.channel[0]]
    requires t.consumer.after == Max(s.consumer.after, s.channel[0].sequence)
    requires s.channel[0].id <= base + r && more == if s.channel[0].id == base + r then r + 1 else r
    requires more <= s.next - 1 && (more == r || more <= s.channel[0].sequence)
    requires !t.streamer.Disconnected? ==> Flows(t, base, more)
    ensures HasFirst(t, base, more)
  {
    ReceivedNext(s.consumer.received, s.channel[0], base, r);
  }

  lemma OldestSent(s: System, base: nat)
    requires Begun(s, base) && s.channel != [] && !s.streamer.Disconnected? && Numbered(InFlight(s), base, base)
    ensures s.channel[0].sequence == s.channel[0].id - base + 1 <= s.next - 1
  {
    assert InFlight(s)[0] == s.channel[0];
  }

  lemma FlowsSend(s: System, base: nat, r: nat)
    requires Enabled(s, Send) && Flows(s, base, r)
    ensures Flows(Step(s, Send), base, r)
  {
    InFlightAfterSend(s);
  }

  /** What a fetch gets begins with a command that arrived, or where the connection is. */
  lemma FetchFollows(s: System, base: nat, r: nat)
    requires Begun(s, base) && Enabled(s, Fetch) && Flows(s, base, r)
    requires s.next - 1 - |s.commands| <= Max(s.streamer.cursor, r)
    ensures var batch := CommandsAfter(s.commands, s.streamer.cursor);
            && Numbered(batch, base, base)
            && (forall i :: 0 <= i < |batch| ==> batch[i].id == batch[0].id + i)
            && (batch != [] ==>
                  || batch[0].id <= base + r
                  || (s.channel != [] && batch[0].id == s.channel[|s.channel| - 1].id + 1))
  {
    FetchedOurs(s, base, s.streamer.cursor);
    if s.channel != [] {
      LastSent(s, base, r);
    }
  }

  lemma FlowsFetch(s: System, base: nat, r: nat)
    requires Begun(s, base) && Enabled(s, Fetch) && Flows(s, base, r)
    requires s.next - 1 - |s.commands| <= Max(s.streamer.cursor, r)
    ensures Flows(Step(s, Fetch), base, r)
  {
    InFlightAfterFetch(s);
    FetchFollows(s, base, r);
    NumberedConcat(s.channel, CommandsAfter(s.commands, s.streamer.cursor), base, base);
    NoGapConcat(s.channel, CommandsAfter(s.commands, s.streamer.cursor), base + r);
  }

  lemma LastSent(s: System, base: nat, r: nat)
    requires !s.streamer.Disconnected? && Flows(s, base, r) && s.channel != []
    ensures s.channel[|s.channel| - 1].id + 1 == base + s.streamer.cursor
  {
    assert InFlight(s)[|s.channel| - 1] == s.channel[|s.channel| - 1];
  }

  lemma FlowsOther(s: System, base: nat, r: nat, e: Event)
    requires !s.streamer.Disconnected? && Flows(s, base, r) && Enabled(s, e)
    requires e.Publish? || e.Notify? || e.Arm? || e.Wake?
    ensures var t := Step(s, e); !t.streamer.Disconnected? && Flows(t, base, r)
  {
    assert InFlight(Step(s, e)) == InFlight(s);
  }

  lemma FlowsConnect(s: System, base: nat, r: nat)
    requires Enabled(s, Connect) && r <= s.next - 1 && r <= s.consumer.after
    requires |ReceivedFrom(s.consumer.received, base)| == r && !SkipsAt(s, base)
    ensures var t := Step(s, Connect); !t.streamer.Disconnected? && Flows(t, base, r)
  {
    assert InFlight(Step(s, Connect)) == [];
  }

  lemma FetchInTime(s: System, base: nat, r: nat)
    requires Begun(s, base) && Enabled(s, Fetch) && |ReceivedFrom(s.consumer.received, base)| == r && !LateAt(s, base)
    ensures s.next - 1 - |s.commands| <= Max(s.streamer.cursor, r)
  {
  }

  /** Without a connection, or after it is lost. */
  lemma StaysOlder(s: System, base: nat, e: Event)
    requires s.streamer.Disconnected? || e.Disconnect?
    requires s.streamer.Disconnected? ==> forall i :: 0 <= i < |s.channel| ==> s.channel[i].id < base
    requires Enabled(s, e) && !e.Connect? && !e.Deliver? && !e.Restart?
    ensures var t := Step(s, e);
            t.streamer.Disconnected? && forall i :: 0 <= i < |t.channel| ==> t.channel[i].id < base
  {
  }

  /** The connection after a step at which nothing arrives. */
  lemma ConnectionStep(s: System, base: nat, r: nat, e: Event)
    requires HasFirst(s, base, r) && Enabled(s, e) && !e.Restart? && !e.Deliver? && !LosesAt(s, base, e)
    ensures var t := Step(s, e);
            if t.streamer.Disconnected? then forall i :: 0 <= i < |t.channel| ==> t.channel[i].id < base
            else Flows(t, base, r)
  {
    if e.Connect? {
      FlowsConnect(s, base, r);
    } else if s.streamer.Disconnected? || e.Disconnect? {
      StaysOlder(s, base, e);
    } else if e.Fetch? {
      FetchInTime(s, base, r);
      FlowsFetch(s, base, r);
    } else if e.Send? {
      FlowsSend(s, base, r);
    } else {
      FlowsOther(s, base, r, e);
    }
  }

  lemma HasFirstStep(s: System, base: nat, r: nat, e: Event)
    requires HasFirst(s, base, r) && Enabled(s, e) && !e.Restart? && !LosesAt(s, base, e)
    ensures exists more: nat :: HasFirst(Step(s, e), base, more)
  {
    if e.Deliver? {
      HasFirstDeliver(s, base, r);
    } else {
      BegunStep(s, base, e);
      ConnectionStep(s, base, r, e);
      assert Step(s, e).consumer == s.consumer && Step(s, e).next >= s.next;
      assert HasFirst(Step(s, e), base, r);
    }
  }

  // --------------------------------------------------------------------- once one is lost

  /** A command that the consumer has not received and no connection will carry: its number
      is not beyond the cursor it starts from. */
  ghost predicate Skipped(s: System, base: nat, lost: nat) {
    && Begun(s, base) && base <= lost < base + s.consumer.after && s.consumer.after <= s.next - 1
    && lost !in ReceivedFrom(s.consumer.received, base)
    && (if s.streamer.Disconnected? then s.channel == []
        else s.streamer.cursor > lost - base && Numbered(InFlight(s), base, lost + 1))
  }

  lemma SkippedDeliver(s: System, base: nat, lost: nat)
    requires Skipped(s, base, lost) && Enabled(s, Deliver)
    ensures Skipped(Step(s, Deliver), base, lost)
  {
    BegunStep(s, base, Deliver);
    InFlightAfterDeliver(s);
    NumberedRest(InFlight(s), base, lost + 1);
    OldestSent(s, base);
    SkippedReceived(s, Step(s, Deliver), base, lost);
  }

  lemma SkippedReceived(s: System, t: System, base: nat, lost: nat)
    requires Skipped(s, base, lost) && s.channel != [] && Begun(t, base)
    requires !s.streamer.Disconnected? && t.streamer == s.streamer && Numbered(InFlight(t), base, lost + 1)
    requires s.channel[0].id > lost && s.channel[0].sequence <= s.next - 1 == t.next - 1
    requires t.consumer.received == s.consumer.received + [s.channel[0]]
    requires t.consumer.after == Max(s.consumer.after, s.channel[0].sequence)
    ensures Skipped(t, base, lost)
  {
    ReceivedSnoc(s.consumer.received, s.channel[0], base);
  }

  lemma NumberedRest(xs: seq<Command>, base: nat, low: nat)
    requires xs != [] && Numbered(xs, base, low)
    ensures Numbered(xs[1..], base, low) && xs[0].id >= low
  {
  }

  lemma SkippedSend(s: System, base: nat, lost: nat)
    requires Skipped(s, base, lost) && Enabled(s, Send)
    ensures Skipped(Step(s, Send), base, lost)
  {
    BegunStep(s, base, Send);
    InFlightAfterSend(s);
  }

  lemma SkippedFetch(s: System, base: nat, lost: nat)
    requires Skipped(s, base, lost) && Enabled(s, Fetch)
    ensures Skipped(Step(s, Fetch), base, lost)
  {
    BegunStep(s, base, Fetch);
    FetchedOurs(s, base, s.streamer.cursor);
    InFlightAfterFetch(s);
  }

  lemma SkippedStep(s: System, base: nat, lost: nat, e: Event)
    requires Skipped(s, base, lost) && Enabled(s, e) && !e.Restart?
    ensures Skipped(Step(s, e), base, lost)
  {
    if e.Deliver? {
      SkippedDeliver(s, base, lost);
    } else if e.Send? {
      SkippedSend(s, base, lost);
    } else if e.Fetch? {
      SkippedFetch(s, base, lost);
    } else {
      BegunStep(s, base, e);
      assert InFlight(Step(s, e)) == if e.Connect? || e.Disconnect? then [] else InFlight(s);
    }
  }

  lemma {:induction false} SkippedRun(s: System, events: seq<Event>, base: nat, lost: nat)
    requires Skipped(s, base, lost) && Possible(s, events) && Restart !in events
    ensures Skipped(Run(s, events), base, lost)
    decreases |events|
  {
    if events != [] {
      assert events[0] != Restart;
      SkippedStep(s, base, lost, events[0]);
      SkippedRun(Step(s, events[0]), events[1..], base, lost);
    }
  }

  /** A command of this process that was published and never arrives. */
  ghost predicate Lost(s: System, base: nat, id: nat) {
    base <= id < |s.published| && id !in ReceivedFrom(s.consumer.received, base)
  }

  /** A connection that skips a command loses it. */
  lemma SkippedFrom(s: System, base: nat, r: nat)
    requires HasFirst(s, base, r) && Enabled(s, Connect) && SkipsAt(s, base)
    ensures Skipped(Step(s, Connect), base, base + r)
  {
    BegunStep(s, base, Connect);
    assert InFlight(Step(s, Connect)) == [];
  }

  lemma SkippedIsLost(s: System, base: nat, id: nat, events: seq<Event>)
    requires Skipped(s, base, id) && Possible(s, events) && Restart !in events
    ensures Lost(Run(s, events), base, id)
  {
    SkippedRun(s, events, base, id);
    SkippedNow(Run(s, events), base, id);
  }

  lemma SkippedNow(s: System, base: nat, id: nat)
    requires Skipped(s, base, id)
    ensures Lost(s, base, id)
  {
  }

  /** A late fetch loses the command next after the cursor and what has arrived. */
  lemma LateIsGone(s: System, base: nat, r: nat)
    requires HasFirst(s, base, r) && Enabled(s, Fetch) && LateAt(s, base)
    ensures Gone(s, base + Max(s.streamer.cursor, r))
  {
    NotReceived(s, base, base + Max(s.streamer.cursor, r));
  }

  lemma GoneIsLost(s: System, base: nat, id: nat, events: seq<Event>)
    requires Gone(s, id) && base <= id && Possible(s, events)
    ensures Lost(Run(s, events), base, id)
  {
    GoneForGood(s, id, events);
    ReceivedFromIff(Run(s, events).consumer.received, base, id);
  }

  lemma NotReceived(s: System, base: nat, id: nat)
    requires id >= base && id !in ReceivedFrom(s.consumer.received, base)
    ensures !Carries(s.consumer.received, id)
  {
    ReceivedFromIff(s.consumer.received, base, id);
  }

  lemma RunFirst(s: System, events: seq<Event>)
    requires Possible(s, events) && events != []
    ensures Enabled(s, events[0]) && Possible(Step(s, events[0]), events[1..])
    ensures Run(s, events) == Run(Step(s, events[0]), events[1..])
  {
  }

  lemma LossIsFinal(s: System, events: seq<Event>, base: nat, r: nat)
    requires HasFirst(s, base, r) && Possible(s, events) && Restart !in events
    requires events != [] && LosesAt(s, base, events[0])
    ensures exists id: nat :: Lost(Run(s, events), base, id)
  {
    if events[0].Connect? {
      RunFirst(s, events);
      SkippedFrom(s, base, r);
      SkippedIsLost(Step(s, Connect), base, base + r, events[1..]);
    } else {
      LateIsGone(s, base, r);
      GoneIsLost(s, base, base + Max(s.streamer.cursor, r), events);
    }
  }

  lemma {:induction false} RestartRun(s: System, events: seq<Event>, base: nat, r: nat)
    requires HasFirst(s, base, r) && Possible(s, events) && Restart !in events
    ensures if NeverLoses(s, events, base) then exists more: nat :: HasFirst(Run(s, events), base, more)
            else exists id: nat :: Lost(Run(s, events), base, id)
    decreases |events|
  {
    if events == [] {
      assert HasFirst(Run(s, events), base, r);
    } else {
      assert events[0] != Restart;
      if LosesAt(s, base, events[0]) {
        assert !NeverLoses(s, events, base);
        LossIsFinal(s, events, base, r);
      } else {
        HasFirstStep(s, base, r, events[0]);
        var more: nat :| HasFirst(Step(s, events[0]), base, more);
        RestartRun(Step(s, events[0]), events[1..], base, more);
        assert NeverLoses(s, events, base) == NeverLoses(Step(s, events[0]), events[1..], base);
        assert Run(s, events) == Run(Step(s, events[0]), events[1..]);
      }
    }
  }
}
