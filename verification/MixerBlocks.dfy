/** When a segment is opened and when it is ended, from the events alone. */
module MixerBlocks {
  import opened Common
  import opened RoomProtocol
  import opened RoomMixer
  import opened MixerRuns
  import opened MixerSpeech
  import P = MixerPacing

  /** The last `n` ticks had nothing to mix and nobody speaking. */
  ghost predicate LastTicksIdle(events: seq<Event>, n: nat) {
    n == 0 ||
    (events != [] &&
     var front, last := events[..|events| - 1], events[|events| - 1];
     if last.Tick? then !AnyWaiting(front) && !AnySpeaking(front) && LastTicksIdle(front, n - 1)
     else LastTicksIdle(front, n))
  }

  function EndReasons(out: seq<Sent>): seq<EndReason> {
    if out == [] then []
    else
      var last := out[|out| - 1].message;
      EndReasons(out[..|out| - 1]) + if last.End? && last.vadEnd.Some? then [last.vadEnd.value.reason] else []
  }

  function Starts(out: seq<Sent>): seq<Input> {
    if out == [] then []
    else
      var last := out[|out| - 1].message;
      Starts(out[..|out| - 1]) + if last.Start? then [last] else []
  }

  /** The segment's count of idle ticks is how many of the last ticks were idle. */
  ghost predicate Idles(segment: Option<MixedSegment>, events: seq<Event>) {
    segment.Some? ==> forall n: nat :: LastTicksIdle(events, n) <==> n <= segment.value.idleTicks
  }

  lemma IdleMore(events: seq<Event>, e: Event, n: nat)
    ensures LastTicksIdle(events + [e], n) <==>
            || n == 0
            || (if e.Tick? then !AnyWaiting(events) && !AnySpeaking(events) && LastTicksIdle(events, n - 1)
                else LastTicksIdle(events, n))
  {
    assert (events + [e])[..|events|] == events;
  }

  lemma {:induction false} SentTwo(a: seq<Sent>, b: seq<Sent>)
    ensures EndReasons(a + b) == EndReasons(a) + EndReasons(b) && Starts(a + b) == Starts(a) + Starts(b)
  {
    if b == [] {
      assert a + b == a;
    } else {
      assert (a + b)[..|a + b| - 1] == a + b[..|b| - 1];
      SentTwo(a, b[..|b| - 1]);
    }
  }

  lemma StampTwo(a: seq<Input>, b: seq<Input>, at: nat)
    ensures EndReasons(Stamp(a + b, at)) == EndReasons(Stamp(a, at)) + EndReasons(Stamp(b, at))
    ensures Starts(Stamp(a + b, at)) == Starts(Stamp(a, at)) + Starts(Stamp(b, at))
  {
    assert Stamp(a + b, at) == Stamp(a, at) + Stamp(b, at);
    SentTwo(Stamp(a, at), Stamp(b, at));
  }

  lemma StampOne(message: Input, at: nat)
    ensures EndReasons(Stamp([message], at)) ==
            if message.End? && message.vadEnd.Some? then [message.vadEnd.value.reason] else []
    ensures Starts(Stamp([message], at)) == if message.Start? then [message] else []
  {
    var out := Stamp([message], at);
    assert out == [Sent(message, at)] && out[..0] == [];
  }

  lemma FrameSends(segment: MixedSegment, heads: map<UserId, Frame>, people: map<UserId, Identity>, at: nat)
    requires heads != map[]
    ensures var out := Stamp(AddFrame(segment, heads, people).1, at); EndReasons(out) == [] && Starts(out) == []
  {
    var known := segment.speakers + people;
    var announcement := if |known| != |segment.speakers| then [Speakers(segment.id, known.Values)] else [];
    var frame := AddFrame(segment, heads, people).1[|announcement|];
    if announcement == [] {
      StampOne(frame, at);
      assert AddFrame(segment, heads, people).1 == [frame];
    } else {
      StampOne(announcement[0], at);
      StampOne(frame, at);
      StampTwo(announcement, [frame], at);
    }
  }

  lemma TickSegmentSends(m: Mixer, now: nat, freshId: SegmentId)
    ensures var out := Stamp(TickSegment(m, now, freshId).1, now);
            && EndReasons(out) == []
            && Starts(out) == if m.segment.None? && Heads(m.speakers) != map[]
                              then [Start(freshId, Some(MixerVad), m.config)] else []
  {
    var heads := Heads(m.speakers);
    var people := Identities(m.speakers, heads.Keys);
    if heads == map[] {
      assert Stamp(TickSegment(m, now, freshId).1, now) == [];
    } else if m.segment.Some? {
      FrameSends(m.segment.value, heads, people, now);
    } else {
      var blank := OpenSegment(m.config, freshId, now);
      FrameSends(blank, heads, people, now);
      StampOne(Start(freshId, Some(MixerVad), m.config), now);
      StampTwo([Start(freshId, Some(MixerVad), m.config)], AddFrame(blank, heads, people).1, now);
    }
  }

  lemma TickIdles(config: SessionConfig, events: seq<Event>, now: nat, freshId: SegmentId)
    requires Shutdown !in events && Idles(After(config, events).segment, events)
    ensures Idles(TickSegment(After(config, events), now, freshId).0, events + [Tick(now, freshId)])
  {
    var m := After(config, events);
    HeadsAre(config, events);
    if !AnyWaiting(events) {
      BusyIff(config, events);
    }
    forall n: nat
      ensures var segment := TickSegment(m, now, freshId).0;
              segment.Some? ==> (LastTicksIdle(events + [Tick(now, freshId)], n) <==> n <= segment.value.idleTicks)
    {
      IdleMore(events, Tick(now, freshId), n);
    }
  }

  lemma KeptSegment(m: Mixer, e: Event)
    ensures var next := Step(m, e).0.segment;
            next.None? || next == if e.Tick? && !m.stopped then TickSegment(m, e.now, e.freshId).0 else m.segment
  {
  }

  lemma CommandIdles(segment: Option<MixedSegment>, events: seq<Event>, e: Event)
    requires Idles(segment, events) && !e.Tick?
    ensures Idles(segment, events + [e])
  {
    forall n: nat
      ensures LastTicksIdle(events + [e], n) <==> LastTicksIdle(events, n)
    {
      IdleMore(events, e, n);
    }
  }

  lemma {:induction false} IdlesRun(config: SessionConfig, events: seq<Event>)
    requires Shutdown !in events
    ensures Idles(After(config, events).segment, events)
  {
    if events != [] {
      var front, last := events[..|events| - 1], events[|events| - 1];
      assert events == front + [last];
      IdlesRun(config, front);
      StoppedIff(config, front);
      KeptSegment(After(config, front), last);
      if last.Tick? {
        TickIdles(config, front, last.now, last.freshId);
      } else {
        CommandIdles(After(config, front).segment, front, last);
      }
    }
  }

  /** What a tick is to do with the block that is open, or that it opens. */
  datatype Block = Block(open: bool, startedAt: nat, longest: nat)

  ghost function BlockAt(config: SessionConfig, events: seq<Event>, now: nat): Block {
    match TraceOf(config, events)
    case Open(_, _, of, startedAt, _, _, _) => Block(true, startedAt, of.maxUtteranceSeconds)
    case _ => Block(AnyWaiting(events), now, ConfigOf(config, events).maxUtteranceSeconds)
  }

  lemma TickSends(m: Mixer, now: nat, freshId: SegmentId)
    ensures var segment := TickSegment(m, now, freshId).0;
            var out := Stamp(TickStep(m, now, freshId).1, now);
            && (segment.None? ==> EndReasons(out) == [])
            && (segment.Some? && now >= segment.value.startedAt ==>
                  var due := now >= segment.value.startedAt + 1_000 * segment.value.config.maxUtteranceSeconds;
                  var quiet := segment.value.idleTicks >= 12;
                  && EndReasons(out) == (if due then [MaxDuration] else if quiet then [Silence] else [])
                  && (TickStep(m, now, freshId).0.segment.Some? <==> !due && !quiet))
            && Starts(out) == if m.segment.None? && Heads(m.speakers) != map[]
                              then [Start(freshId, Some(MixerVad), m.config)] else []
  {
    var (segment, messages) := TickSegment(m, now, freshId);
    var closing := CloseIfDue(segment, now).1;
    TickSegmentSends(m, now, freshId);
    StampTwo(messages, closing, now);
    if closing == [] {
      assert Stamp(closing, now) == [];
    } else {
      StampOne(closing[0], now);
    }
  }

  lemma BlockIsSegment(config: SessionConfig, events: seq<Event>, now: nat, freshId: SegmentId)
    requires P.WellTimed(events + [Tick(now, freshId)]) && Shutdown !in events
    ensures var b := BlockAt(config, events, now);
            var segment := TickSegment(After(config, events), now, freshId).0;
            && (segment.Some? <==> b.open) && b.startedAt <= now
            && (segment.Some? ==>
                  segment.value.startedAt == b.startedAt && segment.value.config.maxUtteranceSeconds == b.longest)
  {
    assert (events + [Tick(now, freshId)])[..|events|] == events;
    SpeakersAre(config, events, 0);
    HeadsAre(config, events);
    TraceRun(config, events);
    P.FramesOnTime(config, events);
  }

  /** A tick opens a block exactly if none is open and a frame is waiting. It ends the block
      that is then open as too long exactly if its longest duration, in seconds, has passed
      since its start, and for silence exactly if it has not, and each of the last 12 ticks
      had nothing to mix and nobody speaking. Otherwise the block stays open. */
  lemma TickEnds(config: SessionConfig, events: seq<Event>, now: nat, freshId: SegmentId)
    requires P.WellTimed(events + [Tick(now, freshId)]) && Shutdown !in events
    ensures var all := events + [Tick(now, freshId)];
            var b := BlockAt(config, events, now);
            var due, quiet := now >= b.startedAt + 1_000 * b.longest, LastTicksIdle(all, 12);
            && EndReasons(LastSent(config, all)) ==
                 (if b.open && due then [MaxDuration] else if b.open && quiet then [Silence] else [])
            && (TraceOf(config, all).Open? <==> b.open && !due && !quiet)
            && Starts(LastSent(config, all)) ==
                 if b.open && !TraceOf(config, events).Open?
                 then [Start(freshId, Some(VadStart(true, 16_000, 512, 0)), ConfigOf(config, events))] else []
  {
    var m, all := After(config, events), events + [Tick(now, freshId)];
    assert all[..|events|] == events;
    BlockIsSegment(config, events, now, freshId);
    TickSends(m, now, freshId);
    IdlesRun(config, events);
    TickIdles(config, events, now, freshId);
    TickLeaves(config, events, now, freshId);
  }

  lemma OpenIff(config: SessionConfig, events: seq<Event>)
    requires FreshIds(events)
    ensures TraceOf(config, events).Open? <==> After(config, events).segment.Some?
  {
    TraceRun(config, events);
  }

  lemma TickSent(config: SessionConfig, events: seq<Event>, now: nat, freshId: SegmentId)
    requires Shutdown !in events
    ensures var m, all := After(config, events), events + [Tick(now, freshId)];
            && LastSent(config, all) == Stamp(TickStep(m, now, freshId).1, now)
            && After(config, all) == TickStep(m, now, freshId).0
  {
    assert (events + [Tick(now, freshId)])[..|events|] == events;
    StoppedIff(config, events);
  }

  lemma TickLeaves(config: SessionConfig, events: seq<Event>, now: nat, freshId: SegmentId)
    requires FreshIds(events) && FreshIds(events + [Tick(now, freshId)]) && Shutdown !in events
    ensures var m, all := After(config, events), events + [Tick(now, freshId)];
            && LastSent(config, all) == Stamp(TickStep(m, now, freshId).1, now)
            && (TraceOf(config, all).Open? <==> TickStep(m, now, freshId).0.segment.Some?)
            && (TraceOf(config, events).Open? <==> m.segment.Some?)
            && m.config == ConfigOf(config, events)
            && (Heads(m.speakers) != map[] <==> AnyWaiting(events))
  {
    TickSent(config, events, now, freshId);
    OpenIff(config, events);
    OpenIff(config, events + [Tick(now, freshId)]);
    SpeakersAre(config, events, 0);
    HeadsAre(config, events);
  }

  /** A shutdown ends the open block as manual; no other command ends or opens one, and after
      a shutdown nothing is sent at all. */
  lemma CommandEnds(config: SessionConfig, events: seq<Event>, e: Event)
    requires FreshIds(events) && (e.Tick? ==> Shutdown in events)
    ensures var all := events + [e];
            && EndReasons(LastSent(config, all)) ==
                 (if e.Shutdown? && TraceOf(config, events).Open? then [Manual] else [])
            && Starts(LastSent(config, all)) == []
            && (Shutdown in events ==> LastSent(config, all) == [] && !TraceOf(config, events).Open?)
  {
    var m, all := After(config, events), events + [e];
    assert all[..|events|] == events;
    StoppedIff(config, events);
    TraceRun(config, events);
    var at := Clock(all).GetOr(0);
    if Step(m, e).1 == [] {
      assert Stamp([], at) == [];
    } else {
      assert Step(m, e).1 == [Step(m, e).1[0]];
      StampOne(Step(m, e).1[0], at);
    }
  }
}
