/** When the mixer sends its frames: the first with the start of a segment, the others in
    later 32 ms periods and not beyond the longest duration. */
module MixerPacing {
  import opened Audio
  import opened Common
  import opened RoomProtocol
  import opened RoomMixer
  import opened MixerRuns

  /** A late tick is followed by one in a later 32 ms period. */
  ghost predicate Spaced(events: seq<Event>) {
    events == [] ||
    (var front, last := events[..|events| - 1], events[|events| - 1];
     && Spaced(front)
     && (last.Tick? && Clock(front).Some? ==> Slot(Clock(front).value) < Slot(last.now)))
  }

  ghost predicate WellTimed(events: seq<Event>) {
    FreshIds(events) && Spaced(events)
  }

  /** The open block had its frames by the last tick, and was not at its longest then. */
  ghost predicate Current(t: Trace, clock: Option<nat>) {
    t.Open? ==>
      && clock.Some? && t.frames > 0
      && t.startedAt <= t.lastFrameAt <= clock.value < t.startedAt + 1_000 * t.config.maxUtteranceSeconds
  }

  lemma TwoOnTime(t: Trace, a: seq<Input>, b: seq<Input>, at: nat)
    ensures AllOnTime(t, Stamp(a + b, at)) ==
            (AllOnTime(t, Stamp(a, at)) && AllOnTime(AcceptAll(t, Stamp(a, at)), Stamp(b, at)))
  {
    assert Stamp(a + b, at) == Stamp(a, at) + Stamp(b, at);
    OnTimeConcat(t, Stamp(a, at), Stamp(b, at));
  }

  lemma NoFrameOnTime(t: Trace, messages: seq<Input>, at: nat)
    requires messages == [] || (|messages| == 1 && !messages[0].PcmFrame?)
    ensures AllOnTime(t, Stamp(messages, at))
  {
    if messages == [] {
      assert Stamp(messages, at) == [];
    } else {
      assert Stamp(messages, at) == [Sent(messages[0], at)];
    }
  }

  lemma OneOnTime(t: Trace, message: Input, at: nat)
    requires OnTime(t, Sent(message, at))
    ensures AllOnTime(t, Stamp([message], at))
  {
    var out := Stamp([message], at);
    assert out == [Sent(message, at)] && AcceptAll(t, out[..0]) == t;
  }

  /** A frame and the announcement before it. */
  lemma AddFrameOnTime(segment: MixedSegment, heads: map<UserId, Frame>, people: map<UserId, Identity>,
                       t: Trace, now: nat)
    requires heads != map[] && people.Keys == heads.Keys && FiledMap(people)
    requires Matches(Some(segment), t) && FrameDue(t, now)
    ensures AllOnTime(t, Stamp(AddFrame(segment, heads, people).1, now))
  {
    var known := segment.speakers + people;
    var announcement := if |known| != |segment.speakers| then [Speakers(segment.id, known.Values)] else [];
    var frame := PcmFrame(EncodeFrame(Mixed(heads)));
    var u :| u in heads;
    assert u in people;
    AnnounceAccepted(segment, people, t, now);
    NoFrameOnTime(t, announcement, now);
    OneOnTime(AcceptAll(t, Stamp(announcement, now)), frame, now);
    TwoOnTime(t, announcement, [frame], now);
  }

  /** After a tick's frames, before it may close the segment. */
  ghost predicate Reached(t: Trace, now: nat) {
    t.Open? ==> t.frames > 0 && t.startedAt <= t.lastFrameAt <= now
  }

  lemma TickSegmentOnTime(m: Mixer, t: Trace, clock: Option<nat>, now: nat, freshId: SegmentId)
    requires Filed(m) && Matches(m.segment, t) && Current(t, clock) && freshId !in t.used
    requires clock.Some? ==> Slot(clock.value) < Slot(now)
    ensures var messages := TickSegment(m, now, freshId).1;
            AllOnTime(t, Stamp(messages, now)) && Reached(AcceptAll(t, Stamp(messages, now)), now)
  {
    var heads := Heads(m.speakers);
    var people := Identities(m.speakers, heads.Keys);
    IdentitiesFiled(m.speakers, heads.Keys);
    if heads == map[] {
      assert Stamp([], now) == [];
    } else if m.segment.Some? {
      assert Slot(t.lastFrameAt) <= Slot(clock.value);
      AddFrameOnTime(m.segment.value, heads, people, t, now);
      AddFrameAccepted(m.segment.value, heads, people, t, now);
    } else {
      FirstOnTime(m, t, heads, people, now, freshId);
    }
  }

  /** The start and first frame of a segment. */
  lemma FirstOnTime(m: Mixer, t: Trace, heads: map<UserId, Frame>, people: map<UserId, Identity>,
                    now: nat, freshId: SegmentId)
    requires heads != map[] && people.Keys == heads.Keys && FiledMap(people)
    requires t.Closed? && freshId !in t.used
    ensures var messages := [Start(freshId, Some(MixerVad), m.config)]
                            + AddFrame(OpenSegment(m.config, freshId, now), heads, people).1;
            AllOnTime(t, Stamp(messages, now)) && Reached(AcceptAll(t, Stamp(messages, now)), now)
  {
    var start := Start(freshId, Some(MixerVad), m.config);
    var blank := OpenSegment(m.config, freshId, now);
    var messages := AddFrame(blank, heads, people).1;
    var t1 := Accept(t, Sent(start, now));
    assert Users({}) == {};
    OneSent(t, start, now);
    OneOnTime(t, start, now);
    AddFrameOnTime(blank, heads, people, t1, now);
    AddFrameAccepted(blank, heads, people, t1, now);
    TwoOnTime(t, [start], messages, now);
    TwoSent(t, [start], messages, now);
  }

  lemma CloseOnTime(segment: Option<MixedSegment>, t: Trace, now: nat)
    requires Matches(segment, t) && Reached(t, now)
    ensures var messages := CloseIfDue(segment, now).1;
            AllOnTime(t, Stamp(messages, now)) && Current(AcceptAll(t, Stamp(messages, now)), Some(now))
  {
    var messages := CloseIfDue(segment, now).1;
    NoFrameOnTime(t, messages, now);
    if messages == [] {
      assert Stamp(messages, now) == [];
    } else {
      OneSent(t, messages[0], now);
    }
  }

  lemma TickOnTime(m: Mixer, t: Trace, clock: Option<nat>, now: nat, freshId: SegmentId)
    requires Filed(m) && Matches(m.segment, t) && Current(t, clock) && freshId !in t.used
    requires clock.Some? ==> Slot(clock.value) < Slot(now)
    ensures var messages := TickStep(m, now, freshId).1;
            AllOnTime(t, Stamp(messages, now)) && Current(AcceptAll(t, Stamp(messages, now)), Some(now))
  {
    var (segment, messages) := TickSegment(m, now, freshId);
    var closing := CloseIfDue(segment, now).1;
    TickSegmentOnTime(m, t, clock, now, freshId);
    TickSegmentAccepted(m, t, now, freshId);
    CloseOnTime(segment, AcceptAll(t, Stamp(messages, now)), now);
    TwoOnTime(t, messages, closing, now);
    TwoSent(t, messages, closing, now);
  }

  lemma StepOnTime(m: Mixer, t: Trace, ids: set<SegmentId>, clock: Option<nat>, e: Event)
    requires Agree(m, t, ids) && Current(t, clock)
    requires e.Tick? ==> e.freshId !in ids && (clock.Some? ==> Slot(clock.value) < Slot(e.now))
    ensures var next := if e.Tick? then Some(e.now) else clock;
            var out := Stamp(Step(m, e).1, next.GetOr(0));
            AllOnTime(t, out) && Current(AcceptAll(t, out), next)
  {
    var messages := Step(m, e).1;
    if e.Tick? && !m.stopped {
      TickOnTime(m, t, clock, e.now, e.freshId);
    } else {
      NoFrameOnTime(t, messages, (if e.Tick? then Some(e.now) else clock).GetOr(0));
      if messages != [] {
        OneSent(t, messages[0], clock.GetOr(0));
      }
    }
  }

  /** With ticks spaced out, every frame is sent when it is due, over every run. */
  lemma {:induction false} FramesOnTime(config: SessionConfig, events: seq<Event>)
    requires WellTimed(events)
    ensures AllOnTime(Closed({}), Output(config, events)) && Current(TraceOf(config, events), Clock(events))
  {
    if events != [] {
      var front, last := events[..|events| - 1], events[|events| - 1];
      FramesOnTime(config, front);
      TraceRun(config, front);
      StepOnTime(After(config, front), TraceOf(config, front), TickIds(front), Clock(front), last);
      OnTimeConcat(Closed({}), Output(config, front), LastSent(config, events));
      AcceptConcat(Closed({}), Output(config, front), LastSent(config, events));
    }
  }
}
