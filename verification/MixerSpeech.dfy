/** Who is speaking in a room and what waits to be mixed, from the events alone. */
module MixerSpeech {
  import opened Audio
  import opened Common
  import opened RoomProtocol
  import opened RoomMixer
  import opened MixerRuns

  /** The user has begun, and has neither finished nor been removed since. */
  ghost predicate Speaking(events: seq<Event>, u: UserId) {
    exists i ::
      && 0 <= i < |events| && events[i].Begin? && events[i].speaker.userId == Some(u)
      && forall j :: i < j < |events| ==> events[j] != Finish(u) && events[j] != RemoveSpeaker(u)
  }

  /** The identity under which the user last began, unless removed since. */
  function Name(events: seq<Event>, u: UserId): Option<Identity> {
    if events == [] then None
    else
      var front, last := events[..|events| - 1], events[|events| - 1];
      if last.Begin? && last.speaker.userId == Some(u) then Some(last.speaker)
      else if last == RemoveSpeaker(u) then None
      else Name(front, u)
  }

  /** The user's frames that have come in while they spoke, at most 48 at a time, and have
      neither been mixed, one at each tick, nor gone with their removal. */
  ghost function Waiting(events: seq<Event>, u: UserId): seq<Frame> {
    if events == [] then []
    else
      var front, last := events[..|events| - 1], events[|events| - 1];
      var before := Waiting(front, u);
      match last
      case Hear(user, bytes) =>
        if user == u && Speaking(front, u) && |before| < 48 && DecodeFrame(bytes).Some?
        then before + [DecodeFrame(bytes).value] else before
      case Tick(_, _) => if before == [] then [] else before[1..]
      case RemoveSpeaker(user) => if user == u then [] else before
      case _ => before
  }

  /** The configuration last set. */
  function ConfigOf(initial: SessionConfig, events: seq<Event>): SessionConfig {
    if events == [] then initial
    else
      var last := events[|events| - 1];
      if last.SetConfig? then last.config else ConfigOf(initial, events[..|events| - 1])
  }

  lemma SpeakingMore(events: seq<Event>, e: Event, u: UserId)
    ensures Speaking(events + [e], u) <==>
            || (e.Begin? && e.speaker.userId == Some(u))
            || (Speaking(events, u) && e != Finish(u) && e != RemoveSpeaker(u))
  {
    var more := events + [e];
    if e.Begin? && e.speaker.userId == Some(u) {
      assert more[|events|] == e;
    } else if Speaking(events, u) && e != Finish(u) && e != RemoveSpeaker(u) {
      var i :| && 0 <= i < |events| && events[i].Begin? && events[i].speaker.userId == Some(u)
               && forall j :: i < j < |events| ==> events[j] != Finish(u) && events[j] != RemoveSpeaker(u);
      assert more[i] == events[i];
    }
    if Speaking(more, u) && !(e.Begin? && e.speaker.userId == Some(u)) {
      var i :| && 0 <= i < |more| && more[i].Begin? && more[i].speaker.userId == Some(u)
               && forall j :: i < j < |more| ==> more[j] != Finish(u) && more[j] != RemoveSpeaker(u);
      assert i < |events| && more[|events|] == e && events[i] == more[i];
      assert forall j :: 0 <= j < |events| ==> more[j] == events[j];
    }
  }

  /** What the mixer keeps of a user. */
  ghost predicate KeptOf(m: Mixer, u: UserId, name: Option<Identity>, speaking: bool, waiting: seq<Frame>) {
    && (u in m.speakers <==> name.Some?)
    && (if u in m.speakers then m.speakers[u] == SpeakerStream(name.value, speaking, waiting)
        else !speaking && waiting == [])
  }

  lemma KeptStep(m: Mixer, e: Event, u: UserId, name: Option<Identity>, speaking: bool, waiting: seq<Frame>)
    requires KeptOf(m, u, name, speaking, waiting) && !m.stopped && !e.Shutdown?
    ensures var begins := e.Begin? && e.speaker.userId == Some(u);
            KeptOf(Step(m, e).0, u,
                   if begins then Some(e.speaker) else if e == RemoveSpeaker(u) then None else name,
                   begins || (speaking && e != Finish(u) && e != RemoveSpeaker(u)),
                   match e
                   case Hear(user, bytes) =>
                     if user == u && speaking && |waiting| < 48 && DecodeFrame(bytes).Some?
                     then waiting + [DecodeFrame(bytes).value] else waiting
                   case Tick(_, _) => if waiting == [] then [] else waiting[1..]
                   case RemoveSpeaker(user) => if user == u then [] else waiting
                   case _ => waiting)
  {
    if e.Tick? {
      assert Step(m, e).0.speakers == PopHeads(m.speakers);
    }
  }

  /** At any time before a shutdown the mixer's speakers are those who began and were not
      removed, each marked as speaking exactly if they are, with the frames that wait. */
  lemma {:induction false} SpeakersAre(config: SessionConfig, events: seq<Event>, u: UserId)
    requires Shutdown !in events
    ensures var m := After(config, events);
            && !m.stopped && KeptOf(m, u, Name(events, u), Speaking(events, u), Waiting(events, u))
            && m.config == ConfigOf(config, events)
  {
    if events != [] {
      var front, last := events[..|events| - 1], events[|events| - 1];
      assert events == front + [last];
      SpeakersAre(config, front, u);
      SpeakingMore(front, last, u);
      KeptStep(After(config, front), last, u, Name(front, u), Speaking(front, u), Waiting(front, u));
    }
  }

  /** A frame is accepted exactly if it is well formed, its user is speaking, and fewer than
      48 of theirs are waiting. */
  lemma AcceptedIff(config: SessionConfig, events: seq<Event>, u: UserId, bytes: seq<Byte>)
    requires Shutdown !in events
    ensures Accepts(After(config, events), u, bytes) <==>
            |bytes| == 1_024 && Speaking(events, u) && |Waiting(events, u)| < 48
    ensures Accepts(After(config, events), u, bytes) ==>
              NewlyAccepted(After(config, events), Hear(u, bytes), u) == [DecodeFrame(bytes).value]
  {
    SpeakersAre(config, events, u);
  }

  /** Somebody's frame is waiting. */
  ghost predicate AnyWaiting(events: seq<Event>) {
    exists u :: Waiting(events, u) != []
  }

  ghost predicate AnySpeaking(events: seq<Event>) {
    exists u :: Speaking(events, u)
  }

  /** A tick takes exactly the first waiting frame of everyone who has one. */
  lemma HeadsAre(config: SessionConfig, events: seq<Event>)
    requires Shutdown !in events
    ensures var heads := Heads(After(config, events).speakers);
            && (heads != map[] <==> AnyWaiting(events))
            && forall u :: u in heads <==> Waiting(events, u) != []
    ensures forall u :: Waiting(events, u) != [] ==>
              Heads(After(config, events).speakers)[u] == Waiting(events, u)[0]
  {
    var heads := Heads(After(config, events).speakers);
    forall u
      ensures u in heads <==> Waiting(events, u) != []
      ensures Waiting(events, u) != [] ==> heads[u] == Waiting(events, u)[0]
    {
      SpeakersAre(config, events, u);
    }
    if heads != map[] {
      var u :| u in heads;
      assert Waiting(events, u) != [];
    }
  }

  lemma BusyIff(config: SessionConfig, events: seq<Event>)
    requires Shutdown !in events && !AnyWaiting(events)
    ensures Busy(PopHeads(After(config, events).speakers)) <==> AnySpeaking(events)
  {
    var speakers := After(config, events).speakers;
    forall u
      ensures Waiting(events, u) == [] && (u in speakers ==> speakers[u].frames == [])
      ensures u in speakers && speakers[u].active <==> Speaking(events, u)
    {
      SpeakersAre(config, events, u);
    }
    if AnySpeaking(events) {
      var u :| Speaking(events, u);
      assert u in PopHeads(speakers) && PopHeads(speakers)[u].active;
    }
  }

  /** A tick's mix is of exactly the frames that wait first. */
  lemma MixesAre(config: SessionConfig, events: seq<Event>, now: nat, freshId: SegmentId)
    requires Shutdown !in events
    ensures var before, after := Mixes(config, events), Mixes(config, events + [Tick(now, freshId)]);
            if !AnyWaiting(events) then after == before
            else
              && |after| == |before| + 1 && after[..|before|] == before
              && forall u :: (u in after[|before|] <==> Waiting(events, u) != [])
                             && (u in after[|before|] ==> after[|before|][u] == Waiting(events, u)[0])
  {
    assert (events + [Tick(now, freshId)])[..|events|] == events;
    HeadsAre(config, events);
    StoppedIff(config, events);
  }

  lemma StoppedStep(m: Mixer, e: Event)
    ensures Step(m, e).0.stopped <==> m.stopped || e.Shutdown?
  {
  }

  /** Only a shutdown stops the mixer. */
  lemma {:induction false} StoppedIff(config: SessionConfig, events: seq<Event>)
    ensures After(config, events).stopped <==> Shutdown in events
  {
    if events != [] {
      var front, last := events[..|events| - 1], events[|events| - 1];
      assert events == front + [last];
      StoppedIff(config, front);
      StoppedStep(After(config, front), last);
    }
  }

  /** Once nobody is speaking and only ticks follow, after 48 + 12 of them and ever after no
      segment is open and nothing is waiting. */
  lemma ClosesWhenQuiet(config: SessionConfig, events: seq<Event>, ticks: seq<Event>)
    requires Shutdown !in events && !AnySpeaking(events)
    requires AllTicks(ticks) && |ticks| >= 60
    ensures After(config, events + ticks).segment.None? && !AnyWaiting(events + ticks)
  {
    var m := After(config, events);
    StoppedIff(config, events);
    forall u | u in m.speakers
      ensures !m.speakers[u].active
    {
      SpeakersAre(config, events, u);
    }
    ClosesOnceInactive(config, events, ticks);
    HeadsAre(config, events + ticks);
  }
}
