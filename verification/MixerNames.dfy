/** Under which names the speakers of a segment are announced. */
module MixerNames {
  import opened Common
  import opened RoomProtocol
  import opened RoomMixer
  import opened MixerRuns
  import opened MixerSpeech
  import opened MixerBlocks

  /** What the user was called when a frame of theirs was last mixed into the block that the
      latest tick found or opened. */
  ghost function Called(config: SessionConfig, events: seq<Event>, u: UserId): Option<Identity> {
    if events == [] then None
    else
      var front, last := events[..|events| - 1], events[|events| - 1];
      if last.Tick? && Shutdown !in front then
        if Waiting(front, u) != [] then Name(front, u)
        else if TraceOf(config, front).Open? then Called(config, front, u) else None
      else Called(config, front, u)
  }

  ghost predicate SomeoneCalled(config: SessionConfig, events: seq<Event>, p: Identity) {
    exists u :: Called(config, events, u) == Some(p)
  }

  ghost predicate AreCalled(config: SessionConfig, events: seq<Event>, people: map<UserId, Identity>) {
    forall u :: (u in people <==> Called(config, events, u).Some?)
                && (u in people ==> Called(config, events, u) == Some(people[u]))
  }

  lemma PeopleNamed(config: SessionConfig, events: seq<Event>, u: UserId)
    requires Shutdown !in events
    ensures var m := After(config, events);
            var people := Identities(m.speakers, Heads(m.speakers).Keys);
            && (u in people <==> Waiting(events, u) != [])
            && (u in people ==> Name(events, u) == Some(people[u]))
  {
    SpeakersAre(config, events, u);
  }

  lemma TickCalls(config: SessionConfig, events: seq<Event>, now: nat, freshId: SegmentId)
    requires FreshIds(events) && Shutdown !in events
    requires var m := After(config, events); m.segment.Some? ==> AreCalled(config, events, m.segment.value.speakers)
    ensures var segment := TickSegment(After(config, events), now, freshId).0;
            segment.Some? ==> AreCalled(config, events + [Tick(now, freshId)], segment.value.speakers)
  {
    var m, all := After(config, events), events + [Tick(now, freshId)];
    var segment := TickSegment(m, now, freshId).0;
    assert all[..|events|] == events;
    OpenIff(config, events);
    if segment.Some? {
      forall u
        ensures (u in segment.value.speakers <==> Called(config, all, u).Some?)
                && (u in segment.value.speakers ==> Called(config, all, u) == Some(segment.value.speakers[u]))
      {
        PeopleNamed(config, events, u);
        SpeakersAre(config, events, u);
      }
    }
  }

  lemma {:induction false} CalledRun(config: SessionConfig, events: seq<Event>)
    requires FreshIds(events) && Shutdown !in events
    ensures var m := After(config, events); m.segment.Some? ==> AreCalled(config, events, m.segment.value.speakers)
  {
    if events != [] {
      var front, last := events[..|events| - 1], events[|events| - 1];
      assert events == front + [last];
      CalledRun(config, front);
      StoppedIff(config, front);
      KeptSegment(After(config, front), last);
      if last.Tick? {
        TickCalls(config, front, last.now, last.freshId);
      } else {
        CommandCalls(config, front, last);
      }
    }
  }

  lemma CommandCalls(config: SessionConfig, events: seq<Event>, e: Event)
    requires !e.Tick?
    ensures forall people :: AreCalled(config, events, people) ==> AreCalled(config, events + [e], people)
  {
    assert (events + [e])[..|events|] == events;
    assert forall u :: Called(config, events + [e], u) == Called(config, events, u);
  }

  /** An announcement is of the tick's segment and its speakers. */
  lemma AnnouncesSpeakers(m: Mixer, now: nat, freshId: SegmentId, i: nat)
    requires i < |TickStep(m, now, freshId).1| && TickStep(m, now, freshId).1[i].Speakers?
    ensures var segment := TickSegment(m, now, freshId).0;
            segment.Some? && TickStep(m, now, freshId).1[i] == Speakers(segment.value.id, segment.value.speakers.Values)
  {
    var messages := TickSegment(m, now, freshId).1;
    assert TickStep(m, now, freshId).1 == messages + CloseIfDue(TickSegment(m, now, freshId).0, now).1;
    assert i < |messages| && messages[i] == TickStep(m, now, freshId).1[i];
    SegmentAnnounces(m, now, freshId, i);
  }

  lemma SegmentAnnounces(m: Mixer, now: nat, freshId: SegmentId, i: nat)
    requires i < |TickSegment(m, now, freshId).1| && TickSegment(m, now, freshId).1[i].Speakers?
    ensures var segment := TickSegment(m, now, freshId).0;
            && segment.Some?
            && TickSegment(m, now, freshId).1[i] == Speakers(segment.value.id, segment.value.speakers.Values)
  {
  }

  /** Whenever speakers are announced, it is everyone mixed into the block by then, each as
      they were called when last mixed. */
  lemma NamesAnnounced(config: SessionConfig, events: seq<Event>, now: nat, freshId: SegmentId, i: nat)
    requires FreshIds(events + [Tick(now, freshId)]) && Shutdown !in events
    requires var sent := LastSent(config, events + [Tick(now, freshId)]); i < |sent| && sent[i].message.Speakers?
    ensures var all := events + [Tick(now, freshId)];
            forall p :: p in LastSent(config, all)[i].message.speakers <==> SomeoneCalled(config, all, p)
  {
    var m, all := After(config, events), events + [Tick(now, freshId)];
    assert all[..|events|] == events;
    TickSent(config, events, now, freshId);
    CalledRun(config, events);
    TickCalls(config, events, now, freshId);
    AnnouncesSpeakers(m, now, freshId, i);
    ValuesCalled(config, all, TickSegment(m, now, freshId).0.value.speakers);
  }

  lemma ValuesCalled(config: SessionConfig, events: seq<Event>, people: map<UserId, Identity>)
    requires AreCalled(config, events, people)
    ensures forall p :: p in people.Values <==> SomeoneCalled(config, events, p)
  {
    forall p
      ensures p in people.Values <==> SomeoneCalled(config, events, p)
    {
      ValueCalled(config, events, people, p);
    }
  }

  lemma ValueCalled(config: SessionConfig, events: seq<Event>, people: map<UserId, Identity>, p: Identity)
    requires AreCalled(config, events, people)
    ensures p in people.Values <==> SomeoneCalled(config, events, p)
  {
    if p in people.Values {
      var u :| u in people && people[u] == p;
      assert Called(config, events, u) == Some(p);
    }
    if SomeoneCalled(config, events, p) {
      var u :| Called(config, events, u) == Some(p);
      assert u in people && people[u] == p;
    }
  }
}
