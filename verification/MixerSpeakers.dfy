/** Who is announced: whenever a frame is sent, and whenever a segment ends, the speakers
    last announced are exactly those whose frames were mixed into the segment so far. */
module MixerSpeakers {
  import opened Audio
  import opened Common
  import opened RoomProtocol
  import opened RoomMixer
  import opened MixerRuns

  /** The users mixed into the open block: the `k`-th frame sent was mixed from `mixes[k]`. */
  ghost function MixedIn(out: seq<Sent>, mixes: seq<map<UserId, Frame>>): set<UserId> {
    if out == [] then {}
    else
      var front := out[..|out| - 1];
      MixedAfter(MixedIn(front, mixes), |AudioOf(front)|, mixes, out[|out| - 1].message)
  }

  ghost function MixedAfter(mixed: set<UserId>, n: nat, mixes: seq<map<UserId, Frame>>, message: Input): set<UserId> {
    if message.Start? then {}
    else if message.PcmFrame? && n < |mixes| then mixed + mixes[n].Keys
    else mixed
  }

  /** With a frame, and at an end, those announced are those mixed, this frame included. */
  ghost predicate WellAnnounced(out: seq<Sent>, mixes: seq<map<UserId, Frame>>) {
    out == [] ||
    (var front, message := out[..|out| - 1], out[|out| - 1].message;
     var t := AcceptAll(Closed({}), front);
     && WellAnnounced(front, mixes)
     && (message.PcmFrame? || message.End? ==> t.Open? && Users(t.announced) == MixedIn(out, mixes)))
  }

  lemma MixedSnoc(out: seq<Sent>, mixes: seq<map<UserId, Frame>>, sent: Sent)
    ensures MixedIn(out + [sent], mixes) == MixedAfter(MixedIn(out, mixes), |AudioOf(out)|, mixes, sent.message)
    ensures AcceptAll(Closed({}), out + [sent]) == Accept(AcceptAll(Closed({}), out), sent)
    ensures var t := AcceptAll(Closed({}), out);
            WellAnnounced(out + [sent], mixes) ==
            (&& WellAnnounced(out, mixes)
             && (sent.message.PcmFrame? || sent.message.End? ==>
                   t.Open? && Users(t.announced) == MixedIn(out + [sent], mixes)))
  {
    assert (out + [sent])[..|out|] == out;
  }

  /** Later frames do not matter. */
  lemma {:induction false} MixedStable(out: seq<Sent>, mixes: seq<map<UserId, Frame>>, more: seq<map<UserId, Frame>>)
    requires |AudioOf(out)| <= |mixes|
    ensures MixedIn(out, mixes + more) == MixedIn(out, mixes)
    ensures WellAnnounced(out, mixes + more) == WellAnnounced(out, mixes)
  {
    if out != [] {
      MixedStable(out[..|out| - 1], mixes, more);
    }
  }

  /** The announcement before a frame. */
  lemma Announced(out: seq<Sent>, mixes: seq<map<UserId, Frame>>, messages: seq<Input>, now: nat)
    requires WellAnnounced(out, mixes) && (messages == [] || (|messages| == 1 && messages[0].Speakers?))
    ensures var more := out + Stamp(messages, now);
            && WellAnnounced(more, mixes) && MixedIn(more, mixes) == MixedIn(out, mixes)
            && AudioOf(more) == AudioOf(out)
  {
    if messages == [] {
      assert out + Stamp(messages, now) == out;
    } else {
      assert Stamp(messages, now) == [Sent(messages[0], now)];
    }
  }

  /** One frame and the announcement before it. */
  lemma FrameAnnounced(out: seq<Sent>, mixes: seq<map<UserId, Frame>>, segment: MixedSegment,
                       heads: map<UserId, Frame>, people: map<UserId, Identity>, now: nat)
    requires heads != map[] && people.Keys == heads.Keys && FiledMap(people)
    requires Matches(Some(segment), AcceptAll(Closed({}), out)) && WellAnnounced(out, mixes)
    requires |mixes| == |AudioOf(out)| + 1 && mixes[|AudioOf(out)|] == heads
    requires segment.speakers.Keys == MixedIn(out, mixes)
    ensures var (next, messages) := AddFrame(segment, heads, people);
            var more := out + Stamp(messages, now);
            && WellAnnounced(more, mixes) && MixedIn(more, mixes) == next.speakers.Keys
            && |AudioOf(more)| == |mixes|
  {
    var t := AcceptAll(Closed({}), out);
    var known := segment.speakers + people;
    var announcement := if |known| != |segment.speakers| then [Speakers(segment.id, known.Values)] else [];
    var frame := PcmFrame(EncodeFrame(Mixed(heads)));
    var u :| u in heads;
    assert u in people;
    AnnounceAccepted(segment, people, t, now);
    Announced(out, mixes, announcement, now);
    AcceptConcat(Closed({}), out, Stamp(announcement, now));
    FrameSent(out + Stamp(announcement, now), mixes, Sent(frame, now));
    assert Stamp(announcement + [frame], now) == Stamp(announcement, now) + [Sent(frame, now)];
    Associate(out, Stamp(announcement, now), [Sent(frame, now)]);
  }

  lemma FrameSent(out: seq<Sent>, mixes: seq<map<UserId, Frame>>, frame: Sent)
    requires WellAnnounced(out, mixes) && frame.message.PcmFrame? && |mixes| == |AudioOf(out)| + 1
    requires var t := AcceptAll(Closed({}), out);
             t.Open? && Users(t.announced) == MixedIn(out, mixes) + mixes[|AudioOf(out)|].Keys
    ensures var more := out + [frame];
            && WellAnnounced(more, mixes) && |AudioOf(more)| == |mixes|
            && MixedIn(more, mixes) == MixedIn(out, mixes) + mixes[|AudioOf(out)|].Keys
  {
    MixedSnoc(out, mixes, frame);
  }

  lemma StartAnnounced(out: seq<Sent>, mixes: seq<map<UserId, Frame>>, start: Sent)
    requires WellAnnounced(out, mixes) && start.message.Start?
    ensures WellAnnounced(out + [start], mixes) && MixedIn(out + [start], mixes) == {}
    ensures AudioOf(out + [start]) == AudioOf(out)
  {
    MixedSnoc(out, mixes, start);
    assert AudioOf(out) + [] == AudioOf(out);
  }

  lemma EndAnnounced(out: seq<Sent>, mixes: seq<map<UserId, Frame>>, end: Sent)
    requires WellAnnounced(out, mixes) && end.message.End?
    requires var t := AcceptAll(Closed({}), out); t.Open? && Users(t.announced) == MixedIn(out, mixes)
    ensures WellAnnounced(out + [end], mixes) && AudioOf(out + [end]) == AudioOf(out)
  {
    MixedSnoc(out, mixes, end);
    assert AudioOf(out) + [] == AudioOf(out);
  }

  // --------------------------------------------------------------------------- all runs

  /** The segment's speakers are those mixed, and every frame has its mix. */
  ghost predicate SpeakersFit(m: Mixer, out: seq<Sent>, mixes: seq<map<UserId, Frame>>) {
    && WellAnnounced(out, mixes) && |AudioOf(out)| == |mixes|
    && (m.segment.Some? ==> m.segment.value.speakers.Keys == MixedIn(out, mixes))
  }

  lemma NothingSent(m: Mixer, out: seq<Sent>, mixes: seq<map<UserId, Frame>>, now: nat)
    requires SpeakersFit(m, out, mixes)
    ensures SpeakersFit(m, out + Stamp([], now), mixes + [])
  {
    assert out + Stamp([], now) == out && mixes + [] == mixes;
  }

  /** The start of a segment and its first frame. */
  lemma BlankFrame(out: seq<Sent>, mixes: seq<map<UserId, Frame>>, config: SessionConfig,
                   heads: map<UserId, Frame>, people: map<UserId, Identity>, now: nat, freshId: SegmentId)
    requires heads != map[] && people.Keys == heads.Keys && FiledMap(people)
    requires var t := AcceptAll(Closed({}), out); t.Closed? && freshId !in t.used
    requires WellAnnounced(out, mixes) && |mixes| == |AudioOf(out)| + 1 && mixes[|AudioOf(out)|] == heads
    ensures var (next, messages) := AddFrame(OpenSegment(config, freshId, now), heads, people);
            var more := out + Stamp([Start(freshId, Some(MixerVad), config)] + messages, now);
            && WellAnnounced(more, mixes) && MixedIn(more, mixes) == next.speakers.Keys
            && |AudioOf(more)| == |mixes|
  {
    var start := Start(freshId, Some(MixerVad), config);
    var begun := out + [Sent(start, now)];
    OneAfter(out, start, AddFrame(OpenSegment(config, freshId, now), heads, people).1, now);
    assert begun == out + [Sent(start, now)] && WellAnnounced(begun, mixes) && MixedIn(begun, mixes) == {}
           && AudioOf(begun) == AudioOf(out) by {
      StartAnnounced(out, mixes, Sent(start, now));
    }
    FrameAnnounced(begun, mixes, OpenSegment(config, freshId, now), heads, people, now);
  }

  lemma OneAfter(out: seq<Sent>, a: Input, b: seq<Input>, now: nat)
    ensures out + Stamp([a] + b, now) == out + [Sent(a, now)] + Stamp(b, now)
  {
    SentAfter(out, [a], b, now);
    assert Stamp([a], now) == [Sent(a, now)];
  }

  lemma FirstFrame(m: Mixer, out: seq<Sent>, mixes: seq<map<UserId, Frame>>, now: nat, freshId: SegmentId)
    requires Filed(m) && m.segment.None? && Heads(m.speakers) != map[]
    requires var t := AcceptAll(Closed({}), out); t.Closed? && freshId !in t.used
    requires WellAnnounced(out, mixes)
    requires |mixes| == |AudioOf(out)| + 1 && mixes[|AudioOf(out)|] == Heads(m.speakers)
    ensures var (segment, messages) := TickSegment(m, now, freshId);
            SpeakersFit(m.(segment := segment), out + Stamp(messages, now), mixes)
  {
    var heads := Heads(m.speakers);
    IdentitiesFiled(m.speakers, heads.Keys);
    BlankFrame(out, mixes, m.config, heads, Identities(m.speakers, heads.Keys), now, freshId);
  }

  lemma SentAfter(out: seq<Sent>, a: seq<Input>, b: seq<Input>, now: nat)
    ensures out + Stamp(a + b, now) == out + Stamp(a, now) + Stamp(b, now)
  {
    assert Stamp(a + b, now) == Stamp(a, now) + Stamp(b, now);
    Associate(out, Stamp(a, now), Stamp(b, now));
  }

  lemma SegmentSpeakers(m: Mixer, out: seq<Sent>, mixes: seq<map<UserId, Frame>>, now: nat, freshId: SegmentId)
    requires Filed(m) && Matches(m.segment, AcceptAll(Closed({}), out)) && SpeakersFit(m, out, mixes) && !m.stopped
    requires freshId !in AcceptAll(Closed({}), out).used
    ensures var (segment, messages) := TickSegment(m, now, freshId);
            SpeakersFit(m.(segment := segment), out + Stamp(messages, now), mixes + NewMix(m, Tick(now, freshId)))
  {
    var heads := Heads(m.speakers);
    MixedStable(out, mixes, NewMix(m, Tick(now, freshId)));
    if heads == map[] {
      NothingSent(m, out, mixes, now);
    } else if m.segment.Some? {
      IdentitiesFiled(m.speakers, heads.Keys);
      FrameAnnounced(out, mixes + [heads], m.segment.value, heads, Identities(m.speakers, heads.Keys), now);
    } else {
      FirstFrame(m, out, mixes + [heads], now, freshId);
    }
  }

  lemma CloseSpeakers(m: Mixer, out: seq<Sent>, mixes: seq<map<UserId, Frame>>, now: nat)
    requires SpeakersFit(m, out, mixes) && Matches(m.segment, AcceptAll(Closed({}), out))
    ensures var (kept, messages) := CloseIfDue(m.segment, now);
            SpeakersFit(m.(segment := kept), out + Stamp(messages, now), mixes)
  {
    var (kept, messages) := CloseIfDue(m.segment, now);
    if messages == [] {
      NothingSent(m, out, mixes, now);
      assert mixes + [] == mixes;
    } else {
      assert Stamp(messages, now) == [Sent(messages[0], now)];
      EndAnnounced(out, mixes, Sent(messages[0], now));
    }
  }

  lemma TickSpeakers(m: Mixer, out: seq<Sent>, mixes: seq<map<UserId, Frame>>, now: nat, freshId: SegmentId)
    requires Filed(m) && Matches(m.segment, AcceptAll(Closed({}), out)) && SpeakersFit(m, out, mixes) && !m.stopped
    requires Underway(m.segment, AcceptAll(Closed({}), out)) && freshId !in AcceptAll(Closed({}), out).used
    ensures var (next, messages) := TickStep(m, now, freshId);
            SpeakersFit(next, out + Stamp(messages, now), mixes + NewMix(m, Tick(now, freshId)))
  {
    var (segment, messages) := TickSegment(m, now, freshId);
    var (kept, closing) := CloseIfDue(segment, now);
    SegmentSpeakers(m, out, mixes, now, freshId);
    TickSegmentAccepted(m, AcceptAll(Closed({}), out), now, freshId);
    AcceptConcat(Closed({}), out, Stamp(messages, now));
    CloseSpeakers(m.(segment := segment), out + Stamp(messages, now), mixes + NewMix(m, Tick(now, freshId)), now);
    SentAfter(out, messages, closing, now);
  }

  lemma CommandSpeakers(m: Mixer, out: seq<Sent>, mixes: seq<map<UserId, Frame>>, e: Event, at: nat)
    requires Matches(m.segment, AcceptAll(Closed({}), out)) && SpeakersFit(m, out, mixes) && !e.Tick?
    ensures SpeakersFit(Step(m, e).0, out + Stamp(Step(m, e).1, at), mixes + NewMix(m, e))
  {
    var messages := Step(m, e).1;
    NothingSent(m, out, mixes, at);
    if messages != [] {
      var sent := Sent(messages[0], at);
      assert Stamp(messages, at) == [sent] && mixes + [] == mixes;
      if sent.message.End? {
        EndAnnounced(out, mixes, sent);
      }
    }
  }

  lemma {:induction false} SpeakersRun(config: SessionConfig, events: seq<Event>)
    requires FreshIds(events)
    ensures SpeakersFit(After(config, events), Output(config, events), Mixes(config, events))
  {
    if events != [] {
      var front, last := events[..|events| - 1], events[|events| - 1];
      var m, out, mixes := After(config, front), Output(config, front), Mixes(config, front);
      SpeakersRun(config, front);
      TraceRun(config, front);
      if last.Tick? && !m.stopped {
        TickSpeakers(m, out, mixes, last.now, last.freshId);
      } else if last.Tick? {
        NothingSent(m, out, mixes, last.now);
      } else {
        CommandSpeakers(m, out, mixes, last, Clock(events).GetOr(0));
      }
    }
  }

  /** In every run, and so after every event of it, the speakers announced when a frame is
      sent, and when a segment ends, are exactly those whose frames have been mixed into the
      segment; frame `k` is the mean of the frames in `Mixes[k]`. */
  lemma AnnouncedAreMixed(config: SessionConfig, events: seq<Event>)
    requires FreshIds(events)
    ensures var out, mixes := Output(config, events), Mixes(config, events);
            && WellAnnounced(out, mixes)
            && |AudioOf(out)| == |mixes|
            && forall k :: 0 <= k < |mixes| ==>
                 DecodeFrame(AudioOf(out)[k]).Some? && IsMean(DecodeFrame(AudioOf(out)[k]).value, mixes[k])
    ensures var t := TraceOf(config, events);
            t.Open? ==> Users(t.announced) == MixedIn(Output(config, events), Mixes(config, events))
  {
    SpeakersRun(config, events);
    AudioIsMean(config, events);
    TraceRun(config, events);
  }

  /** What the predicate says of any one message. */
  lemma {:induction false} WellAnnouncedAt(out: seq<Sent>, mixes: seq<map<UserId, Frame>>, i: nat)
    requires WellAnnounced(out, mixes) && i < |out| && (out[i].message.PcmFrame? || out[i].message.End?)
    ensures var t := AcceptAll(Closed({}), out[..i]);
            t.Open? && Users(t.announced) == MixedIn(out[..i + 1], mixes)
    decreases |out|
  {
    if i < |out| - 1 {
      WellAnnouncedAt(out[..|out| - 1], mixes, i);
      assert out[..|out| - 1][..i] == out[..i] && out[..|out| - 1][..i + 1] == out[..i + 1];
    } else {
      assert out[..i + 1] == out;
    }
  }
}
