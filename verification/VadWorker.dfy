/** The worker that brackets the detector's frames into messages, and the two together.
    The confirmed-frame counter may return anything. */
module VadWorker {
  import opened Common
  import opened BrowserVad

  const MIN_CONFIRMED_SPEECH_FRAMES: nat := 3

  datatype EndReason = Silence | MaxDuration | Manual

  datatype Post = SpeechStart | Pcm(frame: Frame) | SpeechEnd(reason: EndReason, speechFrames: nat)

  datatype Worker = Worker(
    enhanced: bool, segmentActive: bool, segmentAccepted: bool, pending: seq<Frame>, suppressed: bool)

  function NewWorker(enhanced: bool): Worker {
    Worker(enhanced, false, false, [], false)
  }

  function Pcms(frames: seq<Frame>): seq<Post> {
    seq(|frames|, i requires 0 <= i < |frames| => Pcm(frames[i]))
  }

  /** The three parts of one turn of the drain loop: each gives the new state and what is
      posted. */
  function DrainStart(w: Worker, out: Out): (Worker, seq<Post>) {
    if out.flags.started then
      (w.(segmentActive := true, segmentAccepted := !w.enhanced, pending := []),
       if !w.enhanced then [SpeechStart] else [])
    else (w, [])
  }

  function DrainPcm(w: Worker, out: Out, count: nat): (Worker, seq<Post>) {
    var pending := w.pending + [out.frame];
    if w.segmentAccepted then (w, [Pcm(out.frame)])
    else if count >= MIN_CONFIRMED_SPEECH_FRAMES
    then (w.(segmentAccepted := true, pending := []), [SpeechStart] + Pcms(pending))
    else (w.(pending := pending), [])
  }

  function DrainEnd(w: Worker, out: Out, count: nat): (Worker, seq<Post>) {
    if out.flags.ended then
      (w.(segmentActive := false, segmentAccepted := false, pending := []),
       if w.segmentAccepted then [SpeechEnd(if out.flags.forced then MaxDuration else Silence, count)] else [])
    else (w, [])
  }

  function Drain(w: Worker, out: Out, count: nat): (Worker, seq<Post>) {
    var (w1, posts1) := DrainStart(w, out);
    var (w2, posts2) := DrainPcm(w1, out, count);
    var (w3, posts3) := DrainEnd(w2, out, count);
    (w3, posts1 + posts2 + posts3)
  }

  /** What flush and suppress do to the worker. */
  function Abandon(w: Worker, count: nat): (Worker, seq<Post>) {
    (w.(segmentActive := false, segmentAccepted := false, pending := []),
     if w.segmentActive && w.segmentAccepted then [SpeechEnd(Manual, count)] else [])
  }

  datatype Drained = Drained(out: Out, count: nat)

  class VadWorkerTask {
    const vad: BrowserAudioVad
    const enhanced: bool
    var segmentActive: bool
    var segmentAccepted: bool
    var pendingFrames: seq<Frame>
    var suppressed: bool
    var posts: seq<Post>

    function Value(): Worker
      reads this
    {
      Worker(enhanced, segmentActive, segmentAccepted, pendingFrames, suppressed)
    }

    constructor (maxSeconds: nat, enhanced: bool)
      ensures Value() == NewWorker(enhanced) && posts == [] && fresh(vad) && fresh(vad.gate)
      ensures vad.Value() == NewVad(maxSeconds, enhanced)
    {
      vad := new BrowserAudioVad(maxSeconds, enhanced);
      this.enhanced := enhanced;
      segmentActive, segmentAccepted, pendingFrames, suppressed, posts := false, false, [], false, [];
    }

    method PostAll(frames: seq<Frame>)
      modifies this`posts
      ensures posts == old(posts) + Pcms(frames)
    {
      for i := 0 to |frames|
        invariant posts == old(posts) + Pcms(frames[..i])
      {
        posts := posts + [Pcm(frames[i])];
        assert Pcms(frames[..i + 1]) == Pcms(frames[..i]) + [Pcm(frames[i])];
      }
      assert frames[..|frames|] == frames;
    }

    method OnStarted(out: Out)
      modifies this
      ensures var (w, more) := DrainStart(old(Value()), out);
              Value() == w && posts == old(posts) + more
    {
      if out.flags.started {
        segmentActive, segmentAccepted, pendingFrames := true, !enhanced, [];
        if segmentAccepted {
          posts := posts + [SpeechStart];
        }
      }
    }

    method OnPcm(out: Out, count: nat)
      modifies this
      ensures var (w, more) := DrainPcm(old(Value()), out, count);
              Value() == w && posts == old(posts) + more
    {
      if !segmentAccepted {
        pendingFrames := pendingFrames + [out.frame];
        if count >= MIN_CONFIRMED_SPEECH_FRAMES {
          segmentAccepted := true;
          posts := posts + [SpeechStart];
          PostAll(pendingFrames);
          Associate(old(posts), [SpeechStart], Pcms(pendingFrames));
          pendingFrames := [];
        }
      } else {
        posts := posts + [Pcm(out.frame)];
      }
    }

    method OnEnded(out: Out, count: nat)
      modifies this
      ensures var (w, more) := DrainEnd(old(Value()), out, count);
              Value() == w && posts == old(posts) + more
    {
      if out.flags.ended {
        segmentActive := false;
        if segmentAccepted {
          posts := posts + [SpeechEnd(if out.flags.forced then MaxDuration else Silence, count)];
        }
        segmentAccepted, pendingFrames := false, [];
      }
    }

    method OnFrame(out: Out, count: nat)
      modifies this
      ensures var (w, more) := Drain(old(Value()), out, count);
              Value() == w && posts == old(posts) + more
    {
      OnStarted(out);
      OnPcm(out, count);
      OnEnded(out, count);
    }

    method OnFlush(count: nat)
      modifies this, vad, vad.gate
      ensures var (w, more) := Abandon(old(Value()), count);
              Value() == w && posts == old(posts) + more
      ensures vad.Value() == ResetVad(old(vad.Value()))
    {
      if segmentActive && segmentAccepted {
        posts := posts + [SpeechEnd(Manual, count)];
      }
      segmentActive, segmentAccepted, pendingFrames := false, false, [];
      vad.Reset();
    }

    method OnSuppress(value: bool, count: nat)
      modifies this, vad, vad.gate
      ensures var (w, more) := Abandon(old(Value()).(suppressed := value), count);
              Value() == w && posts == old(posts) + more
      ensures vad.Value() == ResetVad(old(vad.Value()))
    {
      suppressed := value;
      OnFlush(count);
    }
  }

  // --------------------------------------------------------------- the segments drained

  /** A segment as the worker saw it: its frames, whether it was accepted, and how it
      ended, if it has. */
  datatype Entry = Entry(frames: seq<Frame>, accepted: bool, end: Option<Post>)

  /** Nothing, or the start, every frame in order and the end. */
  function EntryPosts(e: Entry): seq<Post> {
    if !e.accepted then [] else [SpeechStart] + Pcms(e.frames) + if e.end.Some? then [e.end.value] else []
  }

  function LogPosts(log: seq<Entry>): seq<Post> {
    if log == [] then [] else LogPosts(log[..|log| - 1]) + EntryPosts(log[|log| - 1])
  }

  predicate HasOpen(log: seq<Entry>) {
    log != [] && log[|log| - 1].end.None?
  }

  function AddToEntry(e: Entry, out: Out, count: nat): Entry {
    Entry(e.frames + [out.frame], e.accepted || count >= MIN_CONFIRMED_SPEECH_FRAMES,
          if out.flags.ended then Some(SpeechEnd(if out.flags.forced then MaxDuration else Silence, count)) else None)
  }

  /** A drained frame goes into a new entry or into the open one. */
  function LogDrained(log: seq<Entry>, enhanced: bool, out: Out, count: nat): seq<Entry> {
    if HasOpen(log) then log[|log| - 1 := AddToEntry(log[|log| - 1], out, count)]
    else log + [AddToEntry(Entry([], !enhanced, None), out, count)]
  }

  function LogAbandoned(log: seq<Entry>, count: nat): seq<Entry> {
    if HasOpen(log) then log[|log| - 1 := log[|log| - 1].(end := Some(SpeechEnd(Manual, count)))] else log
  }

  /** The worker's variables describe the last entry. */
  ghost predicate Describes(w: Worker, log: seq<Entry>) {
    if HasOpen(log) then
      var e := log[|log| - 1];
      && w.segmentActive && w.segmentAccepted == e.accepted
      && w.pending == (if e.accepted then [] else e.frames)
    else !w.segmentActive && !w.segmentAccepted && w.pending == []
  }

  lemma ReplacedPosts(log: seq<Entry>, e: Entry, more: seq<Post>)
    requires log != [] && EntryPosts(e) == EntryPosts(log[|log| - 1]) + more
    ensures LogPosts(log[|log| - 1 := e]) == LogPosts(log) + more
  {
    assert log[|log| - 1 := e][..|log| - 1] == log[..|log| - 1];
  }

  /** Whatever the counter says, one drained frame posts what its entry gains. */
  lemma DrainPosts(w: Worker, log: seq<Entry>, out: Out, count: nat)
    requires Describes(w, log) && (out.flags.started <==> !HasOpen(log))
    ensures var (next, posts) := Drain(w, out, count);
            var longer := LogDrained(log, w.enhanced, out, count);
            && Describes(next, longer) && next.enhanced == w.enhanced && next.suppressed == w.suppressed
            && LogPosts(longer) == LogPosts(log) + posts
  {
    if HasOpen(log) {
      ReplacedPosts(log, AddToEntry(log[|log| - 1], out, count), Drain(w, out, count).1);
    } else {
      DrainStarts(w, out, count);
    }
  }

  lemma DrainStarts(w: Worker, out: Out, count: nat)
    requires out.flags.started
    ensures EntryPosts(AddToEntry(Entry([], !w.enhanced, None), out, count)) == Drain(w, out, count).1
  {
    assert Pcms([]) == [];
  }

  lemma AbandonPosts(w: Worker, log: seq<Entry>, count: nat)
    requires Describes(w, log)
    ensures var (next, posts) := Abandon(w, count);
            var closed := LogAbandoned(log, count);
            Describes(next, closed) && !HasOpen(closed) && LogPosts(closed) == LogPosts(log) + posts
  {
    if HasOpen(log) {
      var e := log[|log| - 1];
      ReplacedPosts(log, e.(end := Some(SpeechEnd(Manual, count))), Abandon(w, count).1);
    }
  }
}
