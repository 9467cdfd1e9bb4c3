/** What detector and worker have heard and drained, from the events alone. */
module VadHistory {
  import opened Common
  import opened BrowserVad
  import opened VadWorker
  import opened VadSystem
  import R = VadRuns

  /** The value last set, if any. */
  function SuppressedBy(events: seq<Event>): bool {
    if events == [] then false
    else
      var last := events[|events| - 1];
      if last.Suppress? then last.value else SuppressedBy(events[..|events| - 1])
  }

  /** The frames that came in since the last flush or suppression. */
  function HeardSince(events: seq<Event>): seq<Heard> {
    if events == [] then []
    else
      var front, last := events[..|events| - 1], events[|events| - 1];
      match last
      case Hear(frame, voiced) => HeardSince(front) + [Heard(frame, voiced)]
      case DrainOne(_) => HeardSince(front)
      case _ => []
  }

  /** ... and are listened to. */
  function Listened(events: seq<Event>): seq<Heard> {
    if SuppressedBy(events) then [] else HeardSince(events)
  }

  /** The segments of what is listened to, frame by frame. */
  ghost function Emitted(maxSeconds: nat, enhanced: bool, events: seq<Event>): seq<Out> {
    var v := NewVad(maxSeconds, enhanced);
    WindowsOut(Listened(events), v.most, R.Windows(v, Listened(events)))
  }

  /** What the counter said at each drain that found a frame, since the last reset. */
  ghost function CountsSince(maxSeconds: nat, enhanced: bool, events: seq<Event>): seq<nat> {
    if events == [] then []
    else
      var front, last := events[..|events| - 1], events[|events| - 1];
      var before := CountsSince(maxSeconds, enhanced, front);
      match last
      case Hear(_, _) => before
      case DrainOne(count) => if |before| < |Emitted(maxSeconds, enhanced, front)| then before + [count] else before
      case _ => []
  }

  function CountsOf(drained: seq<Drained>): seq<nat> {
    seq(|drained|, i requires 0 <= i < |drained| => drained[i].count)
  }

  /** The worker ignores samples exactly if it was last told to, and has otherwise heard all
      that came in since the last flush or suppression. */
  lemma {:induction false} ListensUnlessSuppressed(maxSeconds: nat, enhanced: bool, events: seq<Event>)
    ensures var s := Run(NewSystem(maxSeconds, enhanced), events);
            && s.worker.suppressed == SuppressedBy(events)
            && s.heard == Listened(events)
  {
    if events != [] {
      ListensUnlessSuppressed(maxSeconds, enhanced, events[..|events| - 1]);
    }
  }

  /** What was drained and what is ready are together the segments of what was heard; what
      the worker has made of the segments so far is decided by the frames drained and by what
      the counter said at each. */
  lemma {:induction false} DrainedInOrder(maxSeconds: nat, enhanced: bool, events: seq<Event>)
    ensures var s := Run(NewSystem(maxSeconds, enhanced), events);
            && Outs(s.drained) + s.vad.ready == Emitted(maxSeconds, enhanced, events)
            && CountsOf(s.drained) == CountsSince(maxSeconds, enhanced, events)
            && s.epoch <= |s.log| && s.log[s.epoch..] == EntriesOf(enhanced, Groups(s.drained))
  {
    var s := Run(NewSystem(maxSeconds, enhanced), events);
    RunKeeps(maxSeconds, enhanced, events);
    ListensUnlessSuppressed(maxSeconds, enhanced, events);
    R.EmitsTheSegments(maxSeconds, enhanced, s.heard);
    if events != [] {
      var front, last := events[..|events| - 1], events[|events| - 1];
      DrainedInOrder(maxSeconds, enhanced, front);
      CountsStep(Run(NewSystem(maxSeconds, enhanced), front), last);
      assert |Outs(Run(NewSystem(maxSeconds, enhanced), front).drained)| ==
             |Run(NewSystem(maxSeconds, enhanced), front).drained|;
    }
  }

  lemma CountsStep(s: System, e: Event)
    ensures CountsOf(Step(s, e).drained) ==
            match e
            case Hear(_, _) => CountsOf(s.drained)
            case DrainOne(count) => if s.vad.ready == [] then CountsOf(s.drained) else CountsOf(s.drained) + [count]
            case _ => []
  {
  }

  /** What the gate's counter of continuation frames should be: 6 as a segment is cut at its
      longest in the middle of speech, one less with every frame of the pause after it. */
  ghost function Continuing(heard: seq<Heard>, most: nat, windows: seq<Window>): int {
    if windows == [] || IsOpen(windows) then 0
    else
      var w := windows[|windows| - 1];
      var e := w.end.value;
      if e < |heard| && e - w.start + 1 >= most && heard[e].voiced then Max(0, 6 - (|heard| - 1 - e)) else 0
  }

  lemma ContinuingStep(v: Vad, heard: seq<Heard>, windows: seq<Window>, next: Heard)
    requires R.Inv(v, heard, windows) && v.gate.continuation == Continuing(heard, v.most, windows)
    ensures TakeFrame(v, next.frame, next.voiced).gate.continuation ==
            Continuing(heard + [next], v.most, R.NextWindows(v, windows, |heard|, next.voiced))
  {
    var more := heard + [next];
    if windows != [] && !IsOpen(windows) {
      var e := windows[|windows| - 1].end.value;
      assert e < |heard| ==> more[e] == heard[e];
    }
  }

  /** Quieter speech is let through while the gate speaks, and for 6 frames after a segment was
      cut in the middle of speech. */
  lemma {:induction false} ContinuesAfterCut(maxSeconds: nat, enhanced: bool, heard: seq<Heard>)
    ensures var v := NewVad(maxSeconds, enhanced);
            R.After(v, heard).gate.continuation == Continuing(heard, v.most, R.Windows(v, heard))
  {
    if heard != [] {
      var v := NewVad(maxSeconds, enhanced);
      var front, last := heard[..|heard| - 1], heard[|heard| - 1];
      ContinuesAfterCut(maxSeconds, enhanced, front);
      R.InvRun(v, front);
      ContinuingStep(R.After(v, front), front, R.Windows(v, front), last);
      assert heard == front + [last];
    }
  }

  /** In numbers: a segment may be as long as 5 to 20 seconds of 32 ms frames, keeps 16 frames
      of pre-roll or, enhanced, 32, and ends when it is at its longest or 88 frames in a row
      are not voiced. */
  lemma SettingsInNumbers(maxSeconds: nat, enhanced: bool, heard: seq<Heard>, start: nat, e: nat)
    requires start < e < |heard|
    ensures var v := NewVad(maxSeconds, enhanced);
            var seconds := if maxSeconds < 5 then 5 else if maxSeconds > 20 then 20 else maxSeconds;
            && 32 * v.most <= 1_000 * seconds < 32 * (v.most + 1)
            && v.room == (if enhanced then 32 else 16)
            && (ClosesAt(heard, v.most, start, e) <==>
                  || e - start + 1 >= v.most
                  || (e - start >= 88 && forall k :: e - 88 < k <= e ==> !heard[k].voiced))
  {
  }
}
