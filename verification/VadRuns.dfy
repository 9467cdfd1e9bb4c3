/** What holds of every run of the browser's gate and routing. */
module VadRuns {
  import opened Common
  import opened BrowserVad

  /** The state after hearing the frames, with nothing taken from `ready`. */
  function After(v: Vad, heard: seq<Heard>): Vad {
    if heard == [] then v
    else
      var last := heard[|heard| - 1];
      TakeFrame(After(v, heard[..|heard| - 1]), last.frame, last.voiced)
  }

  /** The segments so far, with frame `n` as the next one. */
  function NextWindows(v: Vad, windows: seq<Window>, n: nat, voiced: bool): seq<Window> {
    var flags := GateStep(v.gate, v.most, voiced).1;
    if flags.started then windows + [Window(if n >= |v.preRoll| then n - |v.preRoll| else 0, n, None)]
    else if flags.ended && windows != [] then
      windows[|windows| - 1 := windows[|windows| - 1].(end := Some(n))]
    else windows
  }

  function Windows(v: Vad, heard: seq<Heard>): seq<Window> {
    if heard == [] then []
    else
      var front, last := heard[..|heard| - 1], heard[|heard| - 1];
      NextWindows(After(v, front), Windows(v, front), |front|, last.voiced)
  }

  function FramesOf(heard: seq<Heard>): seq<Frame> {
    seq(|heard|, i requires 0 <= i < |heard| => heard[i].frame)
  }

  /** The gate while no segment is open. */
  ghost predicate Pausing(v: Vad, heard: seq<Heard>, base: nat) {
    && !v.gate.speaking && v.gate.voicedRun == 0 && !v.segmentActive
    && base <= |heard|
    && v.preRoll == FramesOf(heard)[if |heard| - base <= v.room then base else |heard| - v.room..]
  }

  /** The gate while a segment is open: how long, and since when it is silent. */
  ghost predicate Running(v: Vad, heard: seq<Heard>, start: nat) {
    && v.gate.speaking && v.segmentActive && v.preRoll == []
    && start < |heard| && v.gate.activeFrames == |heard| - start
    && v.gate.silenceRun < END_SILENCE_FRAMES && v.gate.silenceRun < |heard| - start
    && (forall k :: |heard| - v.gate.silenceRun <= k < |heard| ==> !heard[k].voiced)
    && heard[|heard| - 1 - v.gate.silenceRun].voiced
    && (v.gate.activeFrames < v.most || v.gate.activeFrames == 1)
  }

  ghost predicate Inv(v: Vad, heard: seq<Heard>, windows: seq<Window>) {
    && v.room > 0
    && AreWindows(heard, v.most, v.room, windows)
    && (if IsOpen(windows) then Running(v, heard, windows[|windows| - 1].start)
        else Pausing(v, heard, Base(windows)))
  }

  // --------------------------------------------------- earlier segments are not touched

  lemma ClosesAtStable(heard: seq<Heard>, next: Heard, most: nat, start: nat, e: nat)
    requires start < e < |heard|
    ensures ClosesAt(heard + [next], most, start, e) == ClosesAt(heard, most, start, e)
  {
    var more := heard + [next];
    assert forall k :: e - END_SILENCE_FRAMES < k <= e && k >= 0 ==> more[k] == heard[k];
  }

  lemma ClosedStable(heard: seq<Heard>, next: Heard, most: nat, room: nat, base: nat, w: Window)
    requires IsWindow(heard, most, room, base, w) && w.end.Some?
    ensures IsWindow(heard + [next], most, room, base, w)
  {
    forall k | w.start < k <= w.end.value
      ensures ClosesAt(heard + [next], most, w.start, k) == ClosesAt(heard, most, w.start, k)
    {
      ClosesAtStable(heard, next, most, w.start, k);
    }
  }

  /** With the silence seen so far, when the next frame closes the segment. */
  lemma ClosesNext(v: Vad, heard: seq<Heard>, start: nat, next: Heard)
    requires Running(v, heard, start)
    ensures GateStep(v.gate, v.most, next.voiced).1.ended <==> ClosesAt(heard + [next], v.most, start, |heard|)
  {
    var more, n := heard + [next], |heard|;
    var silence := v.gate.silenceRun;
    if !next.voiced && n - start >= END_SILENCE_FRAMES {
      if silence + 1 >= END_SILENCE_FRAMES {
        assert forall k :: n - END_SILENCE_FRAMES < k <= n ==> !more[k].voiced;
      } else {
        assert more[n - 1 - silence].voiced;
      }
    } else if next.voiced {
      assert more[n].voiced;
    }
  }

  lemma OpenStable(heard: seq<Heard>, next: Heard, most: nat, room: nat, base: nat, w: Window)
    requires IsWindow(heard, most, room, base, w) && w.end.None?
    ensures var closes := ClosesAt(heard + [next], most, w.start, |heard|);
            IsWindow(heard + [next], most, room, base, if closes then w.(end := Some(|heard|)) else w)
  {
    forall k | w.start < k < |heard|
      ensures ClosesAt(heard + [next], most, w.start, k) == ClosesAt(heard, most, w.start, k)
    {
      ClosesAtStable(heard, next, most, w.start, k);
    }
  }

  // -------------------------------------------------------------- one frame, segments

  lemma {:induction false} AreClosedStable(heard: seq<Heard>, next: Heard, most: nat, room: nat, windows: seq<Window>)
    requires AreClosed(heard, most, room, windows)
    ensures AreClosed(heard + [next], most, room, windows)
  {
    if windows != [] {
      var front, w := windows[..|windows| - 1], windows[|windows| - 1];
      AreClosedStable(heard, next, most, room, front);
      ClosedStable(heard, next, most, room, Base(front), w);
    }
  }

  lemma WindowsPause(heard: seq<Heard>, next: Heard, most: nat, room: nat, windows: seq<Window>)
    requires AreWindows(heard, most, room, windows) && !IsOpen(windows) && !next.voiced
    ensures AreWindows(heard + [next], most, room, windows)
  {
    AreClosedStable(heard, next, most, room, windows);
  }

  lemma NewWindow(heard: seq<Heard>, next: Heard, most: nat, room: nat, base: nat)
    requires base <= |heard| && next.voiced && forall k :: base <= k < |heard| ==> !heard[k].voiced
    ensures IsWindow(heard + [next], most, room, base,
                     Window(if |heard| - base <= room then base else |heard| - room, |heard|, None))
  {
  }

  lemma WindowsStart(heard: seq<Heard>, next: Heard, most: nat, room: nat, windows: seq<Window>, w: Window)
    requires AreWindows(heard, most, room, windows) && !IsOpen(windows) && next.voiced
    requires var base := Base(windows);
             base <= |heard| && w == Window(if |heard| - base <= room then base else |heard| - room, |heard|, None)
    ensures AreWindows(heard + [next], most, room, windows + [w])
  {
    AreClosedStable(heard, next, most, room, windows);
    NewWindow(heard, next, most, room, Base(windows));
    assert (windows + [w])[..|windows|] == windows;
  }

  lemma WindowsSpeech(heard: seq<Heard>, next: Heard, most: nat, room: nat, windows: seq<Window>)
    requires AreWindows(heard, most, room, windows) && IsOpen(windows)
    ensures var w := windows[|windows| - 1];
            var closes := ClosesAt(heard + [next], most, w.start, |heard|);
            AreWindows(heard + [next], most, room,
                       if closes then windows[|windows| - 1 := w.(end := Some(|heard|))] else windows)
  {
    var front, w := windows[..|windows| - 1], windows[|windows| - 1];
    AreClosedStable(heard, next, most, room, front);
    OpenStable(heard, next, most, room, Base(front), w);
    if ClosesAt(heard + [next], most, w.start, |heard|) {
      var updated := windows[|windows| - 1 := w.(end := Some(|heard|))];
      assert updated[..|windows| - 1] == front;
      assert !IsOpen(updated);
      assert Base(updated) == |heard| + 1;
    }
  }

  // ------------------------------------------------------------- one frame, the gate

  lemma GatePause(v: Vad, heard: seq<Heard>, base: nat, next: Heard)
    requires Pausing(v, heard, base) && v.room > 0 && !next.voiced
    ensures Pausing(TakeFrame(v, next.frame, false), heard + [next], base)
    ensures !GateStep(v.gate, v.most, false).1.started && !GateStep(v.gate, v.most, false).1.ended
  {
    assert FramesOf(heard + [next]) == FramesOf(heard) + [next.frame];
  }

  lemma GateStart(v: Vad, heard: seq<Heard>, base: nat, next: Heard)
    requires Pausing(v, heard, base) && next.voiced
    ensures Running(TakeFrame(v, next.frame, true), heard + [next], |heard|)
    ensures GateStep(v.gate, v.most, true).1.started
    ensures |v.preRoll| == if |heard| - base <= v.room then |heard| - base else v.room
  {
  }

  lemma GateSpeech(v: Vad, heard: seq<Heard>, start: nat, next: Heard)
    requires Running(v, heard, start)
    ensures var (t, flags) := (TakeFrame(v, next.frame, next.voiced), GateStep(v.gate, v.most, next.voiced).1);
            && !flags.started
            && (if flags.ended then Pausing(t, heard + [next], |heard| + 1) else Running(t, heard + [next], start))
  {
    assert FramesOf(heard + [next])[|heard| + 1..] == [];
  }

  lemma InvStep(v: Vad, heard: seq<Heard>, windows: seq<Window>, next: Heard)
    requires Inv(v, heard, windows)
    ensures Inv(TakeFrame(v, next.frame, next.voiced), heard + [next], NextWindows(v, windows, |heard|, next.voiced))
  {
    var base := Base(windows);
    if IsOpen(windows) {
      var start := windows[|windows| - 1].start;
      ClosesNext(v, heard, start, next);
      GateSpeech(v, heard, start, next);
      WindowsSpeech(heard, next, v.most, v.room, windows);
    } else if next.voiced {
      GateStart(v, heard, base, next);
      WindowsStart(heard, next, v.most, v.room, windows, Window(|heard| - |v.preRoll|, |heard|, None));
    } else {
      GatePause(v, heard, base, next);
      WindowsPause(heard, next, v.most, v.room, windows);
    }
  }

  lemma {:induction false} InvRun(v: Vad, heard: seq<Heard>)
    requires v.gate == QuietGate && v.preRoll == [] && !v.segmentActive && v.room > 0
    ensures Inv(After(v, heard), heard, Windows(v, heard))
    ensures After(v, heard).most == v.most && After(v, heard).room == v.room
  {
    if heard == [] {
      assert FramesOf(heard)[0..] == [];
    } else {
      var front, last := heard[..|heard| - 1], heard[|heard| - 1];
      InvRun(v, front);
      assert heard == front + [last];
      InvStep(After(v, front), front, Windows(v, front), last);
    }
  }

  // -------------------------------------------------------------------- what is emitted

  lemma WindowOutStable(heard: seq<Heard>, next: Heard, most: nat, w: Window)
    requires w.end.Some? && w.end.value < |heard|
    ensures WindowOut(heard + [next], most, w) == WindowOut(heard, most, w)
  {
    var before, after := WindowOut(heard, most, w), WindowOut(heard + [next], most, w);
    forall i | 0 <= i < |before|
      ensures after[i] == before[i]
    {
      assert (heard + [next])[w.from + i] == heard[w.from + i];
      assert before[i] == FrameOut(heard, most, w, w.from + i);
      assert after[i] == FrameOut(heard + [next], most, w, w.from + i);
    }
  }

  lemma {:induction false} ClosedOutStable(heard: seq<Heard>, next: Heard, most: nat, room: nat, windows: seq<Window>)
    requires AreClosed(heard, most, room, windows)
    ensures WindowsOut(heard + [next], most, windows) == WindowsOut(heard, most, windows)
  {
    if windows != [] {
      var w := windows[|windows| - 1];
      ClosedOutStable(heard, next, most, room, windows[..|windows| - 1]);
      WindowOutStable(heard, next, most, w);
    }
  }

  lemma StartOut(v: Vad, heard: seq<Heard>, base: nat, next: Heard)
    requires Pausing(v, heard, base) && next.voiced
    ensures var w := Window(|heard| - |v.preRoll|, |heard|, None);
            TakeFrame(v, next.frame, true).ready == v.ready + WindowOut(heard + [next], v.most, w)
  {
    var more, w := heard + [next], Window(|heard| - |v.preRoll|, |heard|, None);
    var out := WindowOut(more, v.most, w);
    var flags := GateStep(v.gate, v.most, true).1;
    var started := StartFrames(v.preRoll + [next.frame], flags);
    forall i | 0 <= i < |out|
      ensures out[i] == started[i]
    {
      assert out[i] == FrameOut(more, v.most, w, w.from + i);
      assert (v.preRoll + [next.frame])[i] == more[w.from + i].frame;
    }
    assert out == started;
  }

  lemma SpeechOut(v: Vad, heard: seq<Heard>, w: Window, next: Heard)
    requires Running(v, heard, w.start) && w.end.None? && w.from <= w.start
    ensures var ended := GateStep(v.gate, v.most, next.voiced).1.ended;
            var after := if ended then w.(end := Some(|heard|)) else w;
            && TakeFrame(v, next.frame, next.voiced).ready ==
               v.ready + [FrameOut(heard + [next], v.most, after, |heard|)]
            && WindowOut(heard + [next], v.most, after) ==
               WindowOut(heard, v.most, w) + [FrameOut(heard + [next], v.most, after, |heard|)]
  {
    var more, n := heard + [next], |heard|;
    var ended := GateStep(v.gate, v.most, next.voiced).1.ended;
    var after := if ended then w.(end := Some(n)) else w;
    var before, out := WindowOut(heard, v.most, w), WindowOut(more, v.most, after);
    forall i | 0 <= i < |before|
      ensures out[i] == before[i]
    {
      assert more[w.from + i] == heard[w.from + i];
      assert before[i] == FrameOut(heard, v.most, w, w.from + i);
      assert out[i] == FrameOut(more, v.most, after, w.from + i);
    }
    assert out == before + [out[|before|]];
  }

  lemma WindowsOutSnoc(heard: seq<Heard>, most: nat, front: seq<Window>, w: Window)
    ensures WindowsOut(heard, most, front + [w]) == WindowsOut(heard, most, front) + WindowOut(heard, most, w)
  {
    assert (front + [w])[..|front|] == front;
  }

  lemma NextWindowsSpeech(v: Vad, heard: seq<Heard>, front: seq<Window>, w: Window, next: Heard)
    requires Running(v, heard, w.start)
    ensures var ended := GateStep(v.gate, v.most, next.voiced).1.ended;
            NextWindows(v, front + [w], |heard|, next.voiced) ==
            front + [if ended then w.(end := Some(|heard|)) else w]
  {
    GateSpeech(v, heard, w.start, next);
  }

  lemma NextWindowsPause(v: Vad, heard: seq<Heard>, windows: seq<Window>, next: Heard)
    requires Pausing(v, heard, Base(windows)) && v.room > 0
    ensures NextWindows(v, windows, |heard|, next.voiced) ==
            if next.voiced then windows + [Window(|heard| - |v.preRoll|, |heard|, None)] else windows
    ensures !next.voiced ==> TakeFrame(v, next.frame, false).ready == v.ready
  {
    if next.voiced {
      GateStart(v, heard, Base(windows), next);
    } else {
      GatePause(v, heard, Base(windows), next);
    }
  }

  lemma SpeechOutStep(v: Vad, heard: seq<Heard>, front: seq<Window>, w: Window, next: Heard)
    requires AreClosed(heard, v.most, v.room, front)
    requires Running(v, heard, w.start) && w.end.None? && w.from <= w.start
    requires v.ready == WindowsOut(heard, v.most, front + [w])
    ensures TakeFrame(v, next.frame, next.voiced).ready ==
            WindowsOut(heard + [next], v.most, NextWindows(v, front + [w], |heard|, next.voiced))
  {
    var ended := GateStep(v.gate, v.most, next.voiced).1.ended;
    var after := if ended then w.(end := Some(|heard|)) else w;
    var last := FrameOut(heard + [next], v.most, after, |heard|);
    NextWindowsSpeech(v, heard, front, w, next);
    ClosedOutStable(heard, next, v.most, v.room, front);
    SpeechOut(v, heard, w, next);
    WindowsOutSnoc(heard, v.most, front, w);
    WindowsOutSnoc(heard + [next], v.most, front, after);
    Associate(WindowsOut(heard, v.most, front), WindowOut(heard, v.most, w), [last]);
  }

  lemma PauseOutStep(v: Vad, heard: seq<Heard>, windows: seq<Window>, next: Heard)
    requires AreClosed(heard, v.most, v.room, windows) && v.room > 0
    requires Pausing(v, heard, Base(windows))
    requires v.ready == WindowsOut(heard, v.most, windows)
    ensures TakeFrame(v, next.frame, next.voiced).ready ==
            WindowsOut(heard + [next], v.most, NextWindows(v, windows, |heard|, next.voiced))
  {
    ClosedOutStable(heard, next, v.most, v.room, windows);
    NextWindowsPause(v, heard, windows, next);
    if next.voiced {
      StartOut(v, heard, Base(windows), next);
      WindowsOutSnoc(heard + [next], v.most, windows, Window(|heard| - |v.preRoll|, |heard|, None));
    }
  }

  lemma OutStep(v: Vad, heard: seq<Heard>, windows: seq<Window>, next: Heard)
    requires Inv(v, heard, windows) && v.ready == WindowsOut(heard, v.most, windows)
    ensures TakeFrame(v, next.frame, next.voiced).ready ==
            WindowsOut(heard + [next], v.most, NextWindows(v, windows, |heard|, next.voiced))
  {
    if IsOpen(windows) {
      var front, w := windows[..|windows| - 1], windows[|windows| - 1];
      assert windows == front + [w];
      SpeechOutStep(v, heard, front, w, next);
    } else {
      PauseOutStep(v, heard, windows, next);
    }
  }

  lemma {:induction false} OutRun(v: Vad, heard: seq<Heard>)
    requires v.gate == QuietGate && v.preRoll == [] && !v.segmentActive && v.room > 0 && v.ready == []
    ensures After(v, heard).ready == WindowsOut(heard, v.most, Windows(v, heard))
  {
    if heard != [] {
      var front, last := heard[..|heard| - 1], heard[|heard| - 1];
      InvRun(v, front);
      OutRun(v, front);
      OutStep(After(v, front), front, Windows(v, front), last);
      assert heard == front + [last];
    }
  }

  /** Over every run from a new or reset detector: exactly the stream's segments are
      emitted, frame by frame with their flags, and a segment is active exactly while the
      gate is open. */
  lemma EmitsTheSegments(maxSeconds: nat, enhanced: bool, heard: seq<Heard>)
    ensures var v := NewVad(maxSeconds, enhanced);
            var t := After(v, heard);
            && AreWindows(heard, v.most, v.room, Windows(v, heard))
            && t.ready == WindowsOut(heard, v.most, Windows(v, heard))
            && t.segmentActive == t.gate.speaking == IsOpen(Windows(v, heard))
  {
    InvRun(NewVad(maxSeconds, enhanced), heard);
    OutRun(NewVad(maxSeconds, enhanced), heard);
  }

  lemma {:induction false} ClosedUnique(heard: seq<Heard>, most: nat, room: nat, a: seq<Window>, b: seq<Window>, i: nat)
    requires AreClosed(heard, most, room, a) && AreClosed(heard, most, room, b) && i <= |a| && i <= |b|
    ensures a[..i] == b[..i]
  {
    if i > 0 {
      ClosedUnique(heard, most, room, a, b, i - 1);
      NextUnique(heard, most, room, a, b, i - 1);
      assert a[..i] == a[..i - 1] + [a[i - 1]] && b[..i] == b[..i - 1] + [b[i - 1]];
    }
  }

  lemma NextUnique(heard: seq<Heard>, most: nat, room: nat, a: seq<Window>, b: seq<Window>, i: nat)
    requires AreClosed(heard, most, room, a) && AreClosed(heard, most, room, b) && i < |a| && i < |b|
    requires a[..i] == b[..i]
    ensures a[i] == b[i]
  {
    NthWindow(heard, most, room, a, i);
    NthWindow(heard, most, room, b, i);
    WindowUnique(heard, most, room, Base(a[..i]), a[i], b[i]);
  }

  lemma {:induction false} NthWindow(heard: seq<Heard>, most: nat, room: nat, windows: seq<Window>, i: nat)
    requires AreClosed(heard, most, room, windows) && i < |windows|
    ensures IsWindow(heard, most, room, Base(windows[..i]), windows[i]) && windows[i].end.Some?
  {
    var front := windows[..|windows| - 1];
    if i < |front| {
      NthWindow(heard, most, room, front, i);
      assert front[..i] == windows[..i];
    }
  }

  lemma WindowUnique(heard: seq<Heard>, most: nat, room: nat, base: nat, a: Window, b: Window)
    requires IsWindow(heard, most, room, base, a) && IsWindow(heard, most, room, base, b)
    ensures a == b
  {
    assert a.start == b.start;
    if a.end.Some? && b.end.Some? {
      assert a.end.value == b.end.value;
    }
  }

  function ClosedPart(windows: seq<Window>): seq<Window> {
    if IsOpen(windows) then windows[..|windows| - 1] else windows
  }

  lemma NoMoreClosed(heard: seq<Heard>, most: nat, room: nat, a: seq<Window>, b: seq<Window>)
    requires AreWindows(heard, most, room, a) && AreWindows(heard, most, room, b)
    ensures |ClosedPart(b)| <= |ClosedPart(a)|
  {
    var x, y := ClosedPart(a), ClosedPart(b);
    if |x| < |y| {
      ClosedUnique(heard, most, room, x, y, |x|);
      NthWindow(heard, most, room, y, |x|);
      assert x[..|x|] == x;
      if IsOpen(a) {
        WindowUnique(heard, most, room, Base(x), a[|x|], y[|x|]);
      }
    }
  }

  /** There is only one way to cut a stream into segments. */
  lemma SegmentsUnique(heard: seq<Heard>, most: nat, room: nat, a: seq<Window>, b: seq<Window>)
    requires AreWindows(heard, most, room, a) && AreWindows(heard, most, room, b)
    ensures a == b
  {
    var x, y := ClosedPart(a), ClosedPart(b);
    NoMoreClosed(heard, most, room, a, b);
    NoMoreClosed(heard, most, room, b, a);
    ClosedUnique(heard, most, room, x, y, |x|);
    assert x == x[..|x|] == y[..|x|] == y;
    if IsOpen(a) && IsOpen(b) {
      WindowUnique(heard, most, room, Base(x), a[|x|], b[|x|]);
    }
  }

  /** A segment is at most the pre-roll and the longest duration long, starts after the one
      before it, and has only voiced frames' decisions on its side of the start. */
  lemma WindowShape(heard: seq<Heard>, most: nat, room: nat, base: nat, w: Window)
    requires most >= 2 && IsWindow(heard, most, room, base, w)
    ensures base <= w.from && Last(heard, w) + 1 - w.from <= room + most
    ensures |WindowOut(heard, most, w)| == Last(heard, w) + 1 - w.from
    ensures forall i :: 0 <= i < |WindowOut(heard, most, w)| ==>
              var out := WindowOut(heard, most, w)[i];
              && out.frame == heard[w.from + i].frame
              && (out.flags.started <==> i == 0)
              && (out.flags.ended <==> w.end == Some(w.from + i))
  {
    var last := Last(heard, w);
    forall i | 0 <= i < |WindowOut(heard, most, w)|
      ensures WindowOut(heard, most, w)[i] == FrameOut(heard, most, w, w.from + i)
    {
    }
    if last > w.start + 1 {
      assert !ClosesAt(heard, most, w.start, if w.end.Some? then last - 1 else last);
    } else if last == w.start + 1 && w.end.None? {
      assert !ClosesAt(heard, most, w.start, last);
    }
  }
}
