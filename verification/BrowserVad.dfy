/** The browser's speech gate and segment routing. A frame comes with the decision of the
    model and the acoustic gates whether it is voiced, which may be anything. */
module BrowserVad {
  import opened Audio
  import opened Common

  const END_SILENCE_FRAMES: nat := 88
  const PRE_ROLL_FRAMES: nat := 16
  const ENHANCED_PRE_ROLL_FRAMES: nat := 32
  const FORCED_CONTINUATION_FRAMES: nat := 6
  const START_TRIGGER_FRAMES: nat := 1

  /** The bits of a frame's flag word. */
  datatype Flags = Flags(started: bool, active: bool, ended: bool, voiced: bool, forced: bool)

  function MaxActiveFrames(maxSeconds: nat): nat {
    (if maxSeconds < 5 then 5 else if maxSeconds > 20 then 20 else maxSeconds) * 1_000 / 32
  }

  // --------------------------------------------------------------------- the gate

  datatype Gate = Gate(speaking: bool, voicedRun: nat, silenceRun: nat, activeFrames: nat, continuation: nat)

  const QuietGate := Gate(false, 0, 0, 0, 0)

  function GateStep(g: Gate, most: nat, voiced: bool): (Gate, Flags) {
    if !g.speaking then
      var run := if voiced then g.voicedRun + 1 else 0;
      if run >= START_TRIGGER_FRAMES then (Gate(true, run, 0, 1, 0), Flags(true, true, false, voiced, false))
      else (g.(voicedRun := run, continuation := if g.continuation == 0 then 0 else g.continuation - 1),
            Flags(false, false, false, voiced, false))
    else
      var activeFrames := g.activeFrames + 1;
      var silence := if voiced then 0 else g.silenceRun + 1;
      var forced := activeFrames >= most;
      if silence >= END_SILENCE_FRAMES || forced then
        (Gate(false, 0, 0, 0, if forced && voiced then FORCED_CONTINUATION_FRAMES else 0),
         Flags(false, false, true, voiced, forced))
      else (g.(activeFrames := activeFrames, silenceRun := silence), Flags(false, true, false, voiced, false))
  }

  class SpeechGate {
    const maxActiveFrames: nat
    var speaking: bool
    var voicedRun: nat
    var silenceRun: nat
    var activeFrames: nat
    var continuation: nat

    function Value(): Gate
      reads this
    {
      Gate(speaking, voicedRun, silenceRun, activeFrames, continuation)
    }

    constructor (maxSeconds: nat)
      ensures Value() == QuietGate && maxActiveFrames == MaxActiveFrames(maxSeconds)
    {
      maxActiveFrames := MaxActiveFrames(maxSeconds);
      speaking, voicedRun, silenceRun, activeFrames, continuation := false, 0, 0, 0, 0;
    }

    method Process(voiced: bool) returns (flags: Flags)
      modifies this
      ensures (Value(), flags) == GateStep(old(Value()), maxActiveFrames, voiced)
    {
      flags := Flags(false, false, false, voiced, false);
      if !speaking {
        voicedRun := if voiced then voicedRun + 1 else 0;
        if voicedRun >= START_TRIGGER_FRAMES {
          speaking, silenceRun, activeFrames, continuation := true, 0, 1, 0;
          flags := flags.(started := true, active := true);
        } else if continuation > 0 {
          continuation := continuation - 1;
        }
        return;
      }
      activeFrames := activeFrames + 1;
      silenceRun := if voiced then 0 else silenceRun + 1;
      var forced := activeFrames >= maxActiveFrames;
      if silenceRun >= END_SILENCE_FRAMES || forced {
        speaking, voicedRun, silenceRun, activeFrames := false, 0, 0, 0;
        continuation := if forced && voiced then FORCED_CONTINUATION_FRAMES else 0;
        flags := flags.(ended := true, forced := forced);
      } else {
        flags := flags.(active := true);
      }
    }

    method Reset()
      modifies this
      ensures Value() == QuietGate
    {
      speaking, voicedRun, silenceRun, activeFrames, continuation := false, 0, 0, 0, 0;
    }
  }

  // ------------------------------------------------------------------- the routing

  type Frame = seq<Sample>

  datatype Out = Out(frame: Frame, flags: Flags)

  /** `most` is the longest segment and `room` the size of the pre-roll. */
  datatype Vad = Vad(most: nat, room: nat, gate: Gate, preRoll: seq<Frame>, ready: seq<Out>, segmentActive: bool)

  function NewVad(maxSeconds: nat, enhanced: bool): Vad {
    Vad(MaxActiveFrames(maxSeconds), if enhanced then ENHANCED_PRE_ROLL_FRAMES else PRE_ROLL_FRAMES,
        QuietGate, [], [], false)
  }

  /** The pre-roll leaves as the start of a segment; the last frame is the one that
      started it. */
  function StartFrames(preRoll: seq<Frame>, flags: Flags): seq<Out> {
    seq(|preRoll|, i requires 0 <= i < |preRoll| =>
      Out(preRoll[i], Flags(i == 0, true, i == |preRoll| - 1 && flags.ended,
                            i == |preRoll| - 1 && flags.voiced, i == |preRoll| - 1 && flags.forced)))
  }

  function Route(v: Vad, frame: Frame, flags: Flags): Vad {
    var routed :=
      if flags.started then
        v.(segmentActive := true, preRoll := [], ready := v.ready + StartFrames(v.preRoll + [frame], flags))
      else if v.segmentActive then v.(ready := v.ready + [Out(frame, flags)])
      else v.(preRoll := (if |v.preRoll| == v.room && v.room > 0 then v.preRoll[1..] else v.preRoll) + [frame]);
    if flags.ended then routed.(segmentActive := false, preRoll := []) else routed
  }

  function TakeFrame(v: Vad, frame: Frame, voiced: bool): Vad {
    var (gate, flags) := GateStep(v.gate, v.most, voiced);
    Route(v.(gate := gate), frame, flags)
  }

  function ResetVad(v: Vad): Vad {
    Vad(v.most, v.room, QuietGate, [], [], false)
  }

  class BrowserAudioVad {
    const gate: SpeechGate
    const preRollFrames: nat
    var preRoll: seq<Frame>
    var ready: seq<Out>
    var segmentActive: bool

    function Value(): Vad
      reads this, gate
    {
      Vad(gate.maxActiveFrames, preRollFrames, gate.Value(), preRoll, ready, segmentActive)
    }

    constructor (maxSeconds: nat, enhanced: bool)
      ensures Value() == NewVad(maxSeconds, enhanced) && fresh(gate)
    {
      gate := new SpeechGate(maxSeconds);
      preRollFrames := if enhanced then ENHANCED_PRE_ROLL_FRAMES else PRE_ROLL_FRAMES;
      preRoll, ready, segmentActive := [], [], false;
    }

    method RouteFrame(frame: Frame, flags: Flags)
      modifies this
      ensures Value() == Route(old(Value()), frame, flags)
    {
      if flags.started {
        segmentActive := true;
        preRoll := preRoll + [frame];
        var last := |preRoll| - 1;
        for index := 0 to |preRoll|
          invariant preRoll == old(preRoll) + [frame] && segmentActive
          invariant ready == old(ready) + StartFrames(preRoll, flags)[..index]
        {
          var output := Flags(false, true, false, false, false);
          if index == 0 {
            output := output.(started := true);
          }
          if index == last {
            output := output.(voiced := flags.voiced, forced := flags.forced, ended := flags.ended);
          }
          ready := ready + [Out(preRoll[index], output)];
        }
        preRoll := [];
      } else if segmentActive {
        ready := ready + [Out(frame, flags)];
      } else {
        if |preRoll| == preRollFrames && preRollFrames > 0 {
          preRoll := preRoll[1..];
        }
        preRoll := preRoll + [frame];
      }
      if flags.ended {
        segmentActive := false;
        preRoll := [];
      }
    }

    method PushFrame(frame: Frame, voiced: bool)
      modifies this, gate
      ensures Value() == TakeFrame(old(Value()), frame, voiced)
    {
      var flags := gate.Process(voiced);
      RouteFrame(frame, flags);
    }

    method NextFrame() returns (next: Option<Out>)
      modifies this
      ensures next == if old(ready) == [] then None else Some(old(ready)[0])
      ensures Value() == old(Value()).(ready := if old(ready) == [] then [] else old(ready)[1..])
    {
      if ready == [] {
        return None;
      }
      next := Some(ready[0]);
      ready := ready[1..];
    }

    method Reset()
      modifies this, gate
      ensures Value() == ResetVad(old(Value()))
    {
      gate.Reset();
      preRoll, ready, segmentActive := [], [], false;
    }
  }

  // ------------------------------------------------- what a stream's segments should be

  /** The microphone's frames since the last reset, and the decision on each. */
  datatype Heard = Heard(frame: Frame, voiced: bool)

  /** A gate opened at `start` closes at `e`: a silence of 88 frames ends there, or the
      segment is at its longest. */
  predicate ClosesAt(heard: seq<Heard>, most: nat, start: nat, e: nat)
    requires start < e < |heard|
  {
    || e - start + 1 >= most
    || (e - start >= END_SILENCE_FRAMES && forall k :: e - END_SILENCE_FRAMES < k <= e ==> !heard[k].voiced)
  }

  /** Frames `from` to `end`; the gate opened at `start`. An open segment has no end. */
  datatype Window = Window(from: nat, start: nat, end: Option<nat>)

  /** The segment following position `base`: nothing is voiced before its start, the
      pre-roll is as much of the pause as fits, and it ends as soon as the gate may close. */
  ghost predicate IsWindow(heard: seq<Heard>, most: nat, room: nat, base: nat, w: Window) {
    && base <= w.from <= w.start < |heard|
    && w.from == (if w.start - base <= room then base else w.start - room)
    && (forall k :: base <= k < w.start ==> !heard[k].voiced)
    && heard[w.start].voiced
    && (match w.end
        case Some(e) =>
          && w.start < e < |heard| && ClosesAt(heard, most, w.start, e)
          && (forall k :: w.start < k < e ==> !ClosesAt(heard, most, w.start, k))
        case None => forall k :: w.start < k < |heard| ==> !ClosesAt(heard, most, w.start, k))
  }

  /** Where the search for the segment after these begins. */
  function Base(windows: seq<Window>): nat {
    if windows == [] then 0 else windows[|windows| - 1].end.GetOr(0) + 1
  }

  predicate IsOpen(windows: seq<Window>) {
    windows != [] && windows[|windows| - 1].end.None?
  }

  /** Closed segments, each following the one before. */
  ghost predicate AreClosed(heard: seq<Heard>, most: nat, room: nat, windows: seq<Window>) {
    windows == [] ||
    (var front, w := windows[..|windows| - 1], windows[|windows| - 1];
     AreClosed(heard, most, room, front) && w.end.Some? && IsWindow(heard, most, room, Base(front), w))
  }

  /** The segments of the stream: only the last may be open, and if none is, nothing is
      voiced after the last. */
  ghost predicate AreWindows(heard: seq<Heard>, most: nat, room: nat, windows: seq<Window>) {
    if IsOpen(windows) then
      var front := windows[..|windows| - 1];
      AreClosed(heard, most, room, front) && IsWindow(heard, most, room, Base(front), windows[|windows| - 1])
    else
      && AreClosed(heard, most, room, windows)
      && forall k :: Base(windows) <= k < |heard| ==> !heard[k].voiced
  }

  function Last(heard: seq<Heard>, w: Window): int {
    if w.end.Some? then w.end.value else |heard| - 1
  }

  /** What is emitted for frame `k` of a window. */
  function FrameOut(heard: seq<Heard>, most: nat, w: Window, k: nat): Out
    requires k < |heard|
  {
    Out(heard[k].frame,
        Flags(k == w.from, w.end != Some(k), w.end == Some(k), k >= w.start && heard[k].voiced,
              w.end == Some(k) && k - w.start + 1 >= most))
  }

  function WindowOut(heard: seq<Heard>, most: nat, w: Window): seq<Out> {
    if w.from <= Last(heard, w) < |heard| then
      seq(Last(heard, w) + 1 - w.from, i requires 0 <= i < Last(heard, w) + 1 - w.from =>
        FrameOut(heard, most, w, w.from + i))
    else []
  }

  /** Everything emitted for the segments, in order. */
  function WindowsOut(heard: seq<Heard>, most: nat, windows: seq<Window>): seq<Out> {
    if windows == [] then []
    else WindowsOut(heard, most, windows[..|windows| - 1]) + WindowOut(heard, most, windows[|windows| - 1])
  }
}
