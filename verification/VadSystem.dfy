/** Detector and worker together, over every run of frames, drains, flushes and
    suppressions. The detector is where the frames since the last reset put it, and what it
    emitted is what was drained and what is ready; the worker has an entry for every segment
    it has seen, and its variables describe the last. A reset ends the open segment, and
    both start anew. */
module VadSystem {
  import opened Common
  import opened BrowserVad
  import opened VadWorker
  import R = VadRuns

  datatype Event =
    | Hear(frame: Frame, voiced: bool)
    | DrainOne(count: nat)
    | Flush(count: nat)
    | Suppress(value: bool, count: nat)

  /** `heard` and `drained` are what came in and went out since the last reset, a frame going
      out together with what the counter said at it; `log` has an
      entry for every segment the worker has seen, those since the reset from `epoch` on. */
  datatype System = System(
    vad: Vad, worker: Worker, posts: seq<Post>,
    heard: seq<Heard>, drained: seq<Drained>, log: seq<Entry>, epoch: nat)

  function NewSystem(maxSeconds: nat, enhanced: bool): System {
    System(NewVad(maxSeconds, enhanced), NewWorker(enhanced), [], [], [], [], 0)
  }

  function Reset(s: System, worker: Worker, count: nat): System {
    var (next, more) := Abandon(worker, count);
    var log := LogAbandoned(s.log, count);
    System(ResetVad(s.vad), next, s.posts + more, [], [], log, |log|)
  }

  function Step(s: System, e: Event): System {
    match e
    case Hear(frame, voiced) =>
      if s.worker.suppressed then s
      else s.(vad := TakeFrame(s.vad, frame, voiced), heard := s.heard + [Heard(frame, voiced)])
    case DrainOne(count) =>
      if s.vad.ready == [] then s
      else
        var out := s.vad.ready[0];
        var (next, more) := Drain(s.worker, out, count);
        s.(vad := s.vad.(ready := s.vad.ready[1..]), worker := next, posts := s.posts + more,
           drained := s.drained + [Drained(out, count)], log := LogDrained(s.log, s.worker.enhanced, out, count))
    case Flush(count) => Reset(s, s.worker, count)
    case Suppress(value, count) => Reset(s, s.worker.(suppressed := value), count)
  }

  function Run(s: System, events: seq<Event>): System {
    if events == [] then s else Step(Run(s, events[..|events| - 1]), events[|events| - 1])
  }

  // -------------------------------------------------------------------------- grouping

  function Outs(drained: seq<Drained>): seq<Out> {
    seq(|drained|, i requires 0 <= i < |drained| => drained[i].out)
  }

  /** The drained frames cut at the starts. */
  function Groups(drained: seq<Drained>): seq<seq<Drained>> {
    if drained == [] then []
    else
      var groups, last := Groups(drained[..|drained| - 1]), drained[|drained| - 1];
      if last.out.flags.started || groups == [] then groups + [[last]]
      else groups[|groups| - 1 := groups[|groups| - 1] + [last]]
  }

  predicate Confirmed(group: seq<Drained>) {
    exists k :: 0 <= k < |group| && group[k].count >= MIN_CONFIRMED_SPEECH_FRAMES
  }

  function EndOf(group: seq<Drained>): Option<Post> {
    if group == [] || !group[|group| - 1].out.flags.ended then None
    else
      var last := group[|group| - 1];
      Some(SpeechEnd(if last.out.flags.forced then MaxDuration else Silence, last.count))
  }

  function GroupFrames(group: seq<Drained>): seq<Frame> {
    seq(|group|, i requires 0 <= i < |group| => group[i].out.frame)
  }

  /** What the worker should make of a segment's drained frames: it is accepted at once
      without the enhanced filter, and otherwise if the counter confirms it at any frame. */
  function EntryOf(enhanced: bool, group: seq<Drained>): Entry {
    Entry(GroupFrames(group), !enhanced || Confirmed(group), EndOf(group))
  }

  function EntriesOf(enhanced: bool, groups: seq<seq<Drained>>): seq<Entry> {
    seq(|groups|, i requires 0 <= i < |groups| => EntryOf(enhanced, groups[i]))
  }

  /** Starts are at the beginning and after ends, and nowhere else. */
  ghost predicate Bracketed(outs: seq<Out>) {
    && (outs != [] ==> outs[0].flags.started)
    && forall i, j :: 0 <= i < j < |outs| && j == i + 1 ==> (outs[j].flags.started <==> outs[i].flags.ended)
  }

  predicate LeftOpen(outs: seq<Out>) {
    outs != [] && !outs[|outs| - 1].flags.ended
  }

  lemma WindowBracketed(heard: seq<Heard>, most: nat, w: Window)
    requires w.from <= Last(heard, w) < |heard|
    ensures Bracketed(WindowOut(heard, most, w)) && (LeftOpen(WindowOut(heard, most, w)) <==> w.end.None?)
    ensures WindowOut(heard, most, w) != []
  {
    var outs := WindowOut(heard, most, w);
    forall i | 0 <= i < |outs|
      ensures outs[i] == FrameOut(heard, most, w, w.from + i)
    {
    }
  }

  lemma BracketedConcat(a: seq<Out>, b: seq<Out>)
    requires Bracketed(a) && Bracketed(b) && !LeftOpen(a)
    ensures Bracketed(a + b) && (b != [] ==> LeftOpen(a + b) == LeftOpen(b))
  {
    var c := a + b;
    assert forall i :: 0 <= i < |a| ==> c[i] == a[i];
    assert forall i :: |a| <= i < |c| ==> c[i] == b[i - |a|];
    if a != [] && b != [] {
      assert c[|a|] == b[0] && c[|a| - 1] == a[|a| - 1];
    }
  }

  lemma {:induction false} ClosedBracketed(heard: seq<Heard>, most: nat, room: nat, windows: seq<Window>)
    requires AreClosed(heard, most, room, windows)
    ensures Bracketed(WindowsOut(heard, most, windows)) && !LeftOpen(WindowsOut(heard, most, windows))
  {
    if windows != [] {
      var front, w := windows[..|windows| - 1], windows[|windows| - 1];
      ClosedBracketed(heard, most, room, front);
      WindowBracketed(heard, most, w);
      BracketedConcat(WindowsOut(heard, most, front), WindowOut(heard, most, w));
    }
  }

  lemma WindowsBracketed(heard: seq<Heard>, most: nat, room: nat, windows: seq<Window>)
    requires AreWindows(heard, most, room, windows)
    ensures Bracketed(WindowsOut(heard, most, windows))
  {
    if IsOpen(windows) {
      var front, w := windows[..|windows| - 1], windows[|windows| - 1];
      ClosedBracketed(heard, most, room, front);
      WindowBracketed(heard, most, w);
      BracketedConcat(WindowsOut(heard, most, front), WindowOut(heard, most, w));
    } else {
      ClosedBracketed(heard, most, room, windows);
    }
  }

  /** The frames of the input that a segment covers. */
  function Covered(heard: seq<Heard>, w: Window): seq<Frame> {
    if w.from <= Last(heard, w) < |heard| then R.FramesOf(heard)[w.from..Last(heard, w) + 1] else []
  }

  lemma {:induction false} GroupsOfRun(a: seq<Drained>, b: seq<Drained>)
    requires b != [] && b[0].out.flags.started && forall i :: 0 < i < |b| ==> !b[i].out.flags.started
    ensures Groups(a + b) == Groups(a) + [b]
    decreases |b|
  {
    var front, last := b[..|b| - 1], b[|b| - 1];
    assert (a + b)[..|a + b| - 1] == a + front;
    assert b == front + [last];
    if front == [] {
      assert a + front == a;
    } else {
      assert front[0] == b[0];
      GroupsOfRun(a, front);
      assert (Groups(a) + [front])[|Groups(a)| := b] == Groups(a) + [b];
    }
  }

  lemma GroupsOfWindow(a: seq<Drained>, b: seq<Drained>, heard: seq<Heard>, most: nat, w: Window)
    requires w.from <= Last(heard, w) < |heard| && Outs(b) == WindowOut(heard, most, w)
    ensures Groups(a + b) == Groups(a) + [b]
  {
    var outs := WindowOut(heard, most, w);
    forall i | 0 <= i < |b|
      ensures b[i].out == FrameOut(heard, most, w, w.from + i)
    {
      assert b[i].out == Outs(b)[i] == outs[i];
    }
    assert |b| == |outs|;
    GroupsOfRun(a, b);
  }

  /** When exactly these segments have been drained, the groups are the segments. */
  ghost predicate GroupsAre(groups: seq<seq<Drained>>, heard: seq<Heard>, most: nat, windows: seq<Window>) {
    |groups| == |windows| && forall i :: 0 <= i < |windows| ==> Outs(groups[i]) == WindowOut(heard, most, windows[i])
  }

  lemma {:induction false} GroupsOfWindows(drained: seq<Drained>, heard: seq<Heard>, most: nat, windows: seq<Window>)
    requires forall i :: 0 <= i < |windows| ==> windows[i].from <= Last(heard, windows[i]) < |heard|
    requires Outs(drained) == WindowsOut(heard, most, windows)
    ensures GroupsAre(Groups(drained), heard, most, windows)
    decreases |windows|
  {
    assert |Outs(drained)| == |drained|;
    if windows != [] {
      var front, w := windows[..|windows| - 1], windows[|windows| - 1];
      var n := |WindowsOut(heard, most, front)|;
      var a, b := drained[..n], drained[n..];
      OutsSplit(drained, WindowsOut(heard, most, front), WindowOut(heard, most, w));
      GroupsOfWindows(a, heard, most, front);
      assert a + b == drained;
      GroupsOfLast(a, b, heard, most, windows);
    }
  }

  lemma GroupsOfLast(a: seq<Drained>, b: seq<Drained>, heard: seq<Heard>, most: nat, windows: seq<Window>)
    requires windows != [] && GroupsAre(Groups(a), heard, most, windows[..|windows| - 1])
    requires var w := windows[|windows| - 1];
             w.from <= Last(heard, w) < |heard| && Outs(b) == WindowOut(heard, most, w)
    ensures GroupsAre(Groups(a + b), heard, most, windows)
  {
    GroupsOfWindow(a, b, heard, most, windows[|windows| - 1]);
    GroupsAreMore(Groups(a), b, heard, most, windows);
  }

  lemma GroupsAreMore(groups: seq<seq<Drained>>, group: seq<Drained>, heard: seq<Heard>, most: nat,
                      windows: seq<Window>)
    requires windows != [] && GroupsAre(groups, heard, most, windows[..|windows| - 1])
    requires Outs(group) == WindowOut(heard, most, windows[|windows| - 1])
    ensures GroupsAre(groups + [group], heard, most, windows)
  {
  }

  lemma OutsSplit(drained: seq<Drained>, a: seq<Out>, b: seq<Out>)
    requires Outs(drained) == a + b
    ensures |a| <= |drained| && Outs(drained[..|a|]) == a && Outs(drained[|a|..]) == b
  {
    assert |drained| == |a + b|;
    assert forall i :: 0 <= i < |a| ==> Outs(drained)[i] == a[i];
    assert forall i :: 0 <= i < |b| ==> Outs(drained)[|a| + i] == b[i];
  }

  function EndedFor(w: Window, most: nat): EndReason
    requires w.end.Some?
  {
    if w.end.value - w.start + 1 >= most then MaxDuration else Silence
  }

  /** What a segment's group is made of, and how it ends. */
  lemma GroupOfWindow(group: seq<Drained>, heard: seq<Heard>, most: nat, w: Window)
    requires w.from <= Last(heard, w) < |heard| && Outs(group) == WindowOut(heard, most, w)
    ensures group != [] && GroupFrames(group) == Covered(heard, w)
    ensures EndOf(group) ==
            if w.end.None? then None
            else Some(SpeechEnd(EndedFor(w, most), group[|group| - 1].count))
  {
    assert |group| == |Outs(group)|;
    forall i | 0 <= i < |group|
      ensures group[i].out == FrameOut(heard, most, w, w.from + i)
    {
      assert group[i].out == Outs(group)[i];
    }
    assert w.from + |group| - 1 == Last(heard, w);
  }

  lemma {:induction false} ClosedInRange(heard: seq<Heard>, most: nat, room: nat, windows: seq<Window>)
    requires AreClosed(heard, most, room, windows)
    ensures forall i :: 0 <= i < |windows| ==> windows[i].from <= Last(heard, windows[i]) < |heard|
  {
    if windows != [] {
      ClosedInRange(heard, most, room, windows[..|windows| - 1]);
    }
  }

  lemma InRange(heard: seq<Heard>, most: nat, room: nat, windows: seq<Window>)
    requires AreWindows(heard, most, room, windows)
    ensures forall i :: 0 <= i < |windows| ==> windows[i].from <= Last(heard, windows[i]) < |heard|
  {
    ClosedInRange(heard, most, room, if IsOpen(windows) then windows[..|windows| - 1] else windows);
  }

  // ------------------------------------------------------------------------- invariant

  /** The detector is where the frames since the reset put it; what it emitted is what was
      drained and what is ready. */
  ghost predicate VadInv(s: System, start: Vad) {
    var t := R.After(start, s.heard);
    && s.vad.(ready := []) == t.(ready := [])
    && Outs(s.drained) + s.vad.ready == t.ready
    && Bracketed(t.ready)
  }

  /** Only the last segment may be without its end. */
  ghost predicate OnlyLastOpen(log: seq<Entry>) {
    forall i :: 0 <= i < |log| - 1 ==> log[i].end.Some?
  }

  /** The entries since the reset are what the worker should make of what was drained. */
  ghost predicate WorkerInv(s: System) {
    && Describes(s.worker, s.log) && s.posts == LogPosts(s.log)
    && LogFits(s.log, s.epoch, s.drained, s.worker.enhanced)
  }

  ghost predicate LogFits(log: seq<Entry>, epoch: nat, drained: seq<Drained>, enhanced: bool) {
    && OnlyLastOpen(log) && (HasOpen(log) <==> LeftOpen(Outs(drained)))
    && epoch <= |log| && (HasOpen(log) ==> epoch < |log|)
    && log[epoch..] == EntriesOf(enhanced, Groups(drained))
  }

  lemma TakeFrameReady(v: Vad, ready: seq<Out>, frame: Frame, voiced: bool)
    ensures TakeFrame(v, frame, voiced).(ready := []) == TakeFrame(v.(ready := ready), frame, voiced).(ready := [])
    ensures exists more :: TakeFrame(v, frame, voiced).ready == v.ready + more
                           && TakeFrame(v.(ready := ready), frame, voiced).ready == ready + more
  {
    var (gate, flags) := GateStep(v.gate, v.most, voiced);
    var more := if flags.started then StartFrames(v.preRoll + [frame], flags)
                else if v.segmentActive then [Out(frame, flags)] else [];
    assert TakeFrame(v, frame, voiced).ready == v.ready + more;
    assert TakeFrame(v.(ready := ready), frame, voiced).ready == ready + more;
  }

  lemma AllBracketed(maxSeconds: nat, enhanced: bool, heard: seq<Heard>)
    ensures Bracketed(R.After(NewVad(maxSeconds, enhanced), heard).ready)
  {
    var v := NewVad(maxSeconds, enhanced);
    R.EmitsTheSegments(maxSeconds, enhanced, heard);
    WindowsBracketed(heard, v.most, v.room, R.Windows(v, heard));
  }

  lemma HearKeeps(s: System, maxSeconds: nat, enhanced: bool, frame: Frame, voiced: bool)
    requires VadInv(s, NewVad(maxSeconds, enhanced)) && !s.worker.suppressed
    ensures VadInv(Step(s, Hear(frame, voiced)), NewVad(maxSeconds, enhanced))
  {
    var start := NewVad(maxSeconds, enhanced);
    var t, next := R.After(start, s.heard), Step(s, Hear(frame, voiced));
    assert next.heard[..|s.heard|] == s.heard;
    assert s.vad == t.(ready := s.vad.ready);
    TakeFrameReady(t, s.vad.ready, frame, voiced);
    AllBracketed(maxSeconds, enhanced, next.heard);
    var more :| TakeFrame(t, frame, voiced).ready == t.ready + more
                && TakeFrame(t.(ready := s.vad.ready), frame, voiced).ready == s.vad.ready + more;
    Associate(Outs(s.drained), s.vad.ready, more);
  }

  /** One more frame in a group is one more frame in its entry. */
  lemma EntryMore(enhanced: bool, group: seq<Drained>, last: Drained)
    ensures EntryOf(enhanced, group + [last]) == AddToEntry(EntryOf(enhanced, group), last.out, last.count)
  {
    var more := group + [last];
    assert GroupFrames(more) == GroupFrames(group) + [last.out.frame];
    assert more[|group|] == last;
    if Confirmed(group) {
      var k :| 0 <= k < |group| && group[k].count >= MIN_CONFIRMED_SPEECH_FRAMES;
      assert more[k] == group[k];
    }
    if Confirmed(more) && last.count < MIN_CONFIRMED_SPEECH_FRAMES {
      var k :| 0 <= k < |more| && more[k].count >= MIN_CONFIRMED_SPEECH_FRAMES;
      assert group[k] == more[k];
    }
  }

  lemma EntryFirst(enhanced: bool, last: Drained)
    ensures EntryOf(enhanced, [last]) == AddToEntry(Entry([], !enhanced, None), last.out, last.count)
  {
    EntryMore(enhanced, [], last);
    assert [] + [last] == [last];
    assert EntryOf(enhanced, []) == Entry([], !enhanced, None);
  }

  /** The log gains what the groups gain. */
  lemma GroupsStep(drained: seq<Drained>, last: Drained, log: seq<Entry>, epoch: nat, enhanced: bool)
    requires epoch <= |log| && log[epoch..] == EntriesOf(enhanced, Groups(drained))
    requires (HasOpen(log) ==> epoch < |log|) && (last.out.flags.started <==> !HasOpen(log))
    ensures var longer := LogDrained(log, enhanced, last.out, last.count);
            epoch < |longer| && longer[epoch..] == EntriesOf(enhanced, Groups(drained + [last]))
  {
    var groups, longer := Groups(drained), LogDrained(log, enhanced, last.out, last.count);
    assert |groups| == |log[epoch..]|;
    if HasOpen(log) {
      var k := |groups| - 1;
      assert log[epoch..][k] == EntryOf(enhanced, groups[k]);
      EntryMore(enhanced, groups[k], last);
      assert longer[epoch..] == log[epoch..][k := EntryOf(enhanced, groups[k] + [last])];
    } else {
      EntryFirst(enhanced, last);
      assert longer[epoch..] == log[epoch..] + [EntryOf(enhanced, [last])];
    }
  }

  lemma VadDrains(s: System, start: Vad, count: nat)
    requires VadInv(s, start) && s.vad.ready != []
    ensures VadInv(Step(s, DrainOne(count)), start)
  {
    var out := s.vad.ready[0];
    assert Outs(s.drained) + [out] + s.vad.ready[1..] == Outs(s.drained) + s.vad.ready;
  }

  lemma DrainKeeps(s: System, start: Vad, count: nat)
    requires VadInv(s, start) && WorkerInv(s) && s.vad.ready != []
    ensures VadInv(Step(s, DrainOne(count)), start) && WorkerInv(Step(s, DrainOne(count)))
  {
    VadDrains(s, start, count);
    StartsWhenClosed(R.After(start, s.heard).ready, Outs(s.drained), s.vad.ready);
    WorkerDrains(s, s.vad.ready[0], count);
  }

  /** The next frame starts a segment exactly if the frames before it leave none open. */
  lemma StartsWhenClosed(all: seq<Out>, drained: seq<Out>, ready: seq<Out>)
    requires all == drained + ready && Bracketed(all) && ready != []
    ensures ready[0].flags.started <==> !LeftOpen(drained)
  {
    var n := |drained|;
    assert all[n] == ready[0];
    if n > 0 {
      assert all[n - 1] == drained[n - 1];
    }
  }

  lemma WorkerDrains(s: System, out: Out, count: nat)
    requires WorkerInv(s) && s.vad.ready != [] && out == s.vad.ready[0]
    requires out.flags.started <==> !LeftOpen(Outs(s.drained))
    ensures WorkerInv(Step(s, DrainOne(count)))
  {
    DrainPosts(s.worker, s.log, out, count);
    LogDrains(s.log, s.epoch, s.drained, s.worker.enhanced, Drained(out, count));
  }

  lemma LogDrains(log: seq<Entry>, epoch: nat, drained: seq<Drained>, enhanced: bool, last: Drained)
    requires LogFits(log, epoch, drained, enhanced)
    requires last.out.flags.started <==> !LeftOpen(Outs(drained))
    ensures LogFits(LogDrained(log, enhanced, last.out, last.count), epoch, drained + [last], enhanced)
  {
    GroupsStep(drained, last, log, epoch, enhanced);
  }

  lemma ResetKeeps(s: System, maxSeconds: nat, enhanced: bool, worker: Worker, count: nat)
    requires s.vad.most == NewVad(maxSeconds, enhanced).most && s.vad.room == NewVad(maxSeconds, enhanced).room
    requires WorkerInv(s) && worker == s.worker.(suppressed := worker.suppressed)
    ensures VadInv(Reset(s, worker, count), NewVad(maxSeconds, enhanced)) && WorkerInv(Reset(s, worker, count))
  {
    AbandonPosts(worker, s.log, count);
    AbandonedFits(s.log, s.epoch, s.drained, worker.enhanced, count);
    VadReset(s, maxSeconds, enhanced, worker, count);
  }

  lemma AbandonedFits(log: seq<Entry>, epoch: nat, drained: seq<Drained>, enhanced: bool, count: nat)
    requires LogFits(log, epoch, drained, enhanced)
    ensures LogFits(LogAbandoned(log, count), |LogAbandoned(log, count)|, [], enhanced)
  {
    var closed := LogAbandoned(log, count);
    assert closed[|closed|..] == [] && Groups([]) == [] && Outs([]) == [];
  }

  lemma VadReset(s: System, maxSeconds: nat, enhanced: bool, worker: Worker, count: nat)
    requires s.vad.most == NewVad(maxSeconds, enhanced).most && s.vad.room == NewVad(maxSeconds, enhanced).room
    ensures VadInv(Reset(s, worker, count), NewVad(maxSeconds, enhanced))
  {
    assert Outs([]) == [] && R.After(NewVad(maxSeconds, enhanced), []) == NewVad(maxSeconds, enhanced);
  }

  ghost predicate Inv(s: System, start: Vad, enhanced: bool) {
    && VadInv(s, start) && WorkerInv(s)
    && s.vad.most == start.most && s.vad.room == start.room && s.worker.enhanced == enhanced
  }

  lemma StepKeeps(s: System, maxSeconds: nat, enhanced: bool, e: Event)
    requires Inv(s, NewVad(maxSeconds, enhanced), enhanced)
    ensures Inv(Step(s, e), NewVad(maxSeconds, enhanced), enhanced)
  {
    SettingsKept(s, e);
    PartsKept(s, maxSeconds, enhanced, e);
  }

  lemma SettingsKept(s: System, e: Event)
    ensures var t := Step(s, e);
            t.vad.most == s.vad.most && t.vad.room == s.vad.room && t.worker.enhanced == s.worker.enhanced
  {
  }

  lemma PartsKept(s: System, maxSeconds: nat, enhanced: bool, e: Event)
    requires Inv(s, NewVad(maxSeconds, enhanced), enhanced)
    ensures VadInv(Step(s, e), NewVad(maxSeconds, enhanced)) && WorkerInv(Step(s, e))
  {
    match e
    case Hear(frame, voiced) =>
      if !s.worker.suppressed {
        HearKeeps(s, maxSeconds, enhanced, frame, voiced);
      }
    case DrainOne(count) =>
      if s.vad.ready != [] {
        DrainKeeps(s, NewVad(maxSeconds, enhanced), count);
      }
    case Flush(count) => ResetKeeps(s, maxSeconds, enhanced, s.worker, count);
    case Suppress(value, count) => ResetKeeps(s, maxSeconds, enhanced, s.worker.(suppressed := value), count);
  }

  lemma StartKeeps(maxSeconds: nat, enhanced: bool)
    ensures Inv(NewSystem(maxSeconds, enhanced), NewVad(maxSeconds, enhanced), enhanced)
  {
    assert EntriesOf(enhanced, Groups([])) == [];
  }

  lemma {:induction false} RunKeeps(maxSeconds: nat, enhanced: bool, events: seq<Event>)
    ensures Inv(Run(NewSystem(maxSeconds, enhanced), events), NewVad(maxSeconds, enhanced), enhanced)
  {
    if events == [] {
      StartKeeps(maxSeconds, enhanced);
    } else {
      var front, last := events[..|events| - 1], events[|events| - 1];
      RunKeeps(maxSeconds, enhanced, front);
      StepKeeps(Run(NewSystem(maxSeconds, enhanced), front), maxSeconds, enhanced, last);
    }
  }

  /** When everything ready has been drained, the groups are the segments heard. */
  lemma DrainedAll(s: System, maxSeconds: nat, enhanced: bool)
    requires VadInv(s, NewVad(maxSeconds, enhanced)) && s.vad.ready == []
    ensures var v := NewVad(maxSeconds, enhanced);
            GroupsAre(Groups(s.drained), s.heard, v.most, R.Windows(v, s.heard))
  {
    var v := NewVad(maxSeconds, enhanced);
    R.EmitsTheSegments(maxSeconds, enhanced, s.heard);
    InRange(s.heard, v.most, v.room, R.Windows(v, s.heard));
    assert Outs(s.drained) + [] == Outs(s.drained);
    GroupsOfWindows(s.drained, s.heard, v.most, R.Windows(v, s.heard));
  }

  /** What has become of a segment: all its frames, and an end exactly if it has ended, with
      the reason it ended for and the counter's last value; accepted at once without the
      enhanced filter, and otherwise exactly if the counter was 3 or more at one of them. */
  ghost predicate EntryFits(e: Entry, group: seq<Drained>, enhanced: bool, heard: seq<Heard>, most: nat, w: Window) {
    && e.frames == Covered(heard, w) && |group| == |e.frames| && group != []
    && (e.accepted <==> !enhanced || exists k :: 0 <= k < |group| && group[k].count >= 3)
    && (e.end.Some? <==> w.end.Some?)
    && (w.end.Some? ==>
          e.end.value == SpeechEnd(EndedFor(w, most), group[|group| - 1].count))
  }

  lemma EntryFitsWindow(group: seq<Drained>, enhanced: bool, heard: seq<Heard>, most: nat, w: Window)
    requires w.from <= Last(heard, w) < |heard| && Outs(group) == WindowOut(heard, most, w)
    ensures EntryFits(EntryOf(enhanced, group), group, enhanced, heard, most, w)
  {
    GroupOfWindow(group, heard, most, w);
    assert |GroupFrames(group)| == |group|;
  }

  ghost predicate AllFit(entries: seq<Entry>, groups: seq<seq<Drained>>, enhanced: bool,
                         heard: seq<Heard>, most: nat, windows: seq<Window>) {
    && |entries| == |groups| == |windows|
    && forall i :: 0 <= i < |windows| ==> EntryFits(entries[i], groups[i], enhanced, heard, most, windows[i])
  }

  lemma EntriesFit(groups: seq<seq<Drained>>, enhanced: bool, heard: seq<Heard>, most: nat, windows: seq<Window>)
    requires GroupsAre(groups, heard, most, windows)
    requires forall i :: 0 <= i < |windows| ==> windows[i].from <= Last(heard, windows[i]) < |heard|
    ensures AllFit(EntriesOf(enhanced, groups), groups, enhanced, heard, most, windows)
  {
    forall i | 0 <= i < |windows|
      ensures EntryFits(EntriesOf(enhanced, groups)[i], groups[i], enhanced, heard, most, windows[i])
    {
      EntryFitsWindow(groups[i], enhanced, heard, most, windows[i]);
    }
  }

  lemma SystemFits(s: System, maxSeconds: nat, enhanced: bool)
    requires Inv(s, NewVad(maxSeconds, enhanced), enhanced) && s.vad.ready == []
    ensures var v := NewVad(maxSeconds, enhanced);
            AllFit(s.log[s.epoch..], Groups(s.drained), enhanced, s.heard, v.most, R.Windows(v, s.heard))
  {
    var v := NewVad(maxSeconds, enhanced);
    DrainedAll(s, maxSeconds, enhanced);
    R.EmitsTheSegments(maxSeconds, enhanced, s.heard);
    InRange(s.heard, v.most, v.room, R.Windows(v, s.heard));
    EntriesFit(Groups(s.drained), enhanced, s.heard, v.most, R.Windows(v, s.heard));
  }

  /** Over every run, whatever the counter returns: what was posted is, segment by segment,
      nothing if the segment was not accepted, and otherwise exactly the start, every frame
      in order and the end, which only the last segment may still lack. When everything ready
      has been drained, the segments since the last reset are exactly those of what was heard
      since: each is accepted exactly when it should be, and has its end, with its reason,
      exactly if it has ended; so the last is open exactly if that one is. */
  lemma PostsAreSegments(maxSeconds: nat, enhanced: bool, events: seq<Event>)
    ensures var s := Run(NewSystem(maxSeconds, enhanced), events);
            s.posts == LogPosts(s.log) && OnlyLastOpen(s.log) && s.epoch <= |s.log|
    ensures var s := Run(NewSystem(maxSeconds, enhanced), events);
            var v := NewVad(maxSeconds, enhanced);
            var windows := R.Windows(v, s.heard);
            AreWindows(s.heard, v.most, v.room, windows) &&
            (s.vad.ready == [] ==>
               && AllFit(s.log[s.epoch..], Groups(s.drained), enhanced, s.heard, v.most, windows)
               && (HasOpen(s.log) <==> IsOpen(windows)))
  {
    var s, v := Run(NewSystem(maxSeconds, enhanced), events), NewVad(maxSeconds, enhanced);
    RunKeeps(maxSeconds, enhanced, events);
    R.EmitsTheSegments(maxSeconds, enhanced, s.heard);
    if s.vad.ready == [] {
      SystemFits(s, maxSeconds, enhanced);
    }
  }

  /** Segments of earlier epochs are not touched again. */
  lemma EarlierKept(maxSeconds: nat, enhanced: bool, events: seq<Event>, e: Event)
    ensures var s := Run(NewSystem(maxSeconds, enhanced), events);
            s.epoch <= |s.log| && s.epoch <= |Step(s, e).log| && Step(s, e).log[..s.epoch] == s.log[..s.epoch]
  {
    RunKeeps(maxSeconds, enhanced, events);
  }

  /** Flushing and suppressing leave nothing open: an accepted open segment gets one end. */
  lemma ResetCloses(maxSeconds: nat, enhanced: bool, events: seq<Event>, e: Event)
    requires e.Flush? || e.Suppress?
    ensures var s := Run(NewSystem(maxSeconds, enhanced), events);
            var t := Step(s, e);
            && !HasOpen(t.log) && t.posts == LogPosts(t.log)
            && t.posts == s.posts +
                 (if HasOpen(s.log) && s.log[|s.log| - 1].accepted then [SpeechEnd(Manual, e.count)] else [])
  {
    RunKeeps(maxSeconds, enhanced, events);
    ResetStep(Run(NewSystem(maxSeconds, enhanced), events), e);
  }

  lemma ResetStep(s: System, e: Event)
    requires WorkerInv(s) && (e.Flush? || e.Suppress?)
    ensures var t := Step(s, e);
            && !HasOpen(t.log) && t.posts == LogPosts(t.log)
            && t.posts == s.posts +
                 (if HasOpen(s.log) && s.log[|s.log| - 1].accepted then [SpeechEnd(Manual, e.count)] else [])
  {
    ClosesOnce(s, if e.Suppress? then s.worker.(suppressed := e.value) else s.worker, e.count);
  }

  lemma ClosesOnce(s: System, worker: Worker, count: nat)
    requires WorkerInv(s) && worker == s.worker.(suppressed := worker.suppressed)
    ensures var t := Reset(s, worker, count);
            && !HasOpen(t.log) && t.posts == LogPosts(t.log)
            && t.posts == s.posts +
                 (if HasOpen(s.log) && s.log[|s.log| - 1].accepted then [SpeechEnd(Manual, count)] else [])
  {
    AbandonPosts(worker, s.log, count);
  }
}
