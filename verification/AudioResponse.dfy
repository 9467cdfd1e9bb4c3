/** What the voice filter and the quality gate make of a whole stream, sample by sample. */
module AudioResponse {
  import opened Common
  import opened Audio

  // -------------------------------------------------------------------- the voice filter

  function Reals(samples: seq<Sample>): seq<real> {
    seq(|samples|, i requires 0 <= i < |samples| => samples[i] as real)
  }

  /** The stream, zero before its start. */
  function Past(xs: seq<real>, n: int): real {
    if 0 <= n < |xs| then xs[n] else 0.0
  }

  /** `ys` is `xs` through the section: the difference equation, at every sample. */
  ghost predicate IsSection(b: Biquad, xs: seq<real>, ys: seq<real>) {
    && |ys| == |xs|
    && forall n :: 0 <= n < |xs| ==> ys[n] == SectionAt(b, xs, ys, n)
  }

  function SectionAt(b: Biquad, xs: seq<real>, ys: seq<real>, n: nat): real {
    b.b0 * Past(xs, n) + b.b1 * Past(xs, n - 1) + b.b2 * Past(xs, n - 2)
    - b.a1 * Past(ys, n - 1) - b.a2 * Past(ys, n - 2)
  }

  /** A section that has `xs` and `ys` behind it. */
  predicate Behind(b: Biquad, initial: Biquad, xs: seq<real>, ys: seq<real>) {
    && |xs| == |ys| && var n := |xs|;
    b == initial.(x1 := Past(xs, n - 1), x2 := Past(xs, n - 2), y1 := Past(ys, n - 1), y2 := Past(ys, n - 2))
  }

  predicate AtRest(b: Biquad) {
    b.x1 == 0.0 && b.x2 == 0.0 && b.y1 == 0.0 && b.y2 == 0.0
  }

  lemma PastMore(xs: seq<real>, x: real, k: int)
    requires k <= |xs|
    ensures Past(xs + [x], k) == if k == |xs| then x else Past(xs, k)
  {
  }

  lemma SectionStable(b: Biquad, xs: seq<real>, ys: seq<real>, x: real, y: real, n: nat)
    requires |xs| == |ys| && n < |xs|
    ensures SectionAt(b, xs + [x], ys + [y], n) == SectionAt(b, xs, ys, n)
  {
    PastMore(xs, x, n);
    PastMore(xs, x, n - 1);
    PastMore(xs, x, n - 2);
    PastMore(ys, y, n - 1);
    PastMore(ys, y, n - 2);
  }

  lemma SectionNext(b: Biquad, initial: Biquad, xs: seq<real>, ys: seq<real>, x: real, y: real)
    requires Behind(b, initial, xs, ys) && y == b.Output(x)
    ensures SectionAt(initial, xs + [x], ys + [y], |xs|) == y
    ensures Behind(b.After(x), initial, xs + [x], ys + [y])
  {
    var n := |xs|;
    PastMore(xs, x, n);
    PastMore(xs, x, n - 1);
    PastMore(xs, x, n - 2);
    PastMore(ys, y, n);
    PastMore(ys, y, n - 1);
    PastMore(ys, y, n - 2);
  }

  lemma SectionMore(b: Biquad, initial: Biquad, xs: seq<real>, ys: seq<real>, x: real)
    requires IsSection(initial, xs, ys) && Behind(b, initial, xs, ys)
    ensures IsSection(initial, xs + [x], ys + [b.Output(x)])
    ensures Behind(b.After(x), initial, xs + [x], ys + [b.Output(x)])
  {
    var more, out, n := xs + [x], ys + [b.Output(x)], |xs|;
    SectionNext(b, initial, xs, ys, x, b.Output(x));
    forall k | 0 <= k < n + 1
      ensures out[k] == SectionAt(initial, more, out, k)
    {
      if k < n {
        SectionStable(initial, xs, ys, x, b.Output(x), k);
      }
    }
  }

  /** The volume of sample `n`: rising evenly over the fade, and full after it. */
  function Volume(n: nat, fadeIn: nat): real
    requires fadeIn >= 1
  {
    if n < fadeIn then n as real / fadeIn as real else 1.0
  }

  /** The filter has had `samples`, with these outputs of its sections. */
  ghost predicate Filters(v: Voice, at: Voice, samples: seq<Sample>, between: seq<real>, filtered: seq<real>) {
    && IsSection(v.first, Reals(samples), between) && IsSection(v.second, between, filtered)
    && Behind(at.first, v.first, Reals(samples), between) && Behind(at.second, v.second, between, filtered)
    && at.processed == |samples| && at.fadeIn == v.fadeIn
  }

  lemma FiltersMore(v: Voice, at: Voice, samples: seq<Sample>, between: seq<real>, filtered: seq<real>, last: Sample)
    requires Filters(v, at, samples, between, filtered)
    ensures var y := at.first.Output(last as real);
            Filters(v, VoiceAfter(at, last), samples + [last], between + [y], filtered + [at.second.Output(y)])
  {
    var y := at.first.Output(last as real);
    SectionMore(at.first, v.first, Reals(samples), between, last as real);
    SectionMore(at.second, v.second, between, filtered, y);
    assert Reals(samples + [last]) == Reals(samples) + [last as real];
  }

  function AtVolume(y: real, n: nat, fadeIn: nat): Sample
    requires fadeIn >= 1
  {
    ToSample(y * Volume(n, fadeIn))
  }

  /** Every sample at its volume, rounded and clamped. */
  function AllAtVolume(filtered: seq<real>, fadeIn: nat): seq<Sample>
    requires fadeIn >= 1
  {
    seq(|filtered|, n requires 0 <= n < |filtered| => AtVolume(filtered[n], n, fadeIn))
  }

  lemma VoiceOutputIs(at: Voice, last: Sample)
    requires at.fadeIn >= 1
    ensures VoiceOutput(at, last) ==
            AtVolume(at.second.Output(at.first.Output(last as real)), at.processed, at.fadeIn)
  {
  }

  lemma VolumeMore(filtered: seq<real>, fadeIn: nat, y: real, c: Sample)
    requires fadeIn >= 1 && c == AtVolume(y, |filtered|, fadeIn)
    ensures AllAtVolume(filtered + [y], fadeIn) == AllAtVolume(filtered, fadeIn) + [c]
  {
    var more := filtered + [y];
    assert forall n :: 0 <= n < |filtered| ==> more[n] == filtered[n];
  }

  /** From rest, a cleaned stream is the first section's output through the second, each by
      its difference equation over the whole stream, at its volume, rounded and clamped. */
  lemma {:induction false} CleanedIs(v: Voice, samples: seq<Sample>) returns (between: seq<real>, filtered: seq<real>)
    requires v.fadeIn >= 1 && v.processed == 0 && AtRest(v.first) && AtRest(v.second)
    ensures IsSection(v.first, Reals(samples), between) && IsSection(v.second, between, filtered)
    ensures Cleaned(v, samples) == AllAtVolume(filtered, v.fadeIn)
    ensures Filters(v, VoiceAfterAll(v, samples), samples, between, filtered)
  {
    if samples == [] {
      between, filtered := [], [];
    } else {
      var front, last := samples[..|samples| - 1], samples[|samples| - 1];
      var mid, out := CleanedIs(v, front);
      var at := VoiceAfterAll(v, front);
      CleanedMore(v, at, front, mid, out, last);
      between := mid + [at.first.Output(last as real)];
      filtered := out + [at.second.Output(at.first.Output(last as real))];
      assert samples == front + [last];
    }
  }

  lemma CleanedMore(v: Voice, at: Voice, front: seq<Sample>, between: seq<real>, filtered: seq<real>, last: Sample)
    requires v.fadeIn >= 1 && at == VoiceAfterAll(v, front) && Filters(v, at, front, between, filtered)
    requires Cleaned(v, front) == AllAtVolume(filtered, v.fadeIn)
    ensures var y := at.first.Output(last as real);
            && Filters(v, VoiceAfter(at, last), front + [last], between + [y], filtered + [at.second.Output(y)])
            && Cleaned(v, front) + [VoiceOutput(at, last)] == AllAtVolume(filtered + [at.second.Output(y)], v.fadeIn)
  {
    FiltersMore(v, at, front, between, filtered, last);
    VoiceOutputIs(at, last);
    VolumeMore(filtered, v.fadeIn, at.second.Output(at.first.Output(last as real)), VoiceOutput(at, last));
  }

  /** The nearest sample, or the nearest end of the range. */
  lemma ToSampleIsNearest(x: real)
    ensures -32_768.0 <= x <= 32_767.0 ==> -0.5 <= x - ToSample(x) as real <= 0.5
    ensures x >= 32_767.0 ==> ToSample(x) == 32_767
    ensures x <= -32_768.0 ==> ToSample(x) == -32_768
  {
  }

  /** Half way between two samples it is the one further from zero. */
  lemma HalvesRoundAway(k: nat)
    requires k < 32_767
    ensures ToSample(k as real + 0.5) == k + 1 && ToSample(-(k as real + 0.5)) == -(k + 1)
  {
  }

  // -------------------------------------------------------------------- the quality gate

  lemma {:induction false} CenteredSquares(xs: seq<int>, n: int, sum: int)
    ensures SquaredSum(seq(|xs|, i requires 0 <= i < |xs| => n * xs[i] - sum)) ==
            n * n * SquaredSum(xs) - 2 * n * sum * Sum(xs) + |xs| * sum * sum
  {
    var ys := seq(|xs|, i requires 0 <= i < |xs| => n * xs[i] - sum);
    if xs != [] {
      var front, last := xs[..|xs| - 1], xs[|xs| - 1];
      CenteredSquares(front, n, sum);
      assert ys[..|ys| - 1] == seq(|front|, i requires 0 <= i < |front| => n * front[i] - sum);
      OneSquare(n, last, sum, SquaredSum(front), Sum(front), |front|);
    }
  }

  lemma OneSquare(n: int, last: int, sum: int, squares: int, total: int, count: int)
    ensures n * n * squares - 2 * n * sum * total + count * sum * sum + (n * last - sum) * (n * last - sum) ==
            n * n * (squares + last * last) - 2 * n * sum * (total + last) + (count + 1) * sum * sum
  {
  }

  /** The level the gate looks at is the variance: mean square minus squared mean. */
  lemma LevelIsVariance(frame: seq<Sample>)
    ensures var n, sum := |frame|, Sum(frame);
            SquaredSum(Centered(frame)) == n * (n * SquaredSum(frame) - sum * sum)
  {
    var n, sum := |frame|, Sum(frame);
    assert Centered(frame) == seq(n, i requires 0 <= i < n => n * frame[i] - sum);
    Rearranged(frame, n, sum, SquaredSum(frame));
  }

  lemma Rearranged(frame: seq<Sample>, n: int, sum: int, squares: int)
    requires n == |frame| && sum == Sum(frame) && squares == SquaredSum(frame)
    ensures SquaredSum(seq(|frame|, i requires 0 <= i < |frame| => n * frame[i] - sum)) == n * (n * squares - sum * sum)
  {
    CenteredSquares(frame, n, sum);
    Distributed(n, sum, squares);
  }

  lemma Distributed(n: int, sum: int, squares: int)
    ensures n * n * squares - 2 * n * sum * sum + n * sum * sum == n * (n * squares - sum * sum)
  {
    assert n * (n * squares - sum * sum) == n * (n * squares) - n * (sum * sum);
  }

  /** The sign of neighbours differs. */
  predicate Changes(xs: seq<int>, i: nat)
    requires 1 <= i < |xs|
  {
    (xs[i - 1] < 0) != (xs[i] < 0)
  }

  function SignChanges(xs: seq<int>): set<nat> {
    set i: nat | 1 <= i < |xs| && Changes(xs, i)
  }

  lemma {:induction false} CrossingsCount(xs: seq<int>)
    ensures Crossings(xs) == |SignChanges(xs)|
  {
    if |xs| >= 2 {
      var front, n := xs[..|xs| - 1], |xs| - 1;
      CrossingsCount(front);
      assert forall i: nat :: 1 <= i < |front| ==> Changes(front, i) == Changes(xs, i);
      assert SignChanges(xs) == SignChanges(front) + if Changes(xs, n) then {n} else {};
    } else {
      assert SignChanges(xs) == {};
    }
  }

  /** The deviations from the mean, 512 times over. */
  function Deviations(frame: seq<Sample>): seq<int> {
    seq(|frame|, i requires 0 <= i < |frame| => 512 * frame[i] - Sum(frame))
  }

  /** A frame of 512 samples is audible exactly if its variance is at least the square of a
      hundredth of full scale, and its deviation from the mean changes its sign 8 to 163
      times. */
  lemma AudibleIff(frame: seq<Sample>)
    requires |frame| == 512
    ensures Audible(frame) <==>
            && 10_000 * (512 * SquaredSum(frame) - Sum(frame) * Sum(frame)) >= 512 * 512 * 32_767 * 32_767
            && 8 <= |SignChanges(Deviations(frame))| <= 163
  {
    LevelIsVariance(frame);
    CrossingsCount(Centered(frame));
    assert Centered(frame) == Deviations(frame);
  }

  lemma {:induction false} SumOfEqual(xs: seq<int>, x: int)
    requires forall i :: 0 <= i < |xs| ==> xs[i] == x
    ensures Sum(xs) == |xs| * x
  {
    if xs != [] {
      SumOfEqual(xs[..|xs| - 1], x);
    }
  }

  lemma {:induction false} SquaresOfEqual(xs: seq<int>, a: int)
    requires forall i :: 0 <= i < |xs| ==> xs[i] == a || xs[i] == -a
    ensures SquaredSum(xs) == |xs| * (a * a)
  {
    if xs != [] {
      SquaresOfEqual(xs[..|xs| - 1], a);
      assert xs[|xs| - 1] * xs[|xs| - 1] == a * a;
    }
  }

  /** A constant frame, and so silence, is not audible. */
  lemma ConstantIsNot(frame: seq<Sample>, x: Sample)
    requires |frame| == 512 && forall i :: 0 <= i < 512 ==> frame[i] == x
    ensures !Audible(frame)
  {
    SumOfEqual(frame, x);
    assert forall i: nat :: 1 <= i < 512 ==> !Changes(Deviations(frame), i);
    assert SignChanges(Deviations(frame)) == {};
    AudibleIff(frame);
  }

  /** A frame that only takes the values `a` and `-a`, each as often, is audible exactly if it
      changes between them 8 to 163 times and `a` is at least 328. */
  lemma SquareWaveIff(frame: seq<Sample>, a: int)
    requires |frame| == 512 && Sum(frame) == 0 && a >= 0
    requires forall i :: 0 <= i < 512 ==> frame[i] == a || frame[i] == -a
    ensures Audible(frame) <==> a >= 328 && 8 <= |SignChanges(frame)| <= 163
  {
    SquaresOfEqual(frame, a);
    AudibleIff(frame);
    forall i: nat | 1 <= i < 512
      ensures Changes(Deviations(frame), i) == Changes(frame, i)
    {
    }
    assert SignChanges(Deviations(frame)) == SignChanges(frame);
    Amplitude(a);
  }

  lemma Amplitude(a: int)
    requires a >= 0
    ensures 10_000 * (512 * (512 * (a * a))) >= 512 * 512 * 32_767 * 32_767 <==> a >= 328
  {
    if a >= 328 {
      assert a * a >= 328 * 328;
    } else {
      assert a * a <= 327 * 327;
    }
  }
}
