/** Interrupting the secretary's speech: how long the user has been talking over it. */
module BargeIn {

  const LEVEL := 24
  const TALKING_MS := 350

  type byte = x: int | 0 <= x < 256

  /** One animation frame: the frequency levels sampled, the clock, and whether this playback
      is still the current one. */
  datatype Frame = Frame(levels: seq<byte>, now: int, current: bool)

  /** The time a frame adds, and whether it was loud. */
  datatype Span = Span(loud: bool, ms: int)

  datatype Outcome = Interrupts(frame: nat) | Stops(frame: nat) | Listening

  function Total(levels: seq<byte>): nat {
    if levels == [] then 0 else Total(levels[..|levels| - 1]) + levels[|levels| - 1]
  }

  /** Loud: the mean level exceeds the threshold. An empty sample has no mean, and no comparison with it holds. */
  predicate Loud(levels: seq<byte>) {
    levels != [] && Total(levels) as real / |levels| as real > LEVEL as real
  }

  /** The spans of the frames seen, from the clock at which listening began. */
  function Spans(start: int, frames: seq<Frame>): (spans: seq<Span>)
    ensures |spans| == |frames|
  {
    seq(|frames|, k requires 0 <= k < |frames| =>
      Span(Loud(frames[k].levels), frames[k].now - if k == 0 then start else frames[k - 1].now))
  }

  // ---------------------------------------------------------------------------------------
  // The counter and its meaning
  // ---------------------------------------------------------------------------------------

  /** The counter after a sequence of spans. */
  function Above(spans: seq<Span>): int {
    if spans == [] then 0
    else
      var n := |spans| - 1;
      if spans[n].loud then Above(spans[..n]) + spans[n].ms
      else
        var less := Above(spans[..n]) - spans[n].ms * 2;
        if less < 0 then 0 else less
  }

  function LoudTime(spans: seq<Span>): int {
    if spans == [] then 0
    else LoudTime(spans[..|spans| - 1]) + if spans[|spans| - 1].loud then spans[|spans| - 1].ms else 0
  }

  function QuietTime(spans: seq<Span>): int {
    if spans == [] then 0
    else QuietTime(spans[..|spans| - 1]) + if spans[|spans| - 1].loud then 0 else spans[|spans| - 1].ms
  }

  /** What the window from `lo` to the end is worth: its loud time less twice its quiet time. */
  function Worth(spans: seq<Span>, lo: nat): int
    requires lo <= |spans|
  {
    LoudTime(spans[lo..]) - 2 * QuietTime(spans[lo..])
  }

  /** The counter is the worth of the best window that ends now. */
  ghost predicate BestWindow(spans: seq<Span>, above: int) {
    && (exists lo :: 0 <= lo <= |spans| && above == Worth(spans, lo))
    && (forall lo :: 0 <= lo <= |spans| ==> Worth(spans, lo) <= above)
  }

  predicate ClockAdvances(spans: seq<Span>) {
    forall k :: 0 <= k < |spans| ==> spans[k].ms >= 0
  }

  lemma WorthGrows(spans: seq<Span>, lo: nat)
    requires lo < |spans|
    ensures Worth(spans, lo) == Worth(spans[..|spans| - 1], lo)
                                + if spans[|spans| - 1].loud then spans[|spans| - 1].ms else -2 * spans[|spans| - 1].ms
  {
    var n := |spans| - 1;
    assert spans[lo..][..n - lo] == spans[..n][lo..];
    assert spans[lo..][n - lo] == spans[n];
  }

  lemma EmptyWindow(spans: seq<Span>)
    ensures Worth(spans, |spans|) == 0
  {
  }

  /** One more span: the best window extends the previous best one, unless the empty window beats it. */
  lemma BestExtends(spans: seq<Span>, before: int)
    requires spans != [] && BestWindow(spans[..|spans| - 1], before)
    ensures var gain := if spans[|spans| - 1].loud then spans[|spans| - 1].ms else -2 * spans[|spans| - 1].ms;
            BestWindow(spans, if before + gain < 0 then 0 else before + gain)
  {
    var n := |spans| - 1;
    EmptyWindow(spans);
    forall lo | 0 <= lo <= n ensures Worth(spans, lo)
        == Worth(spans[..n], lo) + if spans[n].loud then spans[n].ms else -2 * spans[n].ms {
      WorthGrows(spans, lo);
    }
    var best :| 0 <= best <= n && before == Worth(spans[..n], best);
    assert 0 <= best <= |spans|;
  }

  /** The last span keeps the counter best exactly if it leaves it non-negative. */
  lemma BestStep(spans: seq<Span>)
    requires spans != [] && BestWindow(spans[..|spans| - 1], Above(spans[..|spans| - 1]))
    ensures BestWindow(spans, Above(spans)) <==> Above(spans) >= 0
  {
    BestExtends(spans, Above(spans[..|spans| - 1]));
    EmptyWindow(spans);
    hide Worth;
  }

  lemma BestOfNothing()
    ensures BestWindow([], Above([]))
  {
    var none: seq<Span> := [];
    EmptyWindow(none);
    assert 0 <= 0 <= |none| && Above(none) == Worth(none, 0);
  }

  /** The counter is the best window's worth after each of the first `n` spans. */
  ghost predicate BestSoFar(spans: seq<Span>, n: nat)
    requires n <= |spans|
  {
    forall k :: 0 <= k <= n ==> BestWindow(spans[..k], Above(spans[..k]))
  }

  predicate NeverNegative(spans: seq<Span>, n: nat)
    requires n <= |spans|
  {
    forall k :: 0 <= k <= n ==> Above(spans[..k]) >= 0
  }

  lemma {:induction false} BestSoFarIff(spans: seq<Span>, n: nat)
    requires n <= |spans|
    ensures BestSoFar(spans, n) <==> NeverNegative(spans, n)
  {
    hide BestWindow, Above;
    BestOfNothing();
    assert spans[..0] == [];
    if n == 0 {
      assert BestWindow(spans[..0], Above(spans[..0])) && Above(spans[..0]) >= 0 by { NothingIsZero(); }
    } else {
      BestSoFarIff(spans, n - 1);
      assert spans[..n][..n - 1] == spans[..n - 1];
      if BestSoFar(spans, n - 1) {
        assert BestWindow(spans[..n - 1], Above(spans[..n - 1]));
        BestStep(spans[..n]);
      }
    }
  }

  lemma NothingIsZero()
    ensures Above([]) == 0
  {
  }

  /** The clock readings make up for themselves: whenever a loud frame seems to take negative time, some window before
      it is worth at least as much as was lost. */
  predicate MakesUp(spans: seq<Span>, n: nat)
    requires n <= |spans|
  {
    forall k :: 0 <= k < n && spans[k].loud ==> MakesUpAt(spans, k)
  }

  predicate MakesUpAt(spans: seq<Span>, k: nat)
    requires k < |spans|
  {
    exists lo :: 0 <= lo <= k && Worth(spans[..k], lo) + spans[k].ms >= 0
  }

  /** A step from a counter that is the best window's worth goes below zero exactly if the span is loud and takes away
      more than any window is worth. */
  lemma StepStaysIff(spans: seq<Span>, k: nat)
    requires k < |spans| && BestWindow(spans[..k], Above(spans[..k]))
    ensures Above(spans[..k + 1]) >= 0 <==> (spans[k].loud ==> MakesUpAt(spans, k))
  {
    hide Worth;
    assert spans[..k + 1][..k] == spans[..k];
  }

  lemma {:induction false} NeverNegativeIff(spans: seq<Span>, n: nat)
    requires n <= |spans|
    ensures NeverNegative(spans, n) <==> MakesUp(spans, n)
  {
    hide BestWindow, Above, MakesUpAt;
    assert spans[..0] == [];
    NothingIsZero();
    if n > 0 {
      NeverNegativeIff(spans, n - 1);
      BestSoFarIff(spans, n - 1);
      if NeverNegative(spans, n - 1) {
        assert BestWindow(spans[..n - 1], Above(spans[..n - 1]));
        StepStaysIff(spans, n - 1);
      }
    }
  }

  /**
   * With any clock, the counter is the best window's worth all along exactly when every loud frame
   * that seems to take negative time is made up for by a window before it: the loud branch adds
   * the elapsed time without clamping the result.
   */
  lemma AboveIsBestIff(spans: seq<Span>)
    ensures (forall k :: 0 <= k <= |spans| ==> BestWindow(spans[..k], Above(spans[..k]))) <==> MakesUp(spans, |spans|)
  {
    BestSoFarIff(spans, |spans|);
    NeverNegativeIff(spans, |spans|);
  }

  lemma {:induction false} AdvancingIsNeverNegative(spans: seq<Span>)
    requires ClockAdvances(spans)
    ensures Above(spans) >= 0
  {
    if spans != [] {
      AdvancingIsNeverNegative(spans[..|spans| - 1]);
    }
  }

  /** With a clock that never steps back, the counter is always the best window's worth. */
  lemma AboveIsBestWindow(spans: seq<Span>)
    requires ClockAdvances(spans)
    ensures BestWindow(spans, Above(spans))
  {
    forall k | 0 <= k <= |spans| ensures Above(spans[..k]) >= 0 {
      AdvancingIsNeverNegative(spans[..k]);
    }
    BestSoFarIff(spans, |spans|);
    assert spans[..|spans|] == spans;
  }

  /** A clock set back one second during a loud frame makes the counter negative and delays the next interruption. */
  lemma SteppedBackClockDelays()
    ensures var spans := [Span(true, -1000), Span(true, 400)];
            Above(spans) == -600 && Worth(spans, 1) == 400 && !BestWindow(spans, Above(spans))
  {
  }

  // ---------------------------------------------------------------------------------------
  // Listening
  // ---------------------------------------------------------------------------------------

  /** Talking at frame `k`: the counter exceeds the threshold there. */
  predicate TalkingAt(start: int, frames: seq<Frame>, k: nat)
    requires k < |frames|
  {
    Counter(start, frames, k + 1) > TALKING_MS
  }

  predicate WorthyWindow(spans: seq<Span>) {
    exists lo :: 0 <= lo <= |spans| && Worth(spans, lo) > 350
  }

  /** Talking means that some window ending at this frame has loud time exceeding twice its quiet time by more than the
      threshold. */
  lemma TalkingIffWindow(start: int, frames: seq<Frame>, k: nat)
    requires k < |frames| && ClockAdvances(Spans(start, frames))
    ensures TalkingAt(start, frames, k)
            <==> WorthyWindow(Spans(start, frames)[..k + 1])
  {
    AboveIsBestWindow(Spans(start, frames)[..k + 1]);
  }

  /** By how much the samples exceed the level, all together. */
  function Excess(levels: seq<byte>): int {
    if levels == [] then 0 else levels[0] - 24 + Excess(levels[1..])
  }

  lemma {:induction false} ExcessGrows(levels: seq<byte>, level: byte)
    ensures Excess(levels + [level]) == Excess(levels) + level - 24
  {
    if levels == [] {
      assert (levels + [level])[1..] == [];
    } else {
      assert (levels + [level])[1..] == levels[1..] + [level];
      ExcessGrows(levels[1..], level);
    }
  }

  lemma {:induction false} TotalIsExcess(levels: seq<byte>)
    ensures Total(levels) == Excess(levels) + 24 * |levels|
  {
    if levels != [] {
      var n := |levels| - 1;
      TotalIsExcess(levels[..n]);
      ExcessGrows(levels[..n], levels[n]);
      assert levels == levels[..n] + [levels[n]];
    }
  }

  /** A frame is loud exactly if its samples exceed 24 on balance. */
  lemma LoudIff(levels: seq<byte>)
    ensures Loud(levels) <==> Excess(levels) > 0
  {
    TotalIsExcess(levels);
    if levels != [] {
      var total, n := Total(levels) as real, |levels| as real;
      assert total / n > 24.0 <==> total > 24.0 * n by { MeanIff(total, n); }
    }
  }

  lemma MeanIff(total: real, n: real)
    requires n > 0.0
    ensures total / n > 24.0 <==> total > 24.0 * n
  {
    assert total / n * n == total;
  }

  /** The spans of a window take together the time between the clock readings at its ends. */
  lemma {:induction false} SpansElapse(start: int, frames: seq<Frame>, lo: nat, hi: nat)
    requires lo <= hi <= |frames|
    ensures var window := Spans(start, frames)[lo..hi];
            LoudTime(window) + QuietTime(window) == Last(start, frames, hi) - Last(start, frames, lo)
  {
    hide Loud;
    if lo < hi {
      SpansElapse(start, frames, lo, hi - 1);
      assert Spans(start, frames)[lo..hi][..hi - lo - 1] == Spans(start, frames)[lo..hi - 1];
    }
  }

  method MeanExceeds(levels: seq<byte>) returns (loud: bool)
    ensures loud <==> Excess(levels) > 0
    ensures loud == Loud(levels)
  {
    LoudIff(levels);
    var s: nat := 0;
    for i := 0 to |levels|
      invariant s == Total(levels[..i])
    {
      assert levels[..i + 1][..i] == levels[..i];
      s := s + levels[i];
    }
    assert levels[..|levels|] == levels;
    loud := levels != [] && s as real / |levels| as real > LEVEL as real;
  }

  /** The counter after the first `i` frames. */
  function Counter(start: int, frames: seq<Frame>, i: nat): int
    requires i <= |frames|
  {
    Above(Spans(start, frames)[..i])
  }

  /** The clock at the last of the first `i` frames. */
  function Last(start: int, frames: seq<Frame>, i: nat): int
    requires i <= |frames|
  {
    if i == 0 then start else frames[i - 1].now
  }

  lemma NextCounter(start: int, frames: seq<Frame>, i: nat)
    requires i < |frames|
    ensures var before, ms := Counter(start, frames, i), frames[i].now - Last(start, frames, i);
            Counter(start, frames, i + 1)
            == if Loud(frames[i].levels) then before + ms else if before - ms * 2 < 0 then 0 else before - ms * 2
  {
    hide Loud;
    var spans := Spans(start, frames);
    assert spans[..i + 1][..i] == spans[..i];
  }

  lemma NoFrames(start: int, frames: seq<Frame>)
    ensures Counter(start, frames, 0) == 0
  {
  }

  /** Nobody has talked, and the playback was current, up to frame `i`. */
  predicate QuietSoFar(start: int, frames: seq<Frame>, i: nat)
    requires i <= |frames|
  {
    forall k :: 0 <= k < i ==> frames[k].current && !TalkingAt(start, frames, k)
  }

  /** The frames of one playback, in order, until it ends or the user talks over it. */
  method ArmBargeIn(start: int, frames: seq<Frame>) returns (outcome: Outcome)
    ensures outcome.Interrupts? ==>
              && outcome.frame < |frames| && QuietSoFar(start, frames, outcome.frame)
              && frames[outcome.frame].current && TalkingAt(start, frames, outcome.frame)
    ensures outcome.Stops? ==>
              && outcome.frame < |frames| && QuietSoFar(start, frames, outcome.frame) && !frames[outcome.frame].current
    ensures outcome.Listening? ==> QuietSoFar(start, frames, |frames|)
  {
    hide Above, Spans, Loud;
    NoFrames(start, frames);
    hide Counter;
    var aboveMs, last := 0, start;
    for i := 0 to |frames|
      invariant aboveMs == Counter(start, frames, i)
      invariant last == Last(start, frames, i)
      invariant QuietSoFar(start, frames, i)
    {
      if !frames[i].current { return Stops(i); }
      var loud := MeanExceeds(frames[i].levels);
      var now := frames[i].now;
      NextCounter(start, frames, i);
      if loud {
        aboveMs := aboveMs + now - last;
      } else {
        aboveMs := if aboveMs - (now - last) * 2 < 0 then 0 else aboveMs - (now - last) * 2;
      }
      last := now;
      if aboveMs > TALKING_MS { return Interrupts(i); }
    }
    outcome := Listening;
  }
}
