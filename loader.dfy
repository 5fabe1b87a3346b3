/** The page loader's progress bar: each timer firing adds a random step in
    [10, 30) to the progress, caps it at 100, and schedules another firing
    only while the progress is below 100. */
module Loader {
  import opened Random

  const Complete: real := 100.0
  const MinStep: real := 10.0
  const MaxSteps: nat := 10

  /** The progress after one firing that draws `r`. */
  function NextProgress(p: real, r: real): (q: real)
    requires IsRandom(r)
    ensures q <= Complete
    ensures q < p + 30.0
    ensures q == Complete || q >= p + MinStep
    ensures p < Complete ==> q > p
  {
    var raised := p + r * 20.0 + MinStep;
    if raised > Complete then Complete else raised
  }

  /** The progress after the firings that consume `rs`, stopping as soon as
      a firing reaches 100 (no further firing is scheduled then). */
  function Progress(p: real, rs: seq<real>): real
    requires AllRandom(rs)
    decreases |rs|
  {
    if |rs| == 0 || p >= Complete then p
    else Progress(NextProgress(p, rs[0]), rs[1..])
  }

  /** From progress `p`, any `n` firings with `p + 10n >= 100` reach 100;
      in particular a bar starting at 0 is full after at most 10 firings. */
  lemma {:induction false} ReachesComplete(p: real, rs: seq<real>, n: nat)
    requires 0.0 <= p <= Complete && AllRandom(rs)
    requires |rs| >= n && p + MinStep * n as real >= Complete
    ensures Progress(p, rs) == Complete
    decreases n
  {
    if n == 0 || p >= Complete {
    } else {
      var q := NextProgress(p, rs[0]);
      assert AllRandom(rs[1..]);
      // Either the bar is full or it rose by at least one minimum step.
      assert q + MinStep * (n - 1) as real >= Complete;
      ReachesComplete(q, rs[1..], n - 1);
    }
  }

  /** One more drawing: the chain fires once more only if the bar is not
      yet full; otherwise it has already stopped. */
  lemma {:induction false} ProgressSnoc(p: real, s: seq<real>, r: real)
    requires AllRandom(s) && IsRandom(r)
    ensures AllRandom(s + [r])
    ensures Progress(p, s + [r]) ==
              if Progress(p, s) < Complete then NextProgress(Progress(p, s), r)
              else Progress(p, s)
    decreases |s|
  {
    var s' := s + [r];
    assert forall i :: 0 <= i < |s'| ==> s'[i] == if i < |s| then s[i] else r;
    if |s| == 0 || p >= Complete {
    } else {
      assert s'[1..] == s[1..] + [r];
      assert AllRandom(s[1..]);
      ProgressSnoc(NextProgress(p, s[0]), s[1..], r);
    }
  }

  class LoaderBar {
    /** `loadProgress`, the bar's width in percent. */
    var progress: real

    constructor ()
      ensures progress == 0.0
    {
      progress := 0.0;
    }

    /** `updateLoader`: returns whether another firing is scheduled. */
    method Update(r: real) returns (reschedule: bool)
      requires IsRandom(r)
      modifies this
      ensures progress == NextProgress(old(progress), r)
      ensures reschedule <==> progress < Complete
    {
      progress := progress + r * 20.0 + MinStep;
      if progress > Complete {
        progress := Complete;
      }
      reschedule := progress < Complete;
    }

    /** The first firing and every firing it reschedules, the t-th drawing
        `rs[t]`: from a progress in [0, 100] the bar is full after at most
        10 firings. The progress after each firing is `Progress` of the
        drawings used so far; it never falls, and the chain stops at the
        first firing that fills the bar. */
    method Run(rs: seq<real>) returns (firings: nat)
      requires 0.0 <= progress <= Complete
      requires |rs| >= MaxSteps && AllRandom(rs)
      modifies this
      ensures progress == Complete
      ensures 1 <= firings <= MaxSteps
      ensures progress == Progress(old(progress), rs[..firings])
      ensures forall t :: 0 < t < firings ==> Progress(old(progress), rs[..t]) < Complete
      ensures forall t :: 0 <= t < firings ==>
                Progress(old(progress), rs[..t]) <= Progress(old(progress), rs[..t + 1])
    {
      ghost var start := progress;
      firings := 0;
      var reschedule := true;
      while reschedule
        invariant old(progress) == start <= progress <= Complete
        invariant firings <= MaxSteps
        invariant reschedule ==> progress >= start + MinStep * firings as real
        invariant reschedule && firings > 0 ==> progress < Complete
        invariant !reschedule ==> progress == Complete && firings >= 1
        invariant progress == Progress(start, rs[..firings])
        invariant forall t :: 0 < t < firings ==> Progress(start, rs[..t]) < Complete
        invariant forall t :: 0 <= t < firings ==>
                    Progress(start, rs[..t]) <= Progress(start, rs[..t + 1])
        decreases MaxSteps - firings
      {
        ProgressSnoc(start, rs[..firings], rs[firings]);
        assert rs[..firings + 1] == rs[..firings] + [rs[firings]];
        reschedule := Update(rs[firings]);
        firings := firings + 1;
      }
    }
  }
}
