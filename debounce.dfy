/**
 * The per-signal debounce disciplines of the monitor, as pure state machines over a logical
 * clock: sustained-duration timers (no face, looking away, drowsiness, background voice) and
 * the multi-face edge trigger. The monitor class applies these steps to its own fields; the
 * lemmas here are about runs of many steps.
 */
module Debounce {

  /**
   * A timer ref as the monitor keeps it: null, a live timer that fires at `deadline`, or a
   * stale handle — the timer was cleared but the ref was not reset to null.
   */
  datatype Handle = Idle | Pending(deadline: int) | Stale

  /**
   * One sample of a sustained-duration condition: a true sample starts a timer only when the
   * ref is null; a false sample cancels any timer and nulls the ref.
   */
  function Sample(h: Handle, cond: bool, now: int, delay: nat): (r: Handle)
    ensures r.Idle? <==> !cond
    ensures r.Pending? ==> (if h.Pending? then r == h else r.deadline == now + delay)
    ensures r.Stale? <==> cond && h.Stale?
  {
    if cond then (if h.Idle? then Pending(now + delay) else h) else Idle
  }

  /** A sample in which the condition is not evaluated at all: the timer is cleared, the ref kept. */
  function Suspend(h: Handle): (r: Handle)
    ensures !r.Pending?
    ensures r.Idle? <==> h.Idle?
  {
    if h.Pending? then Stale else h
  }

  /** The timer behind `h` is live and its time has come. */
  predicate Due(h: Handle, now: int)
  {
    h.Pending? && h.deadline <= now
  }

  /** The timer callback: flag the event and null the ref. Only a live, due timer runs. */
  function Expire(h: Handle, now: int): (r: Handle)
    ensures !Due(r, now)
    ensures r != h ==> Due(h, now) && r.Idle?
  {
    if Due(h, now) then Idle else h
  }

  /** What can happen to one debouncer: a sample, a suspended sample, or a chance for its timer to fire. */
  datatype Stimulus =
    | Reading(cond: bool, at: int)
    | Hidden
    | Alarm(at: int)

  /** The new handle after one stimulus, and whether an event was flagged. */
  function Step(h: Handle, x: Stimulus, delay: nat): (Handle, bool)
  {
    match x
    case Reading(cond, at) => (Sample(h, cond, at, delay), false)
    case Hidden => (Suspend(h), false)
    case Alarm(at) => (Expire(h, at), Due(h, at))
  }

  /** The handle after a whole run of stimuli, and the number of events flagged on the way. */
  function Run(h: Handle, xs: seq<Stimulus>, delay: nat): (Handle, nat)
    decreases |xs|
  {
    if |xs| == 0 then (h, 0)
    else
      var (h1, e) := Step(h, xs[0], delay);
      var (h2, n) := Run(h1, xs[1..], delay);
      (h2, n + (if e then 1 else 0))
  }

  lemma {:induction false} RunAppend(h: Handle, a: seq<Stimulus>, b: seq<Stimulus>, delay: nat)
    ensures Run(h, a + b, delay) ==
      (Run(Run(h, a, delay).0, b, delay).0, Run(h, a, delay).1 + Run(Run(h, a, delay).0, b, delay).1)
    decreases |a|
  {
    if |a| == 0 {
      assert a + b == b;
    } else {
      assert (a + b)[1..] == a[1..] + b;
      RunAppend(Step(h, a[0], delay).0, a[1..], b, delay);
    }
  }

  /** Stimuli that keep a condition going until `deadline`: true samples, and alarms that come too early. */
  predicate Sustains(xs: seq<Stimulus>, deadline: int)
  {
    forall k :: 0 <= k < |xs| ==>
      (xs[k].Reading? && xs[k].cond) || (xs[k].Alarm? && xs[k].at < deadline)
  }

  /** While the condition holds and the deadline has not come, the pending timer stays as it is. */
  lemma {:induction false} PendingHolds(d: int, xs: seq<Stimulus>, delay: nat)
    requires Sustains(xs, d)
    ensures Run(Pending(d), xs, delay) == (Pending(d), 0)
  {
    if |xs| > 0 {
      assert Sustains(xs[1..], d) by {
        forall k | 0 <= k < |xs[1..]| ensures (xs[1..][k].Reading? && xs[1..][k].cond) || (xs[1..][k].Alarm? && xs[1..][k].at < d) {
          assert xs[1..][k] == xs[k + 1];
        }
      }
      PendingHolds(d, xs[1..], delay);
    }
  }

  /** A condition shorter than the threshold flags nothing; its timer is still pending. */
  lemma ShortRunFlagsNothing(t0: int, xs: seq<Stimulus>, delay: nat)
    requires Sustains(xs, t0 + delay)
    ensures Run(Idle, [Reading(true, t0)] + xs, delay) == (Pending(t0 + delay), 0)
  {
    RunAppend(Idle, [Reading(true, t0)], xs, delay);
    PendingHolds(t0 + delay, xs, delay);
  }

  /**
   * A condition held from `t0` until the timer fires at or after `t0 + delay` flags exactly
   * once, and leaves the ref null so that the next occurrence can flag again.
   */
  lemma SustainedRunFlagsOnce(t0: int, xs: seq<Stimulus>, t: int, delay: nat)
    requires Sustains(xs, t0 + delay)
    requires t >= t0 + delay
    ensures Run(Idle, [Reading(true, t0)] + xs + [Alarm(t)], delay) == (Idle, 1)
  {
    ShortRunFlagsNothing(t0, xs, delay);
    RunAppend(Idle, [Reading(true, t0)] + xs, [Alarm(t)], delay);
  }

  /** A false sample before the threshold cancels the timer: no event, and the ref is null. */
  lemma InterruptedRunFlagsNothing(t0: int, xs: seq<Stimulus>, t: int, delay: nat)
    requires Sustains(xs, t0 + delay)
    ensures Run(Idle, [Reading(true, t0)] + xs + [Reading(false, t)], delay) == (Idle, 0)
  {
    ShortRunFlagsNothing(t0, xs, delay);
    RunAppend(Idle, [Reading(true, t0)] + xs, [Reading(false, t)], delay);
  }

  /** The number of steps of a run that start a timer: a handle that was not live becomes live. */
  function Starts(h: Handle, xs: seq<Stimulus>, delay: nat): nat
    decreases |xs|
  {
    if |xs| == 0 then 0
    else
      var h1 := Step(h, xs[0], delay).0;
      (if !h.Pending? && h1.Pending? then 1 else 0) + Starts(h1, xs[1..], delay)
  }

  function Live(h: Handle): nat
  {
    if h.Pending? then 1 else 0
  }

  /**
   * No event without a timer behind it: the events a run flags, plus a timer still live at
   * its end, are at most the timers it starts plus one already live at its start; so each
   * timer flags at most once.
   */
  lemma {:induction false} FlagsNeedTimers(h: Handle, xs: seq<Stimulus>, delay: nat)
    ensures Run(h, xs, delay).1 + Live(Run(h, xs, delay).0) <= Starts(h, xs, delay) + Live(h)
    decreases |xs|
  {
    if |xs| > 0 {
      FlagsNeedTimers(Step(h, xs[0], delay).0, xs[1..], delay);
    }
  }

  /** Samples that never clear a ref: true samples, suspended samples and alarms. */
  predicate NeverCleared(xs: seq<Stimulus>)
  {
    forall k :: 0 <= k < |xs| ==> !(xs[k].Reading? && !xs[k].cond)
  }

  /**
   * The stale-ref quirk: once a pending gaze or drowsiness timer is cleared by a sample with a
   * face count other than one, no timer for that signal is started again, and nothing is
   * flagged, until a sample with the condition false nulls the ref.
   */
  lemma {:induction false} StaleRefBlocksRearm(h: Handle, xs: seq<Stimulus>, delay: nat)
    requires h.Stale?
    requires NeverCleared(xs)
    ensures Run(h, xs, delay) == (Stale, 0)
  {
    if |xs| > 0 {
      assert NeverCleared(xs[1..]) by {
        forall k | 0 <= k < |xs[1..]| ensures !(xs[1..][k].Reading? && !xs[1..][k].cond) {
          assert xs[1..][k] == xs[k + 1];
        }
      }
      StaleRefBlocksRearm(h, xs[1..], delay);
    }
  }

  /** A suspended sample leaves a pending timer stale; only a false sample re-arms the signal. */
  lemma SuspendedTimerNeedsClearing(d: int, xs: seq<Stimulus>, t: int, t2: int, delay: nat)
    requires NeverCleared(xs)
    ensures Run(Pending(d), [Hidden] + xs, delay) == (Stale, 0)
    ensures Run(Pending(d), [Hidden] + xs + [Reading(false, t), Reading(true, t2)], delay) ==
      (Pending(t2 + delay), 0)
  {
    RunAppend(Pending(d), [Hidden], xs, delay);
    assert [Hidden][1..] == [];
    StaleRefBlocksRearm(Stale, xs, delay);
    var tail := [Reading(false, t), Reading(true, t2)];
    RunAppend(Pending(d), [Hidden] + xs, tail, delay);
    assert tail[1..] == [Reading(true, t2)];
    assert [Reading(true, t2)][1..] == [];
    assert Run(Idle, [Reading(true, t2)], delay) == (Pending(t2 + delay), 0);
    assert Run(Stale, tail, delay) == (Pending(t2 + delay), 0);
  }

  // ---- Multi-face edge trigger ----

  /** One sample of the edge trigger: flag on more than one face unless already flagged; the flag follows the count. */
  function EdgeStep(flagged: bool, faceCount: nat): (r: (bool, bool))
    ensures r.0 <==> faceCount > 1
    ensures r.1 <==> r.0 && !flagged
  {
    (faceCount > 1, faceCount > 1 && !flagged)
  }

  /** The flag after a run of face counts, and the number of events flagged. */
  function EdgeRun(flagged: bool, counts: seq<nat>): (bool, nat)
  {
    if |counts| == 0 then (flagged, 0)
    else
      var (f, n) := EdgeRun(flagged, counts[..|counts| - 1]);
      var (f', e) := EdgeStep(f, counts[|counts| - 1]);
      (f', n + (if e then 1 else 0))
  }

  /** Reference definition: sample `i` is a rising edge when it has several faces and the one before did not. */
  predicate Rising(flagged: bool, counts: seq<nat>, i: nat)
    requires i < |counts|
  {
    counts[i] > 1 && !(if i == 0 then flagged else counts[i - 1] > 1)
  }

  /** The number of rising edges among the first `n` samples. */
  function RisingEdges(flagged: bool, counts: seq<nat>, n: nat): nat
    requires n <= |counts|
  {
    if n == 0 then 0 else RisingEdges(flagged, counts, n - 1) + (if Rising(flagged, counts, n - 1) then 1 else 0)
  }

  lemma {:induction false} RisingEdgesPrefix(flagged: bool, counts: seq<nat>, m: nat, n: nat)
    requires n <= m <= |counts|
    ensures RisingEdges(flagged, counts[..m], n) == RisingEdges(flagged, counts, n)
  {
    if n > 0 {
      RisingEdgesPrefix(flagged, counts, m, n - 1);
    }
  }

  /**
   * The trigger flags exactly once per rising edge, and afterwards its flag says whether the
   * last sample had several faces (or is unchanged after no samples).
   */
  lemma {:induction false} EdgeRunCountsRisingEdges(flagged: bool, counts: seq<nat>)
    ensures EdgeRun(flagged, counts).1 == RisingEdges(flagged, counts, |counts|)
    ensures EdgeRun(flagged, counts).0 == if |counts| == 0 then flagged else counts[|counts| - 1] > 1
  {
    if |counts| > 0 {
      var init := counts[..|counts| - 1];
      EdgeRunCountsRisingEdges(flagged, init);
      RisingEdgesPrefix(flagged, counts, |counts| - 1, |counts| - 1);
    }
  }

  /** While several faces stay in view, the trigger flags at most once. */
  lemma {:induction false} SteadyCrowdFlagsOnce(flagged: bool, counts: seq<nat>)
    requires forall k :: 0 <= k < |counts| ==> counts[k] > 1
    ensures EdgeRun(flagged, counts).1 == if |counts| == 0 || flagged then 0 else 1
    ensures |counts| > 0 ==> EdgeRun(flagged, counts).0
  {
    if |counts| > 0 {
      SteadyCrowdFlagsOnce(flagged, counts[..|counts| - 1]);
    }
  }

  /** Counts 2, 2 flag once; counts 2, 1, 2 flag twice. */
  lemma EdgeExamples()
    ensures EdgeRun(false, [2, 2]).1 == 1
    ensures EdgeRun(false, [2, 1, 2]).1 == 2
  {
  }
}
