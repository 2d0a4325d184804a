/**
 The time-stepping helper of the demos (class HowToTracker in initPulsePhysiology.cpp).

 The tracker caches the engine's time step when it is built. Asked to advance the
 model by some seconds, it computes `count = static_cast<int>(time_s / dT)` and runs
 `for (i = 0; i <= count; i++)` one engine step followed by one data sample taken at
 the simulation time read right after that step.

 The engine itself is not part of this model; it is seen only through the three
 calls the tracker makes: advance one step, read the simulation time, and record a
 sample. It is modelled as an object with a fixed time step, a simulation clock that
 one step moves forward by that time step, and the record of steps and samples.
 */
module Tracker {
  import opened Arith

  /** What the engine was asked to do, in order. */
  datatype EngineEvent =
    | Stepped              // one time step was computed
    | Tracked(time: real)  // the tracked data were sampled at this simulation time (s)

  /** The engine as the tracker sees it. */
  class Engine {
    const timeStep: real
    var simTime: real
    var events: seq<EngineEvent>

    constructor (timeStep: real)
      requires timeStep > 0.0
      ensures this.timeStep == timeStep && simTime == 0.0 && events == []
    {
      this.timeStep := timeStep;
      simTime := 0.0;
      events := [];
    }

    /** Compute one time step. */
    method AdvanceModelTime()
      modifies this
      ensures simTime == old(simTime) + timeStep
      ensures events == old(events) + [Stepped]
    {
      simTime := simTime + timeStep;
      events := events + [Stepped];
    }

    /** Sample the tracked data at simulation time `time`. */
    method TrackData(time: real)
      modifies this
      ensures simTime == old(simTime)
      ensures events == old(events) + [Tracked(time)]
    {
      events := events + [Tracked(time)];
    }
  }

  /** C++ `static_cast<int>` of a floating value: truncation toward zero. */
  function Trunc(x: real): (n: int)
    ensures x >= 0.0 ==> n >= 0 && n as real <= x < n as real + 1.0
    ensures x < 0.0 ==> n <= 0 && n as real - 1.0 < x <= n as real
  {
    if x >= 0.0 then x.Floor else -((-x).Floor)
  }

  /** The number of steps `AdvanceModelTime(time)` performs with cached step `dT`:
      the loop runs for i = 0 .. trunc(time / dT), which is no iteration at all when
      that bound is negative. */
  function StepCount(time: real, dT: real): (n: nat)
    requires dT > 0.0
    ensures time >= 0.0 ==> n >= 1
  {
    var count := Trunc(time / dT);
    if count < 0 then 0 else count + 1
  }

  /** The simulation time after `n` engine steps of `dT` from `start`, one step at a time. */
  function Clock(start: real, dT: real, n: nat): real
  {
    if n == 0 then start else Clock(start, dT, n - 1) + dT
  }

  /** n steps of dT move the clock by n dT. */
  lemma {:induction false} ClockClosedForm(start: real, dT: real, n: nat)
    ensures Clock(start, dT, n) == start + n as real * dT
  {
    if n > 0 {
      ClockClosedForm(start, dT, n - 1);
      NextMultiple(n - 1, dT);
    }
  }

  /** What `n` steps starting at simulation time `start` record: each step is followed
      by a sample at the time reached by that step. */
  function TrackedSteps(start: real, dT: real, n: nat): (trace: seq<EngineEvent>)
    ensures |trace| == 2 * n
  {
    if n == 0 then []
    else TrackedSteps(start, dT, n - 1) + [Stepped, Tracked(Clock(start, dT, n))]
  }

  /** For a non-negative time the steps cover it, and one step fewer would not:
      (n - 1) dT <= time < n dT. The tracker therefore advances the model by up to one
      step more than asked. */
  lemma StepCountCoversTime(time: real, dT: real)
    requires dT > 0.0 && time >= 0.0
    ensures StepCount(time, dT) >= 1
    ensures (StepCount(time, dT) - 1) as real * dT <= time
    ensures time < StepCount(time, dT) as real * dT
  {
    var q := Quotient(time, dT);
    if q < 0.0 {
      ScaleLt(q, 0.0, dT);
      assert false;
    }
    var n := StepCount(time, dT);
    assert n - 1 == Trunc(q);
    ScaleBracket(q, n, dT);
    assert time < n as real * dT;
  }

  /** Any time shorter than one step, zero included, still performs one step; so does
      a negative time above -dT, because the cast truncates toward zero. */
  lemma ShortTimeOneStep(time: real, dT: real)
    requires dT > 0.0 && -dT < time < dT
    ensures StepCount(time, dT) == 1
  {
    var q := Quotient(time, dT);
    if q >= 1.0 {
      ScaleLe(1.0, q, dT);
      assert false;
    }
    if q <= -1.0 {
      ScaleLe(q, -1.0, dT);
      assert false;
    }
    assert Trunc(q) == 0;
  }

  /** A time of minus one step or less performs no step at all. */
  lemma VeryNegativeTimeNoStep(time: real, dT: real)
    requires dT > 0.0 && time <= -dT
    ensures StepCount(time, dT) == 0
  {
    var q := Quotient(time, dT);
    if q > -1.0 {
      ScaleLt(-1.0, q, dT);
      assert false;
    }
    assert Trunc(q) < 0;
  }

  /** Asked for a whole number k of steps' worth of time, the tracker performs k + 1
      steps: it always runs one step past the requested time. */
  lemma ExactMultipleOneExtraStep(k: nat, dT: real)
    requires dT > 0.0
    ensures StepCount(k as real * dT, dT) == k + 1
  {
    var q := Quotient(k as real * dT, dT);
    if q < k as real {
      ScaleLt(q, k as real, dT);
      assert false;
    }
    if q > k as real {
      ScaleLt(k as real, q, dT);
      assert false;
    }
    assert Trunc(q) == k;
  }

  /** Steps and samples alternate one to one, starting with a step: position 2j is
      step j + 1 and position 2j + 1 is its sample, taken at start + (j + 1) dT. */
  lemma {:induction false} TrackedStepsInterleave(start: real, dT: real, n: nat, j: nat)
    requires j < n
    ensures TrackedSteps(start, dT, n)[2 * j] == Stepped
    ensures TrackedSteps(start, dT, n)[2 * j + 1] == Tracked(start + (j + 1) as real * dT)
  {
    if j < n - 1 {
      TrackedStepsInterleave(start, dT, n - 1, j);
    } else {
      ClockClosedForm(start, dT, n);
    }
  }

  /** HowToTracker: the engine it drives and the engine time step cached at construction. */
  class HowToTracker {
    var dT: real
    const engine: Engine

    /** The cached step is the engine's, and it is positive. */
    predicate Valid()
      reads this, engine
    {
      dT == engine.timeStep && dT > 0.0
    }

    constructor (engine: Engine)
      requires engine.timeStep > 0.0
      ensures this.engine == engine && dT == engine.timeStep
      ensures Valid()
    {
      this.engine := engine;
      dT := engine.timeStep;
    }

    /** Advance the model by `time_s` seconds, one engine step at a time, sampling after
        each step. Only the engine changes; the cached step stays as it was. */
    method AdvanceModelTime(time_s: real)
      requires Valid()
      modifies engine
      ensures Valid() && dT == old(dT)
      ensures engine.simTime == old(engine.simTime) + StepCount(time_s, dT) as real * dT
      ensures engine.events == old(engine.events) + TrackedSteps(old(engine.simTime), dT, StepCount(time_s, dT))
    {
      var count := Trunc(time_s / dT);
      ghost var start := engine.simTime;
      ghost var before := engine.events;
      var i := 0;
      while i <= count
        invariant Valid()
        invariant 0 <= i <= (if count < 0 then 0 else count + 1)
        invariant engine.simTime == Clock(start, dT, i)
        invariant engine.events == before + TrackedSteps(start, dT, i)
      {
        engine.AdvanceModelTime();
        engine.TrackData(engine.simTime);
        i := i + 1;
      }
      ClockClosedForm(start, dT, i);
    }
  }
}
