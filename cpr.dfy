/**
 The chest-compression schedule of the CPR demo (CPR.cpp).

 From the compression rate (beats per minute) and the fraction of each period
 during which the chest is compressed, the demo derives the period, the
 compression time and the release time. It then alternates two steps until the
 accumulated time reaches the CPR duration: submit the compression force and
 advance time by the compression time, then submit 0 N and advance by the release
 time. Afterwards it makes sure the chest is released.

 The engine is seen only through the calls made to it, in order: a chest
 compression action carrying a force, and an advance of simulated time (a call
 of the tracker's AdvanceModelTime). A C++ `double` is modelled as a `real`, so
 the accumulated timer here is exact.
 */
module Cpr {
  import Scenarios
  import opened Arith

  /** One call into the engine. */
  datatype EngineCall =
    | Compress(newtons: real)    // set the chest compression force and process the action
    | Advance(seconds: real)     // advance simulated time by this many seconds

  /** The demo's settings. */
  const DurationOfCprSeconds: real := 120.0
  const CompressionRateBeatsPerMinute: real := 100.0
  const CompressionForceNewtons: real := 400.0
  const PercentOn: real := 0.3

  /** Period of one compression cycle, and the parts of it spent compressed and released. */
  datatype Timing = Timing(period: real, timeOn: real, timeOff: real)

  /** The period is one beat at `rate` beats per minute; the chest is compressed for
      the fraction `percentOn` of it and released for the rest. */
  function CompressionTiming(rate: real, percentOn: real): (t: Timing)
    requires rate > 0.0
    ensures t.period > 0.0 && t.period * rate == 60.0
    ensures t.timeOn + t.timeOff == t.period
    ensures t.timeOn == percentOn * t.period
  {
    var period := 1.0 / (rate / 60.0);
    var timeOn := percentOn * period;
    Timing(period, timeOn, period - timeOn)
  }

  /** For a fraction strictly between 0 and 1 both phases take positive time, so each
      loop step moves the timer forward (see ElapsedIncreasing). */
  lemma TimingPositive(rate: real, percentOn: real)
    requires rate > 0.0 && 0.0 < percentOn < 1.0
    ensures 0.0 < CompressionTiming(rate, percentOn).timeOn < CompressionTiming(rate, percentOn).period
    ensures 0.0 < CompressionTiming(rate, percentOn).timeOff < CompressionTiming(rate, percentOn).period
  {
    var t := CompressionTiming(rate, percentOn);
    ScaleLt(0.0, percentOn, t.period);
    ScaleLt(percentOn, 1.0, t.period);
  }

  /** With the demo's settings (100 per minute, 30 % on) the period is 0.6 s, of which
      0.18 s compressed and 0.42 s released. */
  lemma DemoTiming()
    ensures CompressionTiming(CompressionRateBeatsPerMinute, PercentOn) == Timing(0.6, 0.18, 0.42)
  {
  }

  /** The calls of loop step `i` (counting from 0): even steps compress, odd steps release. */
  function StepCalls(i: nat, force: real, t: Timing): (calls: seq<EngineCall>)
    ensures |calls| == 2 && calls[0].Compress? && calls[1] == Advance(StepTime(i, t))
    ensures calls[0].newtons == (if i % 2 == 0 then force else 0.0)
  {
    if i % 2 == 0 then [Compress(force), Advance(t.timeOn)]
    else [Compress(0.0), Advance(t.timeOff)]
  }

  /** The time one loop step adds to the timer. */
  function StepTime(i: nat, t: Timing): real
  {
    if i % 2 == 0 then t.timeOn else t.timeOff
  }

  /** The calls made by the first `k` loop steps. */
  function Schedule(k: nat, force: real, t: Timing): (calls: seq<EngineCall>)
    ensures |calls| == 2 * k
  {
    if k == 0 then [] else Schedule(k - 1, force, t) + StepCalls(k - 1, force, t)
  }

  /** The timer after the first `k` loop steps. */
  function Elapsed(k: nat, t: Timing): (timer: real)
    ensures t.timeOn >= 0.0 && t.timeOff >= 0.0 ==> timer >= 0.0
  {
    if k == 0 then 0.0 else Elapsed(k - 1, t) + StepTime(k - 1, t)
  }

  /** Total simulated time advanced by a sequence of calls. */
  function AdvancedTime(calls: seq<EngineCall>): real
  {
    if calls == [] then 0.0
    else
      AdvancedTime(calls[..|calls| - 1]) +
      match calls[|calls| - 1]
      case Advance(d) => d
      case Compress(_) => 0.0
  }

  /** The force of the last compression action submitted, if any. */
  function LastForce(calls: seq<EngineCall>): Scenarios.Option<real>
  {
    if calls == [] then Scenarios.None
    else
      match calls[|calls| - 1]
      case Compress(f) => Scenarios.Some(f)
      case Advance(_) => LastForce(calls[..|calls| - 1])
  }

  /** Advanced time adds up over concatenation. */
  lemma {:induction false} AdvancedTimeAppend(a: seq<EngineCall>, b: seq<EngineCall>)
    ensures AdvancedTime(a + b) == AdvancedTime(a) + AdvancedTime(b)
  {
    if b == [] {
      assert a + b == a;
    } else {
      var b' := b[..|b| - 1];
      assert (a + b)[..|a + b| - 1] == a + b';
      assert (a + b)[|a + b| - 1] == b[|b| - 1];
      AdvancedTimeAppend(a, b');
    }
  }

  /** One loop step advances simulated time by exactly the step's time. */
  lemma StepAdvances(i: nat, force: real, t: Timing)
    ensures AdvancedTime(StepCalls(i, force, t)) == StepTime(i, t)
  {
    var c := if i % 2 == 0 then Compress(force) else Compress(0.0);
    var a := Advance(StepTime(i, t));
    assert StepCalls(i, force, t) == [c, a];
    assert [c, a][..1] == [c] && [c][..0] == [];
    assert AdvancedTime([c]) == 0.0;
  }

  /** The timer always equals the simulated time advanced so far. */
  lemma {:induction false} ScheduleAdvancesElapsed(k: nat, force: real, t: Timing)
    ensures AdvancedTime(Schedule(k, force, t)) == Elapsed(k, t)
  {
    if k > 0 {
      ScheduleAdvancesElapsed(k - 1, force, t);
      AdvancedTimeAppend(Schedule(k - 1, force, t), StepCalls(k - 1, force, t));
      StepAdvances(k - 1, force, t);
    }
  }

  /** Step `i` of the schedule: the calls at positions 2i and 2i+1 are a compression
      with the given force then an advance by the compression time on even steps, and
      a release (0 N) then an advance by the release time on odd steps. The schedule
      therefore starts with a compression and alternates. */
  lemma {:induction false} ScheduleAlternates(k: nat, force: real, t: Timing, i: nat)
    requires i < k
    ensures Schedule(k, force, t)[2 * i] == Compress(if i % 2 == 0 then force else 0.0)
    ensures Schedule(k, force, t)[2 * i + 1] == Advance(if i % 2 == 0 then t.timeOn else t.timeOff)
  {
    if i < k - 1 {
      ScheduleAlternates(k - 1, force, t, i);
    }
  }

  /** After at least one step, the last force submitted is the one of the last step. */
  lemma {:induction false} ScheduleLastForce(k: nat, force: real, t: Timing)
    requires k > 0
    ensures LastForce(Schedule(k, force, t)) == Scenarios.Some(if (k - 1) % 2 == 0 then force else 0.0)
  {
    var s := Schedule(k, force, t);
    assert s[..|s| - 1] == Schedule(k - 1, force, t) + [s[|s| - 2]];
  }

  /** The timer after 2m steps is m whole periods. */
  lemma {:induction false} ElapsedWholePeriods(m: nat, t: Timing)
    requires t.timeOn + t.timeOff == t.period
    ensures Elapsed(2 * m, t) == m as real * t.period
  {
    if m > 0 {
      ElapsedWholePeriods(m - 1, t);
      assert (2 * m - 2) % 2 == 0 && (2 * m - 1) % 2 == 1;
      assert Elapsed(2 * m, t) == Elapsed(2 * (m - 1), t) + t.timeOn + t.timeOff;
      NextMultiple(m - 1, t.period);
    }
  }

  /** The timer after k steps: k / 2 whole periods, plus a compression time when k is odd. */
  lemma ElapsedClosedForm(k: nat, t: Timing)
    requires t.timeOn + t.timeOff == t.period
    ensures Elapsed(k, t) == (k / 2) as real * t.period + (if k % 2 == 1 then t.timeOn else 0.0)
  {
    var m := k / 2;
    ElapsedWholePeriods(m, t);
    if k % 2 == 1 {
      assert k == 2 * m + 1 && (2 * m) % 2 == 0;
    } else {
      assert k == 2 * m;
    }
  }

  /** With positive phase times the timer strictly increases from step to step. */
  lemma {:induction false} ElapsedIncreasing(j: nat, k: nat, t: Timing)
    requires t.timeOn > 0.0 && t.timeOff > 0.0
    requires j < k
    ensures Elapsed(j, t) < Elapsed(k, t)
  {
    if j < k - 1 {
      ElapsedIncreasing(j, k - 1, t);
    }
  }

  /** With the demo's settings, and in exact arithmetic, the loop stops after 400 steps
      (200 full compression cycles of 0.6 s, i.e. exactly 120 s); the last step is a
      release, so no extra release follows. */
  lemma DemoStepCount(k: nat)
    requires k > 0
    requires Elapsed(k, Timing(0.6, 0.18, 0.42)) >= DurationOfCprSeconds
    requires Elapsed(k - 1, Timing(0.6, 0.18, 0.42)) < DurationOfCprSeconds
    ensures k == 400 && k % 2 == 0
  {
    var t := Timing(0.6, 0.18, 0.42);
    ElapsedClosedForm(k, t);
    ElapsedClosedForm(k - 1, t);
    var h := k / 2;
    if k % 2 == 1 {
      assert false;
    }
    assert (k - 1) / 2 == h - 1;
    assert h as real * 0.6 >= 120.0 && (h - 1) as real * 0.6 + 0.18 < 120.0;
  }

  /** The whole periods completed after i steps are the timer at the last even step
      (step i itself when i is even, step i - 1 when it is odd); so they lie below the
      duration whenever that timer does. */
  lemma WholePeriodsReached(i: nat, t: Timing, duration: real)
    requires t.timeOn + t.timeOff == t.period
    requires Elapsed(2 * (i / 2), t) < duration
    ensures (i / 2) as real * t.period < duration
  {
    ElapsedWholePeriods(i / 2, t);
  }

  /** While whole periods of the timer stay below the duration, their number is at
      most the whole number of periods in the duration. */
  lemma WholePeriodsBound(h: nat, period: real, duration: real)
    requires period > 0.0
    requires h as real * period < duration
    ensures h <= (duration / period).Floor
  {
    var q := Quotient(duration, period);
    if h as real > q {
      ScaleLt(q, h as real, period);
      assert false;
    }
  }

  /** Steps whose whole periods stay below the duration number at most twice the
      whole periods in the duration, plus one. */
  lemma StepsBound(i: nat, period: real, duration: real)
    requires period > 0.0
    requires (i / 2) as real * period < duration
    ensures i <= 2 * (duration / period).Floor + 1
  {
    WholePeriodsBound(i / 2, period, duration);
    var f := (duration / period).Floor;
    assert i / 2 <= f;
    assert i <= 2 * (i / 2) + 1;
  }

  /** After at least one step and the final release, the chest is released and the
      simulated time advanced is the timer: the release adds a call but no time. */
  lemma ReleasedSchedule(k: nat, force: real, t: Timing)
    requires k > 0
    ensures var calls := Schedule(k, force, t) + (if k % 2 == 1 && force != 0.0 then [Compress(0.0)] else []);
      AdvancedTime(calls) == Elapsed(k, t) && LastForce(calls) == Scenarios.Some(0.0)
  {
    ScheduleAdvancesElapsed(k, force, t);
    ScheduleLastForce(k, force, t);
    var schedule := Schedule(k, force, t);
    if k % 2 == 1 && force != 0.0 {
      var released := schedule + [Compress(0.0)];
      assert released[..|released| - 1] == schedule;
      assert AdvancedTime(released) == AdvancedTime(schedule) + 0.0;
    } else {
      assert schedule + [] == schedule;
      assert (k - 1) % 2 == 0 ==> k % 2 == 1;
    }
  }

  /** Inside the loop, the number of steps taken is at most twice the whole periods
      in the duration, plus one; this bounds the loop. */
  lemma LoopBound(i: nat, t: Timing, duration: real)
    requires t.period > 0.0 && t.timeOn + t.timeOff == t.period
    requires Elapsed(i, t) < duration
    requires i % 2 == 1 ==> Elapsed(i - 1, t) < duration
    ensures i <= 2 * (duration / t.period).Floor + 1
  {
    if i % 2 == 1 {
      assert 2 * (i / 2) == i - 1;
    } else {
      assert 2 * (i / 2) == i;
    }
    WholePeriodsReached(i, t, duration);
    StepsBound(i, t.period, duration);
  }

  /** The CPR loop of the demo and the final release.

      `iterations` is how many times the loop body ran. The calls are the schedule of
      that many steps, followed by one release exactly when the last force submitted
      is not 0 N (the last step was a compression with a non-zero force). The loop
      runs until the timer reaches the duration and not one step longer. It ends for
      any fraction compressed, because every two steps add one whole period. */
  method PerformCpr(durationOfCpr: real, rate: real, force: real, percentOn: real)
    returns (calls: seq<EngineCall>, timer: real, iterations: nat)
    requires durationOfCpr > 0.0
    requires rate > 0.0
    ensures var t := CompressionTiming(rate, percentOn);
      calls == Schedule(iterations, force, t) +
               (if iterations % 2 == 1 && force != 0.0 then [Compress(0.0)] else [])
    ensures timer == Elapsed(iterations, CompressionTiming(rate, percentOn))
    ensures timer == AdvancedTime(calls)
    ensures timer >= durationOfCpr
    ensures iterations > 0
    ensures forall j :: 0 <= j < iterations ==> Elapsed(j, CompressionTiming(rate, percentOn)) < durationOfCpr
    ensures LastForce(calls) == Scenarios.Some(0.0)
  {
    var t := CompressionTiming(rate, percentOn);
    var pulsePeriod := t.period;
    var timeOn := t.timeOn;
    var timeOff := t.timeOff;

    calls := [];
    timer := 0.0;
    iterations := 0;
    var pulseState := true;
    var chestForce := 0.0;
    ghost var wholePeriods := (durationOfCpr / pulsePeriod).Floor;
    while timer < durationOfCpr
      invariant timer == Elapsed(iterations, t)
      invariant calls == Schedule(iterations, force, t)
      invariant pulseState <==> iterations % 2 == 0
      invariant iterations > 0 ==> chestForce == (if pulseState then 0.0 else force)
      invariant forall j :: 0 <= j < iterations ==> Elapsed(j, t) < durationOfCpr
      decreases 2 * wholePeriods + 2 - iterations
    {
      LoopBound(iterations, t, durationOfCpr);
      NextParity(iterations);
      if pulseState {
        chestForce := force;
        calls := calls + [Compress(chestForce), Advance(timeOn)];
        timer := timer + timeOn;
        pulseState := false;
      } else {
        chestForce := 0.0;
        calls := calls + [Compress(chestForce), Advance(timeOff)];
        timer := timer + timeOff;
        pulseState := true;
      }
      iterations := iterations + 1;
    }

    assert iterations > 0;
    ReleasedSchedule(iterations, force, t);
    if chestForce != 0.0 {
      chestForce := 0.0;
      calls := calls + [Compress(chestForce)];
    }
  }
}
