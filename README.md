# PulsePhysiology demos: a Dafny model of their logic

The PulsePhysiology plugin is a set of demo scenarios driving the Pulse physiology
engine, a command-line front end and a Qt widget that select a scenario by name. The
engine itself is an external library; what the repository contributes, and what this
project models, is:

- `glasgow.dfy` (module `Glasgow`): `GlasgowEstimator`, the step function that turns
  cerebral blood flow (mL/min) into a Glasgow Coma Score, compared row by row with the
  table documented beside it, plus the Severe / Moderate / Mild classes.
- `cpr.dfy` (module `Cpr`): the chest-compression loop of the CPR demo. The timing is
  derived from rate and duty fraction, then compress and release steps alternate until
  the timer reaches the CPR duration, followed by a final release if needed. The engine
  is seen only through the list of calls made to it, in order.
- `tracker.dfy` (module `Tracker`): `HowToTracker`, which caches the engine time step
  and advances the model by `trunc(t / dT) + 1` single steps, sampling the tracked data
  after each one. The engine is a small class with a fixed step, a simulation clock and
  a record of steps and samples.
- `scenarios.dfy` (module `Scenarios`): the eleven scenarios, their names, and the
  exact-match else-if chain modelled as the list of its branches in source order.
- `cli.dfy` (module `Cli`): `main`, dispatching on `argv[1]`.
- `arith.dfy` (module `Arith`): three facts of real arithmetic used by the CPR and
  tracker proofs (division as inverse multiplication, scaling by a positive factor).
- `widget.dfy` (module `Widget`): `PulseWidget` as a class with the `scenario` property
  and a record of what it printed and ran. Its handler `onScenarioChanged` clears an
  unknown name and emits the change signal again, which re-enters the handler.

C++ `double` values are modelled as Dafny `real`. The C++ cast `static_cast<int>`
truncates toward zero, and the model writes this out (`Tracker.Trunc`).

## Model

| member | source | states |
|---|---|---|
| Glasgow.GlasgowEstimator | src/PulsePhysiology/BrainInjury.cpp:209-237 | every flow, negative ones included, gets a score between 3 and 15 |
| Glasgow.EstimatorMatchesTable | src/PulsePhysiology/BrainInjury.cpp:193-236 | on every input the code equals the documented table read as "3 plus the number of row boundaries reached" |
| Glasgow.EstimatorBand | src/PulsePhysiology/BrainInjury.cpp:193-236 | each table row [lo, hi) maps to that row's score 3 + k |
| Glasgow.EstimatorMonotone | src/PulsePhysiology/BrainInjury.cpp:211-236 | a larger flow never gives a lower score |
| Glasgow.ThresholdStartsBand | src/PulsePhysiology/BrainInjury.cpp:211-234 | comparisons are strict: each threshold already scores the higher band, and everything below it scores at most the lower one |
| Glasgow.BoundaryExamples | src/PulsePhysiology/BrainInjury.cpp:211-236 | 115.999 gives 3, 116 gives 4, 724.999 gives 14, 725 and 1000 give 15, -5 gives 3 |
| Glasgow.NoUpperClamp | src/PulsePhysiology/BrainInjury.cpp:207-236 | every flow from 725 up scores 15; there is no upper limit at 943 |
| Glasgow.Classify | src/PulsePhysiology/BrainInjury.cpp:181-185 | Severe exactly below 9, Mild exactly above 12, Moderate otherwise |
| Glasgow.SevereIffLowFlow | src/PulsePhysiology/BrainInjury.cpp:183-222 | the estimate is Severe if and only if the flow is below 290 |
| Glasgow.MildIffHighFlow | src/PulsePhysiology/BrainInjury.cpp:185-230 | the estimate is Mild if and only if the flow is at least 580 |
| Glasgow.ModerateIffMidFlow | src/PulsePhysiology/BrainInjury.cpp:184-230 | the estimate is Moderate if and only if 290 <= flow < 580 |
| Cpr.CompressionTiming | src/PulsePhysiology/CPR.cpp:143-151 | period times rate is 60 s, the compressed time is the duty fraction of the period, and compressed plus released time is the period |
| Cpr.TimingPositive | src/PulsePhysiology/CPR.cpp:145-151 | for a rate above 0 and a fraction strictly between 0 and 1, both phases take positive time shorter than the period |
| Cpr.DemoTiming | src/PulsePhysiology/CPR.cpp:94-151 | the demo settings give a 0.6 s period: 0.18 s compressed, 0.42 s released |
| Cpr.StepCalls | src/PulsePhysiology/CPR.cpp:163-192 | one loop step submits a force, then advances by that step's time; the force is the compression force on even steps and 0 N on odd steps (see ScheduleAlternates) |
| Cpr.Elapsed | src/PulsePhysiology/CPR.cpp:154-188 | the value of `timer1` after k steps; it is never negative when both phases are non-negative (closed form in ElapsedClosedForm) |
| Cpr.Schedule | src/PulsePhysiology/CPR.cpp:161-193 | k loop steps make 2k engine calls |
| Cpr.ScheduleAdvancesElapsed | src/PulsePhysiology/CPR.cpp:170-188 | the timer equals the total time advanced through the tracker so far |
| Cpr.ScheduleAlternates | src/PulsePhysiology/CPR.cpp:158-191 | calls alternate, starting with a compression: the given force then the compressed time, then 0 N then the released time |
| Cpr.ScheduleLastForce | src/PulsePhysiology/CPR.cpp:163-192 | after k steps, the last force submitted is the force of step k |
| Cpr.ElapsedWholePeriods | src/PulsePhysiology/CPR.cpp:161-192 | every compression and release pair adds one whole period: after 2m steps the timer holds m periods |
| Cpr.ReleasedSchedule | src/PulsePhysiology/CPR.cpp:195-201 | after the loop and the final release, the last force submitted is 0 N and the release advances no time |
| Cpr.ElapsedClosedForm | src/PulsePhysiology/CPR.cpp:161-192 | after k steps the timer holds k/2 whole periods, plus a compressed time when k is odd |
| Cpr.ElapsedIncreasing | src/PulsePhysiology/CPR.cpp:148-192 | with positive phase times the timer strictly increases from step to step |
| Cpr.DemoStepCount | src/PulsePhysiology/CPR.cpp:94-201 | with the demo settings the loop stops after 400 steps (exactly 120 s in exact arithmetic), ending on a release |
| Cpr.PerformCpr | src/PulsePhysiology/CPR.cpp:141-201 | for any positive rate and any compression fraction the loop ends. The calls made are the alternating schedule, plus one release exactly when the last step compressed with a non-zero force. The timer is the time advanced, reaches the duration and was below it before every step. The last force submitted is 0 N |
| Tracker.Engine.constructor | initPulsePhysiology.cpp:36-38 | an engine with a positive fixed time step, at time 0, with nothing recorded |
| Tracker.Engine.AdvanceModelTime | initPulsePhysiology.cpp:49 | one step moves the simulation clock by the time step and is recorded |
| Tracker.Engine.TrackData | initPulsePhysiology.cpp:52 | records one sample at the given time and leaves the clock alone |
| Tracker.Trunc | initPulsePhysiology.cpp:46 | truncation toward zero: the result lies within 1 of the input, on the side of zero |
| Tracker.StepCount | initPulsePhysiology.cpp:46-47 | the number of iterations of `for (i = 0; i <= count; i++)`; at least one for any time of 0 or more (exact bounds in StepCountCoversTime, ShortTimeOneStep, VeryNegativeTimeNoStep, ExactMultipleOneExtraStep) |
| Tracker.ClockClosedForm | initPulsePhysiology.cpp:47-52 | n engine steps of dT, taken one at a time, move the clock from its start by exactly n dT |
| Tracker.TrackedSteps | initPulsePhysiology.cpp:47-53 | n loop iterations record 2n events |
| Tracker.StepCountCoversTime | initPulsePhysiology.cpp:46-47 | for a time t >= 0 the steps performed satisfy (n - 1) dT <= t < n dT |
| Tracker.ShortTimeOneStep | initPulsePhysiology.cpp:46-47 | a time of 0, or any time strictly between -dT and dT, performs exactly one step |
| Tracker.VeryNegativeTimeNoStep | initPulsePhysiology.cpp:46-47 | a time of -dT or less performs no step |
| Tracker.ExactMultipleOneExtraStep | initPulsePhysiology.cpp:46-47 | a time of exactly k steps performs k + 1 steps |
| Tracker.TrackedStepsInterleave | initPulsePhysiology.cpp:47-53 | steps and samples alternate one to one, starting with a step; sample j is taken at the start time plus (j + 1) dT |
| Tracker.HowToTracker.constructor | initPulsePhysiology.cpp:36-39 | the tracker caches the engine's time step |
| Tracker.HowToTracker.AdvanceModelTime | initPulsePhysiology.cpp:43-54 | the cached step is unchanged. The engine clock moves by StepCount(t, dT) steps, and the engine record grows by that many step-then-sample pairs, each sample at the time read after its step |
| Scenarios.ScenarioName | src/PulsePhysiology/main.cpp:31-52 | every scenario is selected by a non-empty name |
| Scenarios.ScenarioNameShape | src/PulsePhysiology/main.cpp:31-52 | every name starts with an upper-case letter and does not end in a space |
| Scenarios.ScenarioNameInjective | src/PulsePhysiology/main.cpp:31-52 | no two scenarios share a name |
| Scenarios.FirstMatch | src/PulsePhysiology/main.cpp:31-57 | the branch taken has a key equal to the input |
| Scenarios.FirstMatchIsFirst | src/PulsePhysiology/main.cpp:31-57 | no earlier branch matches the input, and no branch is taken exactly when no key matches |
| Scenarios.Select | src/PulsePhysiology/main.cpp:31-57 | a selected scenario belongs to a branch whose key is the input |
| Scenarios.SelectNoneIffNoKey | src/PulsePhysiology/main.cpp:31-57 | nothing is selected exactly when no branch's key equals the input |
| Cli.CliSelect | src/PulsePhysiology/main.cpp:31-57 | the scenario `main` picks for an argument; a pick is always the scenario of that name (both directions in CliSelectIffKnown) |
| Cli.RunCli | src/PulsePhysiology/main.cpp:29-58 | exactly one outcome: one demo runs and nothing is printed, or nothing runs and the unknown-state message is printed. A demo runs only under its own name, and the exit status is 0 |
| Cli.CliChainWellKeyed | src/PulsePhysiology/main.cpp:31-54 | every branch of `main` calls the demo named by its string |
| Cli.CliChainCoversAll | src/PulsePhysiology/main.cpp:31-52 | the first eleven branches test the eleven scenarios in order |
| Cli.CliChainKeysAreNames | src/PulsePhysiology/main.cpp:31-54 | a selected scenario is the one whose name was given |
| Cli.CliSelectsNamed | src/PulsePhysiology/main.cpp:31-52 | each of the eleven names selects its own scenario |
| Cli.CliSelectIffKnown | src/PulsePhysiology/main.cpp:31-57 | a demo runs if and only if the argument is exactly one of the eleven names |
| Cli.DuplicateBranchUnreachable | src/PulsePhysiology/main.cpp:33-54 | the second "AnesthesiaMachine" branch is never taken |
| Cli.CliCaseSensitive | src/PulsePhysiology/main.cpp:31-51 | an empty argument, one starting with a lower-case letter, or one ending in a space selects nothing |
| Cli.UnknownArgumentPrints | src/PulsePhysiology/main.cpp:55-57 | any other argument runs nothing and prints the unknown-state message |
| Cli.KnownArgumentRuns | src/PulsePhysiology/main.cpp:31-52 | a known argument runs exactly its demo and prints nothing |
| Widget.Handle | src/PulsePhysiology/PulseWidget.cpp:37-67 | the handler ignores exactly the empty name and runs a demo only under its own name |
| Widget.ClearsExactlyUnknown | src/PulsePhysiology/PulseWidget.cpp:37-67 | the name is cleared and the signal re-emitted exactly for non-empty names that are not scenario names |
| Widget.WidgetChainWellKeyed | src/PulsePhysiology/PulseWidget.cpp:37-60 | every branch of the handler calls the demo named by its string |
| Widget.WidgetChainCoversAll | src/PulsePhysiology/PulseWidget.cpp:37-58 | the first eleven branches test the eleven scenarios in order |
| Widget.WidgetNamesMatch | src/PulsePhysiology/PulseWidget.cpp:37-58 | each of the eleven names is matched by a branch |
| Widget.WidgetAgreesWithCli | src/PulsePhysiology/PulseWidget.cpp:37-67 | for every name the widget runs a demo exactly when `main` would, and the same one. For a non-empty name it reports an unknown state exactly when `main` prints its message. The empty name is where they differ: `main` prints its message, the widget ignores it |
| Widget.WidgetDuplicateUnreachable | src/PulsePhysiology/PulseWidget.cpp:39-60 | the second "AnesthesiaMachine" branch is never taken |
| Widget.HandledScenario | src/PulsePhysiology/PulseWidget.cpp:37-67 | the name left after the handler and its re-entry: unchanged exactly when the name is not cleared, and otherwise empty (see HandlingSettles) |
| Widget.HandlerTrace | src/PulsePhysiology/PulseWidget.cpp:33-68 | what the handler and its re-entry print and run: it starts with the announcement of the name, and more follows exactly when the name is not empty (see ReentryDepth) |
| Widget.EmptyNameTrace | src/PulsePhysiology/PulseWidget.cpp:61-62 | the empty name is announced and ignored: nothing runs and the name stays empty |
| Widget.TraceOfKnown | src/PulsePhysiology/PulseWidget.cpp:35-60 | a known name is announced and its demo runs |
| Widget.TraceOfUnknown | src/PulsePhysiology/PulseWidget.cpp:25-67 | an unknown name is announced and reported, and then the empty name is announced |
| Widget.UnknownNameReenters | src/PulsePhysiology/PulseWidget.cpp:63-67 | after reporting an unknown name, the rest of the handling is exactly what handling the empty name does |
| Widget.ReentryDepth | src/PulsePhysiology/PulseWidget.cpp:25-67 | a change enters the handler twice for an unknown name and once otherwise; it runs the selected demo once, and nothing for other names |
| Widget.KnownNameEffects | src/PulsePhysiology/PulseWidget.cpp:35-60 | a known name enters the handler once and runs its demo once |
| Widget.EmptyNameEffects | src/PulsePhysiology/PulseWidget.cpp:35-62 | the empty name enters the handler once and runs nothing |
| Widget.UnknownNameEffects | src/PulsePhysiology/PulseWidget.cpp:25-67 | an unknown name enters the handler twice and runs nothing |
| Widget.HandlingSettles | src/PulsePhysiology/PulseWidget.cpp:61-67 | the name left behind asks for no further clearing, so handling it again changes nothing |
| Widget.PulseWidget.constructor | src/PulsePhysiology/PulseWidget.cpp:22-26 | a new widget has an empty scenario and has printed nothing |
| Widget.PulseWidget.EmitScenarioChanged | src/PulsePhysiology/PulseWidget.cpp:25 | emitting the signal runs the connected handler at once, with its full effect |
| Widget.PulseWidget.OnScenarioChanged | src/PulsePhysiology/PulseWidget.cpp:33-68 | a known or empty name is left unchanged and an unknown one is cleared. The output grows by the announcement, the demo run or the report, and the re-entered handler's announcement of the empty name |

## Left out

- Everything the engine does: loading states, `InitializeEngine`, data requests,
  processing actions, getters and logging. The CPR loop keeps only the order of
  force submissions and time advances. The tracker keeps only steps, the simulation
  clock and the sample times.
- Tracker.Engine.AdvanceModelTime: one engine step is assumed to move the simulation
  clock by exactly the engine's time step. The engine is not part of this model.
- Tracker.HowToTracker.AdvanceModelTime: `static_cast<int>` of a quotient beyond the
  `int` range is undefined behaviour in C++. The model uses an unbounded integer there.
- Tracker.HowToTracker.AdvanceModelTime: a quotient that truncates to `INT_MAX` makes
  `i <= count` true for every `int` i, so `i++` overflows, which is undefined behaviour.
  The model's unbounded counter performs `INT_MAX + 1` steps instead.
- The demo bodies other than the CPR loop (Asthma, AirwayObstruction, AnesthesiaMachine,
  BolusDrug, COPD, LobarPneumonia, PulmonaryFunctionTest, Smoke, TensionPneumothorax,
  EngineUse), the rest of the brain-injury demo, and the hemorrhage `main` in
  initPulsePhysiology.cpp. They are fixed scripts with no logic of their own. Each demo
  is modelled only as the scenario that runs.
- `MyListener`, `MyLogger`, `MyEventHandler`: logging and event callbacks.
- config/PulsePhysiology.cpp: constant metadata strings and Qt/QML registration.
- The header files, which hold declarations only. The widget's `scenario` property and
  its signal are modelled as PulseWidget.cpp uses them. The property setter is not part
  of this model.
- Qt signal delivery: `emit scenarioChanged()` is treated as a direct call of the
  connected handler.
- Floating point: `double` is `real`. The model does not claim anything about rounding
  in `time_s / m_dT_s` or in the accumulated `timer1`. For example, the demo's 400
  steps in Cpr.DemoStepCount hold in exact arithmetic.
- Cpr.PerformCpr: requires a duration above 0. With a duration of 0 or less the loop
  never runs, and the final check reads a force that was never set.
- Cpr.PerformCpr: requires a rate above 0. A rate of 0 divides by zero, giving an
  infinite period in IEEE arithmetic, which a `real` cannot hold. A negative rate gives a
  negative period, so every two steps take one whole period off the timer. The loop then
  ends only if the first compression alone reaches the duration, which needs a negative
  fraction as well. Otherwise it never ends. For a positive rate any compression
  fraction is allowed: every two steps add one whole period, so the loop always ends.
- Cli.RunCli: requires at least one argument after the program name. `main` reads
  `argv[1]` without checking `argc`, which is undefined behaviour when it is missing.
- Cpr.PerformCpr: each call advances the tracker by the phase time. The extra step that
  the tracker performs (Tracker.ExactMultipleOneExtraStep) is not carried over into the
  CPR trace, which records the requested time.
- Text printed to standard output is reduced to events (announcement, demo run,
  unknown-state report), except for the command line's unknown-state message, which is
  kept verbatim.
- Glasgow.MildIffHighFlow: a NaN flow fails every `<` comparison in `GlasgowEstimator`
  and so scores 15 (Mild), although `NaN >= 580` is false too. A `real` has no NaN, so
  this case is not modelled.
- The comment table above `GlasgowEstimator` gives "725-943" for score 15, but the code
  has no upper limit. The model follows the code (Glasgow.NoUpperClamp).
