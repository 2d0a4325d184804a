/**
 The GUI front end (PulseWidget.cpp). The widget holds the scenario name; its
 constructor connects the `scenarioChanged` signal to the `onScenarioChanged`
 handler. The handler announces the name, runs the matching demo through the same
 else-if chain as the command line, does nothing for the empty name, and for any
 other name reports an unknown state, clears the name and emits the signal again,
 which re-enters the handler with the empty name.

 Signal delivery is direct: emitting the signal calls the connected handler at once.
 */
module Widget {
  import opened Scenarios
  import Cli

  /** The branches of `onScenarioChanged`, in source order; the last one repeats
      "AnesthesiaMachine". */
  const WidgetChain: seq<Branch> := [
    Branch("AirwayObstruction", AirwayObstruction),
    Branch("AnesthesiaMachine", AnesthesiaMachine),
    Branch("Asthma", AsthmaAttack),
    Branch("BolusDrug", BolusDrug),
    Branch("BrainInjury", BrainInjury),
    Branch("COPD", Copd),
    Branch("CPR", Cpr),
    Branch("LobarPneumonia", LobarPneumonia),
    Branch("PulmonaryFunctionTest", PulmonaryFunctionTest),
    Branch("Smoke", Smoke),
    Branch("TensionPneumothorax", TensionPneumothorax),
    Branch("AnesthesiaMachine", AnesthesiaMachine)]

  /** What one activation of the handler decides for the current name. */
  datatype Handling = RunScenario(scenario: Scenario) | Ignore | ClearAndReemit

  /** What the widget writes to its output and runs, in order. */
  datatype WidgetEvent =
    | Announced(name: string)      // "New scenario: <name>"
    | Ran(scenario: Scenario)      // the demo function was called
    | UnknownStateReported         // "UNKNOWN STATE ENTERED"

  /** The branch the handler takes: the first matching scenario, else nothing for
      the empty name, else clear and re-emit. */
  function Handle(name: string): (h: Handling)
    ensures h.Ignore? <==> name == ""
    ensures h.RunScenario? ==> name == ScenarioName(h.scenario)
  {
    WidgetChainWellKeyed();
    match FirstMatch(WidgetChain, name)
    case Some(i) => RunScenario(WidgetChain[i].scenario)
    case None => if name == "" then Ignore else ClearAndReemit
  }

  /** The handler clears and re-emits exactly for the non-empty names that are not
      one of the eleven scenario names. */
  lemma ClearsExactlyUnknown(name: string)
    ensures Handle(name).ClearAndReemit? <==> name != "" && forall s :: name != ScenarioName(s)
  {
    if Handle(name).ClearAndReemit? {
      forall s ensures name != ScenarioName(s) {
        WidgetNamesMatch(s);
      }
    }
  }

  /** Every branch of the widget's chain is keyed with its own scenario's name. */
  lemma WidgetChainWellKeyed()
    ensures forall j :: 0 <= j < |WidgetChain| ==> WidgetChain[j].key == ScenarioName(WidgetChain[j].scenario)
  {
  }

  /** Each of the eleven names is matched by some branch of the widget's chain. */
  lemma {:induction false} WidgetNamesMatch(s: Scenario)
    ensures FirstMatch(WidgetChain, ScenarioName(s)).Some?
  {
    AllScenariosComplete(s);
    WidgetChainCoversAll();
    var j :| 0 <= j < |AllScenarios| && AllScenarios[j] == s;
    FirstMatchIsFirst(WidgetChain, ScenarioName(s));
  }

  /** The first eleven branches test the eleven scenarios, each under its own name. */
  lemma WidgetChainCoversAll()
    ensures forall j :: 0 <= j < |AllScenarios| ==> WidgetChain[j] == Branch(ScenarioName(AllScenarios[j]), AllScenarios[j])
  {
  }

  /** The name left in the widget after one activation and everything it triggers. */
  function HandledScenario(name: string): (after: string)
    ensures after == name <==> !Handle(name).ClearAndReemit?
    ensures after != name ==> after == ""
  {
    if Handle(name).ClearAndReemit? then "" else name
  }

  /** The events of one handler activation, including the activation that the
      re-emitted signal causes. */
  function HandlerTrace(name: string): (trace: seq<WidgetEvent>)
    ensures |trace| >= 2 <==> !Handle(name).Ignore?
    ensures |trace| >= 1 && trace[0] == Announced(name)
    decreases |name|
  {
    [Announced(name)] +
    match Handle(name)
    case RunScenario(s) => [Ran(s)]
    case Ignore => []
    case ClearAndReemit => [UnknownStateReported] + HandlerTrace("")
  }

  /** The empty name is announced and then ignored. */
  lemma EmptyNameTrace()
    ensures Handle("") == Ignore && HandledScenario("") == ""
    ensures HandlerTrace("") == [Announced("")]
  {
    assert Handle("") == Ignore;
  }

  /** How many times the handler was entered in a trace. */
  function Activations(trace: seq<WidgetEvent>): (n: nat)
    ensures n <= |trace|
  {
    if trace == [] then 0
    else (if trace[0].Announced? then 1 else 0) + Activations(trace[1..])
  }

  /** Which demos ran in a trace. */
  function RanScenarios(trace: seq<WidgetEvent>): (ran: seq<Scenario>)
    ensures |ran| <= |trace|
  {
    if trace == [] then []
    else (if trace[0].Ran? then [trace[0].scenario] else []) + RanScenarios(trace[1..])
  }

  /** Re-entry terminates: a change of name enters the handler once, or twice when
      the name is unknown (the second time with the cleared, empty name). */
  lemma ReentryDepth(name: string)
    ensures Activations(HandlerTrace(name)) == (if Handle(name).ClearAndReemit? then 2 else 1)
    ensures RanScenarios(HandlerTrace(name)) == (if Handle(name).RunScenario? then [Handle(name).scenario] else [])
  {
    var h := Handle(name);
    if h.RunScenario? {
      KnownNameEffects(name, h.scenario);
    } else if h.Ignore? {
      EmptyNameEffects();
    } else {
      UnknownNameEffects(name);
    }
  }

  /** A known name enters the handler once and runs its demo once. */
  lemma KnownNameEffects(name: string, s: Scenario)
    requires Handle(name) == RunScenario(s)
    ensures Activations(HandlerTrace(name)) == 1
    ensures RanScenarios(HandlerTrace(name)) == [s]
  {
    TraceOfKnown(name, s);
    RunTraceCounts(name, s);
  }

  /** The empty name enters the handler once and runs nothing. */
  lemma EmptyNameEffects()
    ensures Activations(HandlerTrace("")) == 1
    ensures RanScenarios(HandlerTrace("")) == []
  {
    EmptyNameTrace();
    assert [Announced("")][1..] == [];
  }

  /** An unknown name enters the handler twice and runs nothing. */
  lemma UnknownNameEffects(name: string)
    requires Handle(name).ClearAndReemit?
    ensures Activations(HandlerTrace(name)) == 2
    ensures RanScenarios(HandlerTrace(name)) == []
  {
    TraceOfUnknown(name);
    ReemitTraceCounts(name);
  }

  /** Counting in the trace of a known name. */
  lemma RunTraceCounts(name: string, s: Scenario)
    ensures Activations([Announced(name), Ran(s)]) == 1
    ensures RanScenarios([Announced(name), Ran(s)]) == [s]
  {
    var t := [Announced(name), Ran(s)];
    assert t[1..] == [Ran(s)] && t[1..][1..] == [];
  }

  /** Counting in the trace of an unknown name. */
  lemma ReemitTraceCounts(name: string)
    ensures Activations([Announced(name), UnknownStateReported, Announced("")]) == 2
    ensures RanScenarios([Announced(name), UnknownStateReported, Announced("")]) == []
  {
    var t := [Announced(name), UnknownStateReported, Announced("")];
    assert t[1..] == [UnknownStateReported, Announced("")];
    assert t[1..][1..] == [Announced("")] && t[1..][1..][1..] == [];
    assert Activations(t[1..][1..]) == 1 && RanScenarios(t[1..][1..]) == [];
    assert Activations(t[1..]) == 1 && RanScenarios(t[1..]) == [];
  }

  /** An unknown name is announced and reported, and the rest is what handling the
      empty name does. */
  lemma UnknownNameReenters(name: string, log: seq<WidgetEvent>)
    requires Handle(name).ClearAndReemit?
    ensures log + [Announced(name)] + [UnknownStateReported] + HandlerTrace("") == log + HandlerTrace(name)
    ensures HandledScenario(name) == HandledScenario("")
  {
    EmptyNameTrace();
    TraceOfUnknown(name);
    AppendEvents(log, Announced(name), UnknownStateReported, Announced(""));
  }

  /** Appending three events one at a time appends them as one block. */
  lemma AppendEvents(log: seq<WidgetEvent>, a: WidgetEvent, b: WidgetEvent, c: WidgetEvent)
    ensures log + [a] + [b] + [c] == log + [a, b, c]
  {
  }

  /** A known name is announced and its demo run. */
  lemma TraceOfKnown(name: string, s: Scenario)
    requires Handle(name) == RunScenario(s)
    ensures HandlerTrace(name) == [Announced(name), Ran(s)]
  {
  }

  /** An unknown name is announced and reported, then the empty name is announced. */
  lemma TraceOfUnknown(name: string)
    requires Handle(name).ClearAndReemit?
    ensures HandlerTrace(name) == [Announced(name), UnknownStateReported, Announced("")]
  {
    EmptyNameTrace();
  }

  /** One activation settles the name: handling the name it leaves behind asks for
      no further change. */
  lemma HandlingSettles(name: string)
    ensures !Handle(HandledScenario(name)).ClearAndReemit?
    ensures HandledScenario(HandledScenario(name)) == HandledScenario(name)
  {
  }

  /** For every name the widget runs the same demo as the command line would for the
      same argument. The two differ only on the empty name: the command line prints its
      message for it, while the widget ignores it; for every other name the widget
      reports an unknown state exactly when the command line prints its message. */
  lemma {:induction false} WidgetAgreesWithCli(name: string)
    ensures Handle(name).RunScenario? <==> Cli.CliSelect(name).Some?
    ensures Handle(name).RunScenario? ==> Cli.CliSelect(name) == Some(Handle(name).scenario)
    ensures Handle(name).ClearAndReemit? <==> name != "" && Cli.CliSelect(name).None?
    ensures name == "" ==> Handle(name).Ignore? && Cli.CliSelect(name).None?
  {
    assert WidgetChain == Cli.CliChain;
    if name == "" {
      Cli.CliCaseSensitive(name);
    }
  }

  /** The repeated "AnesthesiaMachine" branch of the widget is never taken. */
  lemma WidgetDuplicateUnreachable(name: string)
    ensures FirstMatch(WidgetChain, name) != Some(Cli.DuplicateBranch)
  {
    assert WidgetChain[Cli.DuplicateBranch].key == WidgetChain[1].key;
  }

  /** The widget: the scenario property and the record of what it did. */
  class PulseWidget {
    var scenario: string
    var events: seq<WidgetEvent>

    /** A new widget has an empty scenario; connecting the signal to the handler is
        what EmitScenarioChanged does. */
    constructor ()
      ensures scenario == "" && events == []
    {
      scenario := "";
      events := [];
    }

    /** `emit scenarioChanged()`: the connected handler runs at once. */
    method EmitScenarioChanged()
      modifies this
      decreases |scenario|, 1
      ensures scenario == HandledScenario(old(scenario))
      ensures events == old(events) + HandlerTrace(old(scenario))
    {
      OnScenarioChanged();
    }

    /** The handler: announce, then run the matching demo, ignore the empty name, or
        report, clear and re-emit. */
    method OnScenarioChanged()
      modifies this
      decreases |scenario|, 0
      ensures scenario == HandledScenario(old(scenario))
      ensures events == old(events) + HandlerTrace(old(scenario))
    {
      ghost var before := events;
      var name := scenario;
      events := events + [Announced(name)];
      var h := Handle(name);
      if h.RunScenario? {
        TraceOfKnown(name, h.scenario);
        events := events + [Ran(h.scenario)];
        assert events == before + HandlerTrace(name);
      } else if h.Ignore? {
        assert name == "";
        EmptyNameTrace();
        assert events == before + HandlerTrace(name);
        return;
      } else {
        UnknownNameReenters(name, before);
        events := events + [UnknownStateReported];
        scenario := "";
        EmitScenarioChanged();
      }
    }
  }
}
