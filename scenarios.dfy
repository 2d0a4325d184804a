/**
 The demo scenarios and the string-keyed else-if chain that both front ends
 (the command line in main.cpp and the widget in PulseWidget.cpp) use to pick one.

 A chain `if (name == n0) ... else if (name == n1) ...` is modelled as the list of
 its branches in source order; the branch taken is the first whose name equals the
 input exactly (C `strcmp(...) == 0` and `QString ==` both compare the whole string,
 case-sensitively).
 */
module Scenarios {

  datatype Option<T> = None | Some(value: T)

  /** One demo function per scenario (HowToAirwayObstruction, ..., HowToTensionPneumothorax). */
  datatype Scenario =
    | AirwayObstruction
    | AnesthesiaMachine
    | AsthmaAttack
    | BolusDrug
    | BrainInjury
    | Copd
    | Cpr
    | LobarPneumonia
    | PulmonaryFunctionTest
    | Smoke
    | TensionPneumothorax

  /** The name under which each scenario is selected. */
  function ScenarioName(s: Scenario): (name: string)
    ensures name != ""
  {
    match s
    case AirwayObstruction => "AirwayObstruction"
    case AnesthesiaMachine => "AnesthesiaMachine"
    case AsthmaAttack => "Asthma"
    case BolusDrug => "BolusDrug"
    case BrainInjury => "BrainInjury"
    case Copd => "COPD"
    case Cpr => "CPR"
    case LobarPneumonia => "LobarPneumonia"
    case PulmonaryFunctionTest => "PulmonaryFunctionTest"
    case Smoke => "Smoke"
    case TensionPneumothorax => "TensionPneumothorax"
  }

  /** Every name starts with an upper-case letter and ends with a non-space character. */
  lemma ScenarioNameShape(s: Scenario)
    ensures var n := ScenarioName(s); 'A' <= n[0] <= 'Z' && n[|n| - 1] != ' '
  {
  }

  /** One `else if (name == key) HowTo...();` branch. */
  datatype Branch = Branch(key: string, scenario: Scenario)

  /** The index of the branch an else-if chain takes for `name`: the first branch
      whose key equals `name`, or None when every comparison fails (see FirstMatchIsFirst). */
  function FirstMatch(chain: seq<Branch>, name: string): (r: Option<nat>)
    ensures r.Some? ==> r.value < |chain| && chain[r.value].key == name
  {
    if chain == [] then None
    else if chain[0].key == name then Some(0)
    else
      match FirstMatch(chain[1..], name)
      case None => None
      case Some(i) => Some(i + 1)
  }

  /** FirstMatch finds the first matching branch, and finds none only when no branch
      matches. */
  lemma {:induction false} FirstMatchIsFirst(chain: seq<Branch>, name: string)
    ensures FirstMatch(chain, name).Some? ==> forall j :: 0 <= j < FirstMatch(chain, name).value ==> chain[j].key != name
    ensures FirstMatch(chain, name).None? <==> forall j :: 0 <= j < |chain| ==> chain[j].key != name
  {
    if chain != [] && chain[0].key != name {
      FirstMatchIsFirst(chain[1..], name);
      assert forall j :: 1 <= j < |chain| ==> chain[j] == chain[1..][j - 1];
    }
  }

  /** A chain selects the scenario of the branch taken, if any. */
  function Select(chain: seq<Branch>, name: string): (r: Option<Scenario>)
    ensures r.Some? ==> exists j :: 0 <= j < |chain| && chain[j] == Branch(name, r.value)
  {
    match FirstMatch(chain, name)
    case None => None
    case Some(i) => Some(chain[i].scenario)
  }

  /** A chain selects nothing exactly when no branch's key equals the name. */
  lemma SelectNoneIffNoKey(chain: seq<Branch>, name: string)
    ensures Select(chain, name).None? <==> forall j :: 0 <= j < |chain| ==> chain[j].key != name
  {
    FirstMatchIsFirst(chain, name);
  }

  /** The eleven scenarios in the order both chains test them. */
  const AllScenarios: seq<Scenario> := [
    AirwayObstruction, AnesthesiaMachine, AsthmaAttack, BolusDrug, BrainInjury, Copd,
    Cpr, LobarPneumonia, PulmonaryFunctionTest, Smoke, TensionPneumothorax]

  /** Every scenario occurs in AllScenarios. */
  lemma AllScenariosComplete(s: Scenario)
    ensures s in AllScenarios
  {
  }

  /** The scenario names are pairwise distinct, so a name picks at most one scenario. */
  lemma {:induction false} ScenarioNameInjective(s: Scenario, t: Scenario)
    requires ScenarioName(s) == ScenarioName(t)
    ensures s == t
  {
    match s
    case AirwayObstruction =>
    case AnesthesiaMachine =>
    case AsthmaAttack =>
    case BolusDrug =>
    case BrainInjury =>
    case Copd =>
    case Cpr =>
    case LobarPneumonia =>
    case PulmonaryFunctionTest =>
    case Smoke =>
    case TensionPneumothorax =>
  }
}
