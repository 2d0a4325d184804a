/**
 The command-line front end (main.cpp): `argv[1]` is compared with `strcmp`
 against the scenario names in a fixed else-if order; the first exact match runs
 its demo, and when nothing matches a message is written to standard output.
 `main` has no return statement, so it returns 0 either way.
 */
module Cli {
  import opened Scenarios

  /** The branches of `main`, in source order; the last one repeats "AnesthesiaMachine". */
  const CliChain: seq<Branch> := [
    Branch("AirwayObstruction", AirwayObstruction),
    Branch("AnesthesiaMachine", AnesthesiaMachine),
    Branch("Asthma", AsthmaAttack),
    Branch("BolusDrug", BolusDrug),
    Branch("BrainInjury", BrainInjury),
    Branch("COPD", Copd),
    Branch("CPR", Cpr),
    Branch("LobarPneumonia", LobarPneumonia),
    Branch("PulmonaryFunctionTest", PulmonaryFunctionTest),
    Branch("Smoke", Smoke),
    Branch("TensionPneumothorax", TensionPneumothorax),
    Branch("AnesthesiaMachine", AnesthesiaMachine)]

  /** Index of the repeated "AnesthesiaMachine" branch. */
  const DuplicateBranch: nat := 11

  /** What `main` writes when no branch matches. */
  const UnknownStateMessage: string := "\nUNKNOWN STATE ENTERED \n Try again"

  /** The observable effect of one run of `main`: the demos it ran, in order,
      what it wrote to standard output, and its exit status. */
  datatype CliRun = CliRun(ran: seq<Scenario>, output: string, exitStatus: int)

  /** The scenario `main` picks for the argument `name`. */
  function CliSelect(name: string): (r: Option<Scenario>)
    ensures r.Some? ==> name == ScenarioName(r.value)
  {
    CliChainWellKeyed();
    Select(CliChain, name)
  }

  /** One run of `main`. `argv[1]` is read without checking `argc`, so the program
      needs at least one argument after the program name. */
  function RunCli(argv: seq<string>): (run: CliRun)
    requires |argv| >= 2
    ensures run.exitStatus == 0
    ensures |run.ran| <= 1
    ensures |run.ran| == 1 <==> run.output == ""
    ensures |run.ran| == 1 ==> argv[1] == ScenarioName(run.ran[0])
    ensures |run.ran| == 0 <==> run.output == UnknownStateMessage
  {
    match CliSelect(argv[1])
    case Some(s) =>
      CliChainKeysAreNames(argv[1], s);
      CliRun([s], "", 0)
    case None => CliRun([], UnknownStateMessage, 0)
  }

  /** Every branch of the chain is keyed with its own scenario's name. */
  lemma CliChainWellKeyed()
    ensures forall j :: 0 <= j < |CliChain| ==> CliChain[j].key == ScenarioName(CliChain[j].scenario)
  {
  }

  /** The first eleven branches test the eleven scenarios, each under its own name. */
  lemma CliChainCoversAll()
    ensures forall j :: 0 <= j < |AllScenarios| ==> CliChain[j] == Branch(ScenarioName(AllScenarios[j]), AllScenarios[j])
  {
  }

  /** A selected scenario is the one whose name was given. */
  lemma CliChainKeysAreNames(name: string, s: Scenario)
    requires CliSelect(name) == Some(s)
    ensures name == ScenarioName(s)
  {
    CliChainWellKeyed();
  }

  /** Each of the eleven names selects its own scenario. */
  lemma {:induction false} CliSelectsNamed(s: Scenario)
    ensures CliSelect(ScenarioName(s)) == Some(s)
  {
    var name := ScenarioName(s);
    CliChainWellKeyed();
    CliChainCoversAll();
    AllScenariosComplete(s);
    var j :| 0 <= j < |AllScenarios| && AllScenarios[j] == s;
    FirstMatchIsFirst(CliChain, name);
    var r := FirstMatch(CliChain, name);
    ScenarioNameInjective(s, CliChain[r.value].scenario);
  }

  /** Exact, case-sensitive matching: `main` runs a demo exactly when the argument
      is one of the eleven names, character for character. */
  lemma CliSelectIffKnown(name: string)
    ensures CliSelect(name).Some? <==> exists s :: name == ScenarioName(s)
  {
    if CliSelect(name).Some? {
      CliChainKeysAreNames(name, CliSelect(name).value);
    } else {
      forall s ensures name != ScenarioName(s) {
        CliSelectsNamed(s);
      }
    }
  }

  /** The first match wins, so the repeated "AnesthesiaMachine" branch is never taken. */
  lemma DuplicateBranchUnreachable(name: string)
    ensures FirstMatch(CliChain, name) != Some(DuplicateBranch)
  {
    assert CliChain[DuplicateBranch].key == CliChain[1].key;
  }

  /** Matching is case-sensitive and exact: a name starting with a lower-case letter
      ("cpr"), a name with a trailing space ("CPR "), or the empty name selects nothing. */
  lemma CliCaseSensitive(name: string)
    requires name == [] || 'a' <= name[0] <= 'z' || name[|name| - 1] == ' '
    ensures CliSelect(name) == None
  {
    var r := CliSelect(name);
    if r.Some? {
      CliChainKeysAreNames(name, r.value);
      ScenarioNameShape(r.value);
    }
  }

  /** Any other argument runs nothing and prints the message. */
  lemma UnknownArgumentPrints(argv: seq<string>)
    requires |argv| >= 2
    requires forall s :: argv[1] != ScenarioName(s)
    ensures RunCli(argv) == CliRun([], UnknownStateMessage, 0)
  {
    CliSelectIffKnown(argv[1]);
  }

  /** A known argument runs its demo once and prints nothing. */
  lemma KnownArgumentRuns(argv: seq<string>, s: Scenario)
    requires |argv| >= 2 && argv[1] == ScenarioName(s)
    ensures RunCli(argv) == CliRun([s], "", 0)
  {
    CliSelectsNamed(s);
  }
}
