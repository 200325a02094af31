/** The four standard scenarios, and which of them the theorems about runs cover. */
module Scenarios {
  import opened SimFirstRound
  import opened SimFlags
  import opened SimFlips
  import opened SimModel
  import opened SimRuns
  import opened SimSafety
  import opened SimWindows
  import opened Simulation
  import opened Text
  import opened Verdicts
  import opened Wrappers

  datatype ScenarioName = HonestNetwork | Collusion15 | Collusion30 | HighBias

  const STANDARD: seq<ScenarioName> := [HonestNetwork, Collusion15, Collusion30, HighBias]

  function DefaultScenarioConfig(scenario: ScenarioName): Config {
    var base := Config(100, 11, 1000, 0.0, Unrecognised(""), 0.0, 0.0, "science");
    match scenario
    case HonestNetwork => base
    case Collusion15 => base.(collusionRate := 0.15, collusionVerdict := Supported)
    case Collusion30 => base.(collusionRate := 0.30, collusionVerdict := Supported)
    case HighBias => base.(biasRate := 0.40, biasStrength := 0.75)
  }

  function ScenarioConfig(scenario: ScenarioName, rounds: int): Config {
    DefaultScenarioConfig(scenario).(rounds := rounds)
  }

  lemma ScenariosAreValid(scenario: ScenarioName, rounds: int)
    ensures ValidConfig(ScenarioConfig(scenario, rounds)) <==> rounds >= 1
    ensures !Blank(ScenarioConfig(scenario, rounds).domain)
  {
    VisibleStartSurvives("science");
  }

  /** What the four scenarios set up: a hundred validators and sets of eleven, with 15 or 30
      colluders for SUPPORTED, or with 40 validators that turn against the truth with
      probability 3/4. */
  lemma ScenarioSeats(scenario: ScenarioName, rounds: int)
    ensures DefaultScenarioConfig(scenario).rounds == 1000
    ensures var c := ScenarioConfig(scenario, rounds);
            && c.rounds == rounds
            && c.validatorPoolSize == 100 && c.validatorSetSize == 11 && c.domain == "science"
            && ColluderCount(c) == (match scenario case Collusion15 => 15 case Collusion30 => 30 case _ => 0)
            && (ColluderCount(c) > 0 ==> c.collusionVerdict == Supported)
            && BiasedSeats(c) == BiasedCount(c) == (if scenario == HighBias then 40 else 0)
            && (BiasedCount(c) > 0 ==> 4.0 * c.biasStrength == 3.0)
  {
  }

  /** Of the standard scenarios only the honest network is safe: in the others the adversaries
      of the pool outnumber the eleven seats of a set. */
  lemma OnlyHonestNetworkIsSafe(scenario: ScenarioName, rounds: int)
    ensures Safe(ScenarioConfig(scenario, rounds)) <==> scenario == HonestNetwork
    ensures SafeBelow(ScenarioConfig(scenario, rounds), TOP_START) <==> scenario == HonestNetwork
  {
    ScenarioSeats(scenario, rounds);
  }

  /** And only there is the first round right for every stream. */
  lemma OnlyHonestNetworkIsRight(scenario: ScenarioName, rounds: int)
    requires rounds >= 1
    ensures ValidConfig(ScenarioConfig(scenario, rounds))
    ensures (forall s | Lawful(s) :: FirstRoundCorrect(ScenarioConfig(scenario, rounds), s))
            <==> scenario == HonestNetwork
  {
    hide FirstRoundCorrect, Lawful, SafeBelow, Blank, ScenarioConfig, ValidConfig;
    ScenariosAreValid(scenario, rounds);
    FirstRoundExactly(ScenarioConfig(scenario, rounds));
    OnlyHonestNetworkIsSafe(scenario, rounds);
  }

  /** In the two collusion scenarios a colluder can deviate by ten elevenths, and so can an
      honest validator among ten colluders. */
  lemma CollusionPeaks(scenario: ScenarioName, rounds: int)
    requires rounds >= 1 && scenario in {HonestNetwork, Collusion15, Collusion30}
    ensures ValidConfig(ScenarioConfig(scenario, rounds)) && BiasedSeats(ScenarioConfig(scenario, rounds)) == 0
    ensures var c := ScenarioConfig(scenario, rounds);
            if scenario == HonestNetwork then Peak(c, true) == 0.0 && Peak(c, false) == 0.0
            else Peak(c, true) >= 0.9 && Peak(c, false) >= 0.9
  {
    ScenariosAreValid(scenario, rounds);
    ScenarioSeats(scenario, rounds);
    hide ColluderCount, BiasedSeats;
  }

  /** In runs of more than six rounds only the honest network's report counts everybody who was
      flagged at least once, for every stream. */
  lemma OnlyHonestNetworkCountsFlags(scenario: ScenarioName, rounds: int)
    requires rounds >= 7
    ensures ValidConfig(ScenarioConfig(scenario, rounds))
    ensures (forall s | Lawful(s) :: CountsEveryFlag(ScenarioConfig(scenario, rounds), s))
            <==> scenario == HonestNetwork
  {
    ScenariosAreValid(scenario, rounds);
    HighBiasFlips(rounds);
    hide CountsEveryFlag, Lawful, Blank, Peak, ValidConfig, BiasedSeats, HasFlipper;
    if scenario != HighBias {
      CollusionPeaks(scenario, rounds);
    }
    LongRunsExactly(ScenarioConfig(scenario, rounds));
  }

  lemma HighBiasFlips(rounds: int)
    ensures var c := ScenarioConfig(HighBias, rounds);
            HasFlipper(c) && BiasedSeats(c) > 0
  {
    ScenarioSeats(HighBias, rounds);
  }

  /** The honest network for every stream: no wrong round, nobody flagged, every rate exact. */
  lemma HonestNetworkRun(rounds: int, s: Stream)
    requires rounds >= 1 && Lawful(s)
    ensures var r := RunSpec(ScenarioConfig(HonestNetwork, rounds), s);
            && r.Success?
            && r.value.correctRounds + r.value.indeterminateRounds == r.value.totalRounds == rounds
            && (r.value.indeterminateRounds < rounds ==> r.value.verdictAccuracy == 1.0)
            && r.value.meanParticipationRate == 1.0
            && r.value.biasDetectionRate == 0.0 && r.value.biasedValidatorsDetected == 0
  {
    hide RunSpec, Lawful, Blank, Safe, ColluderCount, BiasedSeats;
    ScenariosAreValid(HonestNetwork, rounds);
    ScenarioSeats(HonestNetwork, rounds);
    HonestRun(ScenarioConfig(HonestNetwork, rounds), s);
    RunSucceedsExactly(ScenarioConfig(HonestNetwork, rounds), s);
  }

  /** Runs the four scenarios in sequence, each from the start of the stream. */
  method RunScenarios(rounds: int, stream: Stream) returns (r: Result<seq<RunReport>, SimError>)
    requires Lawful(stream)
    ensures r.Success? <==> rounds >= 1
    ensures r.Failure? ==> r.error == InvalidConfig
    ensures r.Success? ==> |r.value| == |STANDARD|
    ensures r.Success? ==> forall i | 0 <= i < |STANDARD| ::
              && RunSpec(ScenarioConfig(STANDARD[i], rounds), stream) == Success(r.value[i].View())
              && ReportFinal(ScenarioConfig(STANDARD[i], rounds), r.value[i].View())
  {
    hide *;
    FourScenarios();
    var reports: seq<RunReport> := [];
    for i := 0 to |STANDARD|
      invariant |reports| == i && (i > 0 ==> rounds >= 1)
      invariant forall j | 0 <= j < i ::
                  && RunSpec(ScenarioConfig(STANDARD[j], rounds), stream) == Success(reports[j].View())
                  && ReportFinal(ScenarioConfig(STANDARD[j], rounds), reports[j].View())
    {
      ScenariosAreValid(STANDARD[i], rounds);
      InvalidIsRefused(ScenarioConfig(STANDARD[i], rounds), stream);
      var report := Run(ScenarioConfig(STANDARD[i], rounds), stream);
      if report.Failure? {
        return Failure(report.error);
      }
      reports := reports + [report.value];
    }
    r := Success(reports);
  }

  lemma FourScenarios()
    ensures |STANDARD| == 4
  {
  }

  lemma InvalidIsRefused(c: Config, s: Stream)
    requires Lawful(s)
    ensures !ValidConfig(c) ==> RunSpec(c, s) == Failure(InvalidConfig)
  {
  }
}
