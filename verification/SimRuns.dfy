/** Whole runs of the simulation, for every valid configuration and every stream of draws
    and permutations. */
module SimRuns {
  import opened Bias
  import opened BiasLaws
  import opened Consensus
  import opened Reals
  import opened Reputation
  import opened SimModel
  import opened SimQuiet
  import opened SimRound
  import opened SimSafety
  import opened Sums
  import opened Text
  import opened Verdicts
  import opened Wrappers

  // ----- the report while rounds are added -----

  /** Each round is counted once under its verdict. */
  ghost predicate ReportOk(r: Report, n: nat) {
    var d := r.verdictDistribution;
    && r.totalRounds == n
    && (forall v | v in d :: v in CANDIDATES)
    && CountOf(d, Supported) + CountOf(d, Unsupported) + CountOf(d, Misleading) + CountOf(d, Indeterminate) == n
    && CountOf(d, Indeterminate) == r.indeterminateRounds
    && r.correctRounds + r.indeterminateRounds <= n
    && r.meanParticipationRate == n as real
    && 0.0 <= r.biasDetectionRate <= n as real
    && r.verdictAccuracy == r.indeterminateRate == r.reputationConvergence == 0.0
  }

  lemma AccumulateKeepsReport(r: Report, result: RoundResult, n: nat)
    requires ReportOk(r, n) && result.consensusVerdict in CANDIDATES && result.participationRate == 1.0
    ensures ReportOk(Accumulate(r, result), n + 1)
  {
  }

  // ----- every run -----

  /** The state and the report after n rounds. */
  function StateAfter(c: Config, s: Stream, n: nat): State
    requires ValidConfig(c) && Lawful(s) && RunRounds(c, s, n).Success?
  {
    RunRounds(c, s, n).value.0
  }

  function ReportAfter(c: Config, s: Stream, n: nat): Report
    requires ValidConfig(c) && Lawful(s) && RunRounds(c, s, n).Success?
  {
    RunRounds(c, s, n).value.1
  }

  lemma {:induction false} EveryRunProceeds(c: Config, s: Stream, n: nat)
    requires ValidConfig(c) && !Blank(c.domain) && Lawful(s)
    ensures RunRounds(c, s, n).Success?
    ensures PoolOk(c, StateAfter(c, s, n).pool) && Playable(c, s, StateAfter(c, s, n))
    ensures ReportOk(ReportAfter(c, s, n), n)
  {
    hide PoolOk, SimulateRound, Blank, Accumulate, BuildPool, AllEvolved, ReportOk, Decide, VotesOf;
    if n == 0 {
      InitialPoolOk(c, s);
      EmptyReportOk();
    } else {
      EveryRunProceeds(c, s, n - 1);
      RoundSucceeds(c, s, StateAfter(c, s, n - 1), n - 1);
      AccumulateKeepsReport(ReportAfter(c, s, n - 1),
        SimulateRound(c, s, StateAfter(c, s, n - 1), n - 1).value.1, n - 1);
    }
    PoolPlays(c, s, StateAfter(c, s, n));
  }

  lemma EmptyReportOk()
    ensures ReportOk(EMPTY_REPORT, 0)
  {
  }

  /** Round n as it happens in the run. */
  function RoundOf(c: Config, s: Stream, n: nat): Result<(State, RoundResult), SimError>
    requires ValidConfig(c) && Lawful(s) && RunRounds(c, s, n).Success? && Playable(c, s, StateAfter(c, s, n))
  {
    SimulateRound(c, s, StateAfter(c, s, n), n)
  }

  /** In every run, whoever colludes or is biased, an honest validator's score never falls
      between two points of the run. */
  lemma {:induction false} HonestScoresNeverFall(c: Config, s: Stream, m: nat, n: nat)
    requires ValidConfig(c) && !Blank(c.domain) && Lawful(s) && m <= n
    ensures RunRounds(c, s, m).Success? && RunRounds(c, s, n).Success?
    ensures AllEvolved(c, StateAfter(c, s, m).pool, StateAfter(c, s, n).pool)
    decreases n
  {
    hide RunRounds, PoolOk, Blank, AllEvolved, ReportOk, Lawful, ValidConfig, Playable;
    EveryRunProceeds(c, s, m);
    EveryRunProceeds(c, s, n);
    if m < n {
      HonestScoresNeverFall(c, s, m, n - 1);
      OneRoundEvolves(c, s, n - 1);
      EvolvedTransitive(c, StateAfter(c, s, m).pool, StateAfter(c, s, n - 1).pool, StateAfter(c, s, n).pool);
    } else {
      EvolvedReflexive(c, StateAfter(c, s, m).pool);
    }
  }

  lemma OneRoundEvolves(c: Config, s: Stream, n: nat)
    requires ValidConfig(c) && !Blank(c.domain) && Lawful(s)
    ensures RunRounds(c, s, n).Success? && RunRounds(c, s, n + 1).Success?
    ensures AllEvolved(c, StateAfter(c, s, n).pool, StateAfter(c, s, n + 1).pool)
  {
    hide SimulateRound, PoolOk, Blank, AllEvolved, ReportOk, Lawful, Playable, Accumulate, Decide, VotesOf;
    EveryRunProceeds(c, s, n);
    EveryRunProceeds(c, s, n + 1);
    RoundSucceeds(c, s, StateAfter(c, s, n), n);
  }

  lemma EvolvedReflexive(c: Config, pool: seq<SimValidator>)
    ensures AllEvolved(c, pool, pool)
  {
    hide DomainScore;
  }

  lemma EvolvedTransitive(c: Config, a: seq<SimValidator>, b: seq<SimValidator>, d: seq<SimValidator>)
    requires AllEvolved(c, a, b) && AllEvolved(c, b, d)
    ensures AllEvolved(c, a, d)
  {
    hide DomainScore;
    forall i | 0 <= i < |a| ensures Evolved(c, a[i], d[i]) {
      assert Evolved(c, a[i], b[i]) && Evolved(c, b[i], d[i]);
    }
  }

  // ----- the finished report -----

  ghost predicate ReportFinal(c: Config, r: Report) {
    var d := r.verdictDistribution;
    && r.totalRounds == c.rounds
    && (forall v | v in d :: v in CANDIDATES)
    && CountOf(d, Supported) + CountOf(d, Unsupported) + CountOf(d, Misleading) + CountOf(d, Indeterminate) == c.rounds
    && CountOf(d, Indeterminate) == r.indeterminateRounds
    && r.correctRounds + r.indeterminateRounds <= c.rounds
    && r.meanParticipationRate == 1.0
    && 0.0 <= r.verdictAccuracy <= 1.0
    && 0.0 <= r.indeterminateRate <= 1.0
    && 0.0 <= r.biasDetectionRate <= 1.0
    && Reputation.REPUTATION_FLOOR <= r.reputationConvergence <= 1.0
    && r.biasedValidatorsDetected <= c.validatorPoolSize
  }

  lemma RatioInUnit(x: real, n: nat)
    requires 0.0 <= x <= n as real && n > 0
    ensures 0.0 <= Ratio(x, n) <= 1.0
    ensures x == n as real ==> Ratio(x, n) == 1.0
    ensures x == 0.0 ==> Ratio(x, n) == 0.0
  {
    QuotientAtLeast(x, n as real, 0.0);
    QuotientAtMost(x, n as real, 1.0);
    QuotientAtLeast(x, n as real, 1.0);
    QuotientAtMost(x, n as real, 0.0);
  }

  lemma {:induction false} PoolScores(c: Config, pool: seq<SimValidator>)
    requires forall v | v in pool :: ValidatorOk(c, v)
    ensures 0.15 * |pool| as real <= Sum(ScoreIn(c.domain), pool) <= |pool| as real
  {
    hide ValidatorOk, DomainScore;
    if pool != [] {
      var m := |pool| - 1;
      PoolScores(c, pool[..m]);
      assert pool[m] in pool;
      ScoreInBand(c, pool[m]);
    }
  }

  lemma ScoreInBand(c: Config, v: SimValidator)
    requires ValidatorOk(c, v)
    ensures 0.15 <= DomainScore(v.record, c.domain) <= 1.0
  {
  }

  lemma Convergence(c: Config, pool: seq<SimValidator>)
    requires PoolOk(c, pool) && pool != []
    ensures 0.15 <= Ratio(Sum(ScoreIn(c.domain), pool), |pool|) <= 1.0
  {
    hide ValidatorOk, Cast;
    PoolScores(c, pool);
    QuotientAtLeast(Sum(ScoreIn(c.domain), pool), |pool| as real, 0.15);
    QuotientAtMost(Sum(ScoreIn(c.domain), pool), |pool| as real, 1.0);
  }

  lemma {:induction false} FlaggedAtMostAll(pool: seq<SimValidator>, windows: Windows, domain: string)
    ensures CountFlagged(pool, windows, domain) <= |pool|
  {
    hide Flagged;
    if pool != [] {
      FlaggedAtMostAll(pool[..|pool| - 1], windows, domain);
    }
  }

  lemma FinaliseReport(c: Config, r: Report, pool: seq<SimValidator>, windows: Windows)
    requires ValidConfig(c) && ReportOk(r, c.rounds) && PoolOk(c, pool)
    ensures ReportFinal(c, Finalise(r, pool, windows, c.domain))
  {
    hide Ratio, PoolOk, CountFlagged, Sum, CountOf, ScoreIn;
    var total, decided := r.totalRounds, r.totalRounds - r.indeterminateRounds;
    PoolIsNonEmpty(c, pool);
    RatioInUnit(r.meanParticipationRate, total);
    RatioInUnit(r.biasDetectionRate, total);
    RatioInUnit(r.indeterminateRounds as real, total);
    if decided > 0 {
      RatioInUnit(r.correctRounds as real, decided);
    }
    Convergence(c, pool);
    FlaggedAtMostAll(pool, windows, c.domain);
  }

  lemma PoolIsNonEmpty(c: Config, pool: seq<SimValidator>)
    ensures ValidConfig(c) && PoolOk(c, pool) ==> |pool| == c.validatorPoolSize > 0
  {
  }

  /** A run succeeds exactly when its configuration is valid and its domain is not blank, and
      then its report is consistent: every round is counted once under its verdict, everybody
      participates, and every rate is a rate. */
  lemma RunSucceedsExactly(c: Config, s: Stream)
    requires Lawful(s)
    ensures RunSpec(c, s).Success? <==> ValidConfig(c) && !Blank(c.domain)
    ensures RunSpec(c, s).Success? ==> ReportFinal(c, RunSpec(c, s).value)
  {
    hide RunRounds, Finalise, Blank, PoolOk, ReportOk, ReportFinal, Playable, Lawful;
    if ValidConfig(c) {
      if Blank(c.domain) {
        BlankDomainStops(c, s, c.rounds);
      } else {
        EveryRunProceeds(c, s, c.rounds);
        FinaliseReport(c, ReportAfter(c, s, c.rounds),
          StateAfter(c, s, c.rounds).pool, StateAfter(c, s, c.rounds).windows);
      }
    }
  }

  /** Exactly when a run fails, and how: with an invalid configuration, or, since a domain of blanks
      passes validation, with the first reputation update. */
  lemma FailsExactly(c: Config, s: Stream)
    requires Lawful(s)
    ensures RunSpec(c, s) == Failure(InvalidConfig) <==> !SpelledOut(c)
    ensures RunSpec(c, s) == Failure(ReputationFailed(Reputation.DomainEmpty)) <==> SpelledOut(c) && Blank(c.domain)
    ensures RunSpec(c, s).Success? <==> SpelledOut(c) && !Blank(c.domain)
  {
    hide RunRounds, Finalise, Lawful, ReportFinal, Blank;
    RunSucceedsExactly(c, s);
    if ValidConfig(c) && Blank(c.domain) {
      BlankDomainStops(c, s, c.rounds);
    }
  }

  /** The conditions on a configuration. */
  predicate SpelledOut(c: Config) {
    && 3 <= c.validatorSetSize <= c.validatorPoolSize
    && 11 <= c.validatorPoolSize
    && 1 <= c.rounds
    && 0.0 <= c.collusionRate <= 1.0
    && 0.0 <= c.biasRate <= 1.0
    && 0.0 <= c.biasStrength <= 1.0
    && c.domain != ""
    && (c.collusionRate > 0.0 ==> c.collusionVerdict in {Supported, Unsupported, Misleading, Indeterminate})
  }

  lemma {:induction false} BlankDomainStops(c: Config, s: Stream, n: nat)
    requires ValidConfig(c) && Blank(c.domain) && Lawful(s) && n > 0
    ensures RunRounds(c, s, n) == Failure(ReputationFailed(Reputation.DomainEmpty))
  {
    hide SimulateRound, Blank, Accumulate, Lawful, ValidConfig, InitialState;
    if n > 1 {
      BlankDomainStops(c, s, n - 1);
    } else {
      BlankFirstRound(c, s);
      assert RunRounds(c, s, 0) == Success((InitialState(c, s), EMPTY_REPORT));
    }
  }

  // ----- safe configurations -----

  /** In a safe configuration every round of every run ends with the truth. */
  lemma SafeEveryRound(c: Config, s: Stream, n: nat)
    requires ValidConfig(c) && !Blank(c.domain) && Lawful(s) && Safe(c)
    ensures RunRounds(c, s, n).Success? && Playable(c, s, StateAfter(c, s, n))
    ensures var r := RoundOf(c, s, n);
            r.Success? && r.value.1.correct && r.value.1.consensusVerdict == TruthOf(s, StateAfter(c, s, n))
  {
    hide PoolOk, ReportOk, SimulateRound, Safe, Playable, RunRounds, Lawful, ValidConfig;
    EveryRunProceeds(c, s, n);
    SafeRoundIsCorrect(c, s, StateAfter(c, s, n), n);
  }

  lemma {:induction false} SafeCounts(c: Config, s: Stream, n: nat)
    requires ValidConfig(c) && !Blank(c.domain) && Lawful(s) && Safe(c)
    ensures RunRounds(c, s, n).Success?
    ensures ReportAfter(c, s, n).correctRounds + ReportAfter(c, s, n).indeterminateRounds == n
  {
    hide PoolOk, ReportOk, SimulateRound, Safe, Playable, Lawful, ValidConfig, Blank;
    EveryRunProceeds(c, s, n);
    if n > 0 {
      SafeCounts(c, s, n - 1);
      SafeEveryRound(c, s, n - 1);
    }
  }

  /** The whole run: CorrectRounds + IndeterminateRounds = TotalRounds, so the accuracy is 1
      as soon as one round is decided. */
  lemma SafeRunIsAccurate(c: Config, s: Stream)
    requires ValidConfig(c) && !Blank(c.domain) && Lawful(s) && Safe(c)
    ensures var r := RunSpec(c, s);
            && r.Success?
            && r.value.correctRounds + r.value.indeterminateRounds == r.value.totalRounds == c.rounds
            && (r.value.indeterminateRounds < c.rounds ==> r.value.verdictAccuracy == 1.0)
  {
    hide RunRounds, Blank, PoolOk, ReportOk, Playable, Lawful, Safe, CountFlagged, Sum;
    EveryRunProceeds(c, s, c.rounds);
    SafeCounts(c, s, c.rounds);
    var r := ReportAfter(c, s, c.rounds);
    TotalIs(r, c.rounds);
    if r.correctRounds > 0 {
      RatioInUnit(r.correctRounds as real, r.correctRounds);
    }
  }

  lemma TotalIs(r: Report, n: nat)
    requires ReportOk(r, n)
    ensures r.totalRounds == n
  {
  }

  // ----- quiet runs -----

  /** After every number of rounds, no honest validator's coefficient exceeds the colluders'
      share of the set. */
  lemma {:induction false} QuietThroughout(c: Config, s: Stream, n: nat)
    requires ValidConfig(c) && !Blank(c.domain) && Lawful(s)
    requires BiasedSeats(c) == 0 && 10 * ColluderCount(c) < 3 * c.validatorSetSize
    ensures RunRounds(c, s, n).Success?
    ensures AllQuiet(c, StateAfter(c, s, n).windows)
    ensures ColluderCount(c) == 0 ==> ReportAfter(c, s, n).biasDetectionRate == 0.0
  {
    hide PoolOk, ReportOk, SimulateRound, Playable, Lawful, ValidConfig, Blank, AllQuiet, ColluderCount, BiasedSeats,
      BuildPool;
    EveryRunProceeds(c, s, n);
    if n == 0 {
      NothingIsQuiet(c);
    } else {
      QuietThroughout(c, s, n - 1);
      EveryRunProceeds(c, s, n - 1);
      RoundKeepsQuiet(c, s, StateAfter(c, s, n - 1), n - 1);
    }
  }

  lemma NothingIsQuiet(c: Config)
    ensures ValidConfig(c) ==> AllQuiet(c, map[])
  {
    hide Key, Tolerance, Deviation;
  }

  /** With c colluders, no biased validators, k > c and 0.06 (k - c) >= c, every run is accurate, and
      at its end the validators flagged for bias are colluders at most. */
  lemma CollusionRun(c: Config, s: Stream)
    requires ValidConfig(c) && !Blank(c.domain) && Lawful(s) && Safe(c) && BiasedSeats(c) == 0
    ensures var r := RunSpec(c, s);
            && r.Success?
            && r.value.correctRounds + r.value.indeterminateRounds == r.value.totalRounds
            && r.value.biasedValidatorsDetected <= ColluderCount(c)
    ensures forall n, i: nat | ColluderCount(c) <= i < c.validatorPoolSize ::
              HonestUnflagged(c, s, n, i)
  {
    hide RunRounds, Blank, PoolOk, ReportOk, Playable, Lawful, ColluderCount, BiasedSeats, AllQuiet, Sum,
      CountFlagged, Safe, Tolerance;
    SafeRunIsAccurate(c, s);
    SeatsAreNat(c);
    SafeIsBelowThreshold(c);
    ToleranceBelowThreshold(c);
    EveryRunProceeds(c, s, c.rounds);
    QuietThroughout(c, s, c.rounds);
    TotalIs(ReportAfter(c, s, c.rounds), c.rounds);
    var pool := StateAfter(c, s, c.rounds).pool;
    assert pool[..|pool|] == pool;
    OnlyColludersFlagged(c, pool, StateAfter(c, s, c.rounds).windows, |pool|);
    hide ValidConfig, BiasIn, HonestUnflagged;
    forall n, i: nat | ColluderCount(c) <= i < c.validatorPoolSize ensures HonestUnflagged(c, s, n, i) {
      UnflaggedThroughout(c, s, n, i);
    }
  }

  /** After n rounds the validator at this position is not flagged. */
  predicate HonestUnflagged(c: Config, s: Stream, n: nat, i: nat)
    requires ValidConfig(c) && Lawful(s)
  {
    && RunRounds(c, s, n).Success?
    && BiasIn(StateAfter(c, s, n).windows, ValidatorName(i), c.domain).coefficient <= Tolerance(c)
    && BiasIn(StateAfter(c, s, n).windows, ValidatorName(i), c.domain).coefficient < BIAS_MODERATE_THRESHOLD
  }

  lemma UnflaggedThroughout(c: Config, s: Stream, n: nat, i: nat)
    requires ValidConfig(c) && !Blank(c.domain) && Lawful(s) && BiasedSeats(c) == 0
    requires 10 * ColluderCount(c) < 3 * c.validatorSetSize && ColluderCount(c) <= i < c.validatorPoolSize
    ensures HonestUnflagged(c, s, n, i)
  {
    hide RunRounds, Blank, ColluderCount, BiasedSeats, Tolerance, BiasIn, QuietAt, ValidatorName, Lawful;
    SeatsAreNat(c);
    QuietThroughout(c, s, n);
    ToleranceBelowThreshold(c);
    QuietNotFlagged(c, StateAfter(c, s, n).windows, i);
  }

  lemma SafeIsBelowThreshold(c: Config)
    requires ValidConfig(c) && Safe(c) && BiasedSeats(c) == 0 && ColluderCount(c) >= 0
    ensures 10 * ColluderCount(c) < 3 * c.validatorSetSize
  {
    hide ColluderCount, BiasedSeats, BiasedCost;
    TimesCount(BiasedCost(c, 1.0), 0);
    TimesOne(ColluderCount(c) as real);
    hide Times;
  }

  // ----- honest runs -----

  lemma HonestIsSafe(c: Config)
    requires ValidConfig(c) && ColluderCount(c) == 0 && BiasedSeats(c) == 0
    ensures Safe(c)
  {
    hide ColluderCount, BiasedSeats, BiasedCost;
    TimesCount(BiasedCost(c, 1.0), 0);
    TimesOne(ColluderCount(c) as real);
    hide Times;
  }

  lemma CoefficientNonNegative(entries: seq<Observation>)
    ensures Coefficient(entries) >= 0.0
  {
    if |entries| >= MIN_OBSERVATIONS_FOR_BIAS {
      SumBoundsBelow(Deviation, entries);
      QuotientAtLeast(Sum(Deviation, entries), |entries| as real, 0.0);
    }
  }

  /** Without colluders and biased validators every run ends with
      CorrectRounds + IndeterminateRounds = TotalRounds and with nobody ever flagged. */
  lemma HonestRun(c: Config, s: Stream)
    requires ValidConfig(c) && !Blank(c.domain) && Lawful(s) && ColluderCount(c) == 0 && BiasedSeats(c) == 0
    ensures var r := RunSpec(c, s);
            && r.Success?
            && r.value.correctRounds + r.value.indeterminateRounds == r.value.totalRounds == c.rounds
            && (r.value.indeterminateRounds < c.rounds ==> r.value.verdictAccuracy == 1.0)
            && r.value.biasDetectionRate == 0.0
            && r.value.biasedValidatorsDetected == 0
  {
    hide Blank, PoolOk, ReportOk, Playable, Lawful, ColluderCount, BiasedSeats, AllQuiet, Sum, CountFlagged, Safe,
      RunRounds, HonestUnflagged;
    HonestIsSafe(c);
    SafeRunIsAccurate(c, s);
    CollusionRun(c, s);
    QuietThroughout(c, s, c.rounds);
    EveryRunProceeds(c, s, c.rounds);
    TotalIs(ReportAfter(c, s, c.rounds), c.rounds);
    RatioInUnit(0.0, c.rounds);
  }

  /** In such a run every validator's bias coefficient is 0 after every round. */
  lemma HonestCoefficientsStayZero(c: Config, s: Stream, n: nat, i: nat)
    requires ValidConfig(c) && !Blank(c.domain) && Lawful(s) && ColluderCount(c) == 0 && BiasedSeats(c) == 0
    requires i < c.validatorPoolSize
    ensures RunRounds(c, s, n).Success?
    ensures BiasIn(StateAfter(c, s, n).windows, ValidatorName(i), c.domain).coefficient == 0.0
  {
    hide RunRounds, Blank, ColluderCount, BiasedSeats, QuietAt, ValidatorName, Lawful, Coefficient, Key, TrimSpace,
      Normalize, ClassifyTier;
    QuietThroughout(c, s, n);
    var windows := StateAfter(c, s, n).windows;
    QuietNotFlagged(c, windows, i);
    QuotientAtMost(0.0, c.validatorSetSize as real, 0.0);
    CoefficientNonNegative(Held(windows, Key(ValidatorName(i), c.domain)));
  }

  /** And no validator's score falls between any two points of it. */
  lemma NoScoreFallsInHonestRun(c: Config, s: Stream, m: nat, n: nat, i: nat)
    requires ValidConfig(c) && !Blank(c.domain) && Lawful(s) && ColluderCount(c) == 0 && BiasedSeats(c) == 0
    requires m <= n && i < c.validatorPoolSize
    ensures RunRounds(c, s, m).Success? && RunRounds(c, s, n).Success?
    ensures DomainScore(StateAfter(c, s, m).pool[i].record, c.domain)
            <= DomainScore(StateAfter(c, s, n).pool[i].record, c.domain)
  {
    hide RunRounds, Blank, ColluderCount, BiasedSeats, Lawful, ReportOk, Playable, DomainScore, ValidatorOk,
      ValidConfig;
    EveryRunProceeds(c, s, m);
    HonestScoresNeverFall(c, s, m, n);
    var pool := StateAfter(c, s, m).pool;
    HonestSeat(c, i, pool[i]);
    assert Evolved(c, pool[i], StateAfter(c, s, n).pool[i]);
  }
}
