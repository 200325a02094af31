/** Exactly which configurations get every round of every run right. */
module SimAllRounds {
  import opened Consensus
  import opened ConsensusLaws
  import opened Reals
  import opened Reputation
  import opened ReputationLaws
  import opened SimFirstRound
  import opened SimModel
  import opened SimPool
  import opened SimRound
  import opened SimRuns
  import opened SimSafety
  import opened SimWorst
  import opened Sums
  import opened Text
  import opened Verdicts
  import opened Wrappers

  /** How many of the honest validators that one round selects have to be selected again by
      another one, if both select all adversaries. */
  function Overlap(c: Config): nat
    requires ValidConfig(c)
  {
    var again := 2 * c.validatorSetSize - Adversaries(c) - c.validatorPoolSize;
    if again < 0 then 0 else again
  }

  /** Safe against starting reputations, and, once adversaries may have risen to 1, safe with
      the help of those who must have risen with them. */
  predicate AlwaysSafe(c: Config)
    requires ValidConfig(c)
  {
    && SafeBelow(c, TOP_START)
    && HONEST_WEIGHT * (c.validatorSetSize - Adversaries(c)) as real + RAISED_WEIGHT * Overlap(c) as real
       >= AdversaryWeight(c, 1.0)
  }

  // ----- enough: a round raises the honest validators it selects -----

  lemma HonestPosition(c: Config, p: nat, v: SimValidator)
    requires ValidConfig(c) && Cast(c, p, v) && p >= Adversaries(c)
    ensures Honest(v)
  {
    hide ColluderCount, BiasedCount, ValidatorName;
  }

  lemma CorrectVoteRaises(score: real, outcome: VoteOutcome)
    requires InBand(score) && outcome.participated && !outcome.wasLate && outcome.wasCorrect
    ensures Clamp(score + ComputeDelta(outcome).0, REPUTATION_FLOOR, REPUTATION_CEILING) >= RAISED_SCORE
  {
  }

  lemma HonestUpdateRaises(c: Config, v: SimValidator, vote: Vote, truth: Verdict)
    requires ValidatorOk(c, v) && !Blank(c.domain) && InUnit(vote.confidence) && vote.verdict == truth
    ensures var r := ApplyPostFinalizationUpdate(v.record, OutcomeOf(c, v, vote, truth));
            r.Success? && DomainScore(r.value.0, c.domain) >= RAISED_SCORE
  {
    hide ApplyPostFinalizationUpdate, DomainScore, Sound, Blank, ComputeDelta, Clamp;
    var outcome := OutcomeOf(c, v, vote, truth);
    UpdateIsRescore(v.record, outcome, c.domain);
    CorrectVoteRaises(DomainScore(v.record, c.domain), outcome);
  }

  /** The honest validators among these picks are up in the pool afterwards. */
  ghost predicate PicksRaised(c: Config, pool: seq<SimValidator>, picks: seq<nat>, after: seq<SimValidator>) {
    && |after| == |pool|
    && forall i | 0 <= i < |picks| :: picks[i] < |pool|
         && (Honest(pool[picks[i]]) ==> DomainScore(after[picks[i]].record, c.domain) >= RAISED_SCORE)
  }

  lemma {:induction false} UpdatesRaise(c: Config, pool: seq<SimValidator>, picks: seq<nat>, votes: seq<Vote>,
      truth: Verdict)
    requires PoolOk(c, pool) && !Blank(c.domain)
    requires |picks| == |votes| && forall i | 0 <= i < |picks| :: picks[i] < |pool|
    requires forall i | 0 <= i < |picks| ::
               VerdictFits(c, pool[picks[i]], truth, votes[i].verdict) && InUnit(votes[i].confidence)
    ensures var r := UpdateRecords(c, pool, picks, votes, truth);
            r.Success? && PicksRaised(c, pool, picks, r.value)
  {
    hide ValidatorOk, ApplyPostFinalizationUpdate, DomainScore, OutcomeOf, PoolOk, VerdictFits, Evolved, PicksRaised,
      Honest;
    UpdatesSucceed(c, pool, picks, votes, truth);
    if picks == [] {
      NothingRaised(c, pool);
    } else {
      var m := |picks| - 1;
      UpdatesRaise(c, pool, picks[..m], votes[..m], truth);
      UpdatesSucceed(c, pool, picks[..m], votes[..m], truth);
      var rest := UpdateRecords(c, pool, picks[..m], votes[..m], truth).value;
      var v := rest[picks[m]];
      var r := ApplyPostFinalizationUpdate(v.record, OutcomeOf(c, v, votes[m], truth));
      PickRaises(c, pool[picks[m]], v, votes[m], truth) by { PoolHas(c, rest, picks[m]); }
      OneMoreRaised(c, pool, picks, rest, v.(record := r.value.0));
    }
  }

  lemma NothingRaised(c: Config, pool: seq<SimValidator>)
    ensures PicksRaised(c, pool, [], pool)
  {
  }

  lemma PoolHas(c: Config, pool: seq<SimValidator>, p: nat)
    requires PoolOk(c, pool) && p < |pool|
    ensures ValidatorOk(c, pool[p])
  {
  }

  lemma PickRaises(c: Config, before: SimValidator, v: SimValidator, vote: Vote, truth: Verdict)
    requires ValidatorOk(c, v) && !Blank(c.domain) && InUnit(vote.confidence) && Evolved(c, before, v)
    requires VerdictFits(c, before, truth, vote.verdict)
    ensures var r := ApplyPostFinalizationUpdate(v.record, OutcomeOf(c, v, vote, truth));
            r.Success? && (Honest(before) ==> DomainScore(r.value.0, c.domain) >= RAISED_SCORE)
  {
    hide ApplyPostFinalizationUpdate, DomainScore, ValidatorOk, OutcomeOf, Blank;
    OneUpdate(c, v, vote, truth);
    if Honest(before) {
      HonestUpdateRaises(c, v, vote, truth);
    }
  }

  lemma OneMoreRaised(c: Config, pool: seq<SimValidator>, picks: seq<nat>, rest: seq<SimValidator>, v: SimValidator)
    requires picks != [] && picks[|picks| - 1] < |pool| && PicksRaised(c, pool, picks[..|picks| - 1], rest)
    requires Honest(pool[picks[|picks| - 1]]) ==> DomainScore(v.record, c.domain) >= RAISED_SCORE
    ensures PicksRaised(c, pool, picks, rest[picks[|picks| - 1] := v])
  {
    hide DomainScore, Honest;
    var m := |picks| - 1;
    forall i | 0 <= i < m ensures picks[..m][i] == picks[i] {
    }
  }

  /** Honest positions in a selection. */
  function HonestPicks(c: Config, picks: seq<nat>): set<nat>
    requires ValidConfig(c)
  {
    set p | p in picks && p >= Adversaries(c)
  }

  ghost predicate Raised(c: Config, pool: seq<SimValidator>, raised: set<nat>) {
    forall p | p in raised :: p < |pool| && DomainScore(pool[p].record, c.domain) >= RAISED_SCORE
  }

  lemma RoundRaises(c: Config, s: Stream, st: State, round: nat)
    requires ValidConfig(c) && Playable(c, s, st) && PoolOk(c, st.pool) && !Blank(c.domain)
    ensures var r := SimulateRound(c, s, st, round);
            r.Success? && Raised(c, r.value.0.pool, HonestPicks(c, PicksOf(c, s, st)))
  {
    hide AllValid, PicksOf, VotesOf, Playable, Fits, VerdictFits, UpdateRecords, Blank, SimulateRound, AllEvolved,
      Cast, Decide, ValidatorOk, ValidConfig, Adversaries, DomainScore, TruthOf;
    SetIsPositive(c);
    RoundSucceeds(c, s, st, round);
    RoundVotes(c, s, st);
    RoundState(c, s, st, round);
    var picks, votes := PicksOf(c, s, st), VotesOf(c, s, st);
    forall i | 0 <= i < |picks|
      ensures VerdictFits(c, st.pool[picks[i]], TruthOf(s, st), votes[i].verdict) && InUnit(votes[i].confidence)
    {
      assert SelectedOf(c, s, st)[i] == st.pool[picks[i]];
      VoteSuits(c, st.pool[picks[i]], TruthOf(s, st), votes[i]);
    }
    UpdatesRaise(c, st.pool, picks, votes, TruthOf(s, st));
    hide Honest;
    var pool' := UpdatedPool(c, s, st).value;
    forall p | p in HonestPicks(c, picks)
      ensures p < |pool'| && DomainScore(pool'[p].record, c.domain) >= RAISED_SCORE
    {
      var i :| 0 <= i < |picks| && picks[i] == p;
      HonestPosition(c, p, st.pool[p]);
    }
  }

  lemma SetIsPositive(c: Config)
    ensures ValidConfig(c) ==> c.validatorSetSize > 0
  {
  }

  /** The state that a round leaves. */
  lemma RoundState(c: Config, s: Stream, st: State, round: nat)
    requires Playable(c, s, st) && SimulateRound(c, s, st, round).Success?
    ensures UpdatedPool(c, s, st).Success?
    ensures var after := SimulateRound(c, s, st, round).value.0;
            && after.pool == UpdatedPool(c, s, st).value
            && after.floatsUsed == VotesAndNext(c, s, st).1
            && after.permsUsed == st.permsUsed + 1
  {
    hide UpdatedPool, VotesAndNext, Decide, RecordBias, PopulationAverage, PicksOf, VotesOf, Playable;
  }

  /** Whoever rose in the first round of a run is still up after any later number of rounds. */
  lemma RaisedForever(c: Config, s: Stream, n: nat)
    requires ValidConfig(c) && !Blank(c.domain) && Lawful(s) && n >= 1
    ensures Playable(c, s, InitialState(c, s)) && RunRounds(c, s, n).Success?
    ensures Raised(c, StateAfter(c, s, n).pool, HonestPicks(c, PicksOf(c, s, InitialState(c, s))))
  {
    hide PoolOk, Blank, Lawful, Playable, ReportOk, SimulateRound, AllEvolved, ValidConfig, RunRounds, PicksOf,
      DomainScore, InitialState, HonestPicks;
    EveryRunProceeds(c, s, 0);
    NoRoundsYet(c, s);
    var st := StateAfter(c, s, 0);
    RoundRaises(c, s, st, 0);
    OneRoundRun(c, s);
    HonestScoresNeverFall(c, s, 1, n);
    HonestPicksAre(c, PicksOf(c, s, st));
    EveryRunProceeds(c, s, 1);
    EveryRunProceeds(c, s, n);
    var one, later := StateAfter(c, s, 1).pool, StateAfter(c, s, n).pool;
    forall p | p in HonestPicks(c, PicksOf(c, s, st))
      ensures p < |later| && DomainScore(later[p].record, c.domain) >= RAISED_SCORE
    {
      StillRaised(c, one, later, p);
    }
  }

  lemma StillRaised(c: Config, one: seq<SimValidator>, later: seq<SimValidator>, p: nat)
    requires ValidConfig(c) && PoolOk(c, one) && AllEvolved(c, one, later) && p < |one| && p >= Adversaries(c)
    requires DomainScore(one[p].record, c.domain) >= RAISED_SCORE
    ensures p < |later| && DomainScore(later[p].record, c.domain) >= RAISED_SCORE
  {
    hide DomainScore, ValidatorOk, Cast;
    HonestPosition(c, p, one[p]);
    assert Evolved(c, one[p], later[p]);
  }

  lemma NoRoundsYet(c: Config, s: Stream)
    requires ValidConfig(c) && Lawful(s)
    ensures RunRounds(c, s, 0) == Success((InitialState(c, s), EMPTY_REPORT))
  {
  }

  lemma OneRoundRun(c: Config, s: Stream)
    requires ValidConfig(c) && Lawful(s) && Playable(c, s, InitialState(c, s))
    requires SimulateRound(c, s, InitialState(c, s), 0).Success?
    ensures RunRounds(c, s, 1).Success?
    ensures StateAfter(c, s, 1) == SimulateRound(c, s, InitialState(c, s), 0).value.0
  {
    NoRoundsYet(c, s);
    hide SimulateRound, InitialState, Accumulate, Lawful, ValidConfig, Playable;
  }

  // ----- enough: the margin with raised validators -----

  lemma RaisedVote(c: Config, p: nat, v: SimValidator, truth: Verdict, vote: Vote)
    requires ValidConfig(c) && ValidatorOk(c, v) && Cast(c, p, v) && Fits(c, v, truth, vote) && truth in CANDIDATES
    requires p >= Adversaries(c) && DomainScore(v.record, c.domain) >= RAISED_SCORE
    ensures MarginFor(truth)(vote) >= HONEST_WEIGHT + RAISED_WEIGHT
  {
    hide Sound, DomainScore, AdjustedWeight, Blank, ColluderCount, BiasedCount, ValidatorName;
    HonestPosition(c, p, v);
    RaisedWeight(vote);
  }

  lemma RaisedWeight(vote: Vote)
    requires 0.4 <= vote.confidence && RAISED_SCORE <= vote.domainReputation && vote.biasCoefficient == 0.0
    ensures AdjustedWeight(vote) >= HONEST_WEIGHT + RAISED_WEIGHT
  {
    ProductMonotone(0.4, RAISED_SCORE, 1.0, vote.confidence, vote.domainReputation, 1.0);
  }

  lemma {:induction false} MarginMeetsRaised(c: Config, pool: seq<SimValidator>, picks: seq<nat>,
      votes: seq<Vote>, truth: Verdict, raised: set<nat>)
    requires ValidConfig(c) && PoolOk(c, pool) && ScoresAtMost(c, pool, 1.0) && truth in CANDIDATES
    requires Raised(c, pool, raised) && forall p | p in raised :: p >= Adversaries(c)
    requires |picks| == |votes| && forall i | 0 <= i < |picks| :: picks[i] < |pool|
    requires forall i | 0 <= i < |picks| :: Fits(c, pool[picks[i]], truth, votes[i])
    ensures var sum := Sum(BudgetIn(c, 1.0, BiasedCost(c, 1.0)), picks) + RAISED_WEIGHT * Hits(picks, raised) as real;
            && Margin(votes, truth) >= sum
            && ((exists i | 0 <= i < |picks| :: BeatsBudget(c, picks[i])) ==> Margin(votes, truth) > sum)
  {
    hide ValidatorOk, Cast, Fits, BudgetAt, AdjustedWeight, BiasedCost, BeatsBudget, ValidConfig, DomainScore,
      Adversaries;
    if picks != [] {
      var m := |picks| - 1;
      var p := picks[m];
      MarginMeetsRaised(c, pool, picks[..m], votes[..m], truth, raised);
      StrengthIs(c);
      VoteMeetsBudget(c, p, pool[p], truth, votes[m], 1.0);
      if p in raised {
        RaisedVote(c, p, pool[p], truth, votes[m]);
        HonestBudget(c, p);
      }
      if i :| 0 <= i < m && BeatsBudget(c, picks[i]) {
        assert BeatsBudget(c, picks[..m][i]);
      }
    }
  }

  lemma StrengthIs(c: Config)
    ensures ValidConfig(c) ==> 0.0 <= c.biasStrength <= 1.0
  {
  }

  lemma HonestBudget(c: Config, p: nat)
    requires ValidConfig(c) && p >= Adversaries(c)
    ensures BudgetAt(c, 1.0, BiasedCost(c, 1.0), p) == HONEST_WEIGHT && !BeatsBudget(c, p)
  {
    hide ColluderCount, BiasedSeats, ValidConfig, BiasedCost;
  }

  // ----- enough: two selections overlap -----

  function Elements(picks: seq<nat>): set<nat> {
    set p | p in picks
  }

  lemma {:induction false} DistinctElements(picks: seq<nat>)
    requires forall i, j | 0 <= i < j < |picks| :: picks[i] != picks[j]
    ensures |Elements(picks)| == |picks|
  {
    if picks != [] {
      var m := |picks| - 1;
      DistinctElements(picks[..m]);
      assert picks[m] !in picks[..m];
      assert Elements(picks) == Elements(picks[..m]) + {picks[m]};
    }
  }

  /** A selection of k holds at least k less the adversaries honest positions. */
  lemma HonestPicksMany(c: Config, picks: seq<nat>)
    requires ValidConfig(c) && forall i, j | 0 <= i < j < |picks| :: picks[i] != picks[j]
    ensures |HonestPicks(c, picks)| >= |picks| - Adversaries(c)
  {
    hide ColluderCount, BiasedSeats, ValidConfig;
    DistinctElements(picks);
    SeatsSize(0, Adversaries(c));
    assert HonestPicks(c, picks) == Elements(picks) - Seats(0, Adversaries(c));
    SizeOfDifference(Elements(picks), Seats(0, Adversaries(c)));
  }

  lemma SizeOfDifference(a: set<nat>, b: set<nat>)
    ensures |a - b| >= |a| - |b|
  {
    assert a == (a - b) + (a * b);
    assert |a * b| <= |b| by {
      assert b == (b - a) + (a * b);
    }
  }

  /** Two selections from one pool share at least the overlap, whatever they select. */
  lemma SelectionsOverlap(c: Config, first: seq<nat>, later: seq<nat>)
    requires ValidConfig(c) && |first| == |later| == c.validatorSetSize > Adversaries(c)
    requires forall i, j | 0 <= i < j < |first| :: first[i] != first[j]
    requires forall i, j | 0 <= i < j < |later| :: later[i] != later[j]
    requires forall p | p in first || p in later :: p < c.validatorPoolSize
    ensures Hits(later, HonestPicks(c, first)) >= Overlap(c)
  {
    hide ColluderCount, BiasedSeats, Hits, Seats;
    var a, n, raised := Adversaries(c), c.validatorPoolSize, HonestPicks(c, first);
    var adversaries, honest := Seats(0, a), Seats(a, n);
    HonestPicksMany(c, first);
    SeatsSize(0, a);
    SeatsSize(a, n);
    HitsSplit(later, adversaries, honest);
    AllHit(later, adversaries + honest);
    HitsAtMostSeats(later, adversaries);
    var rest := honest - raised;
    assert honest == raised + rest;
    HitsSplit(later, raised, rest);
    HitsAtMostSeats(later, rest);
  }

  lemma RaisedSelection(c: Config, picks: seq<nat>, raised: set<nat>)
    requires ValidConfig(c) && AlwaysSafe(c) && |picks| == c.validatorSetSize && Hits(picks, raised) >= Overlap(c)
    requires forall i, j | 0 <= i < j < |picks| :: picks[i] != picks[j]
    ensures var sum := Sum(BudgetIn(c, 1.0, BiasedCost(c, 1.0)), picks) + RAISED_WEIGHT * Hits(picks, raised) as real;
            sum >= 0.0 && (sum > 0.0 || exists i | 0 <= i < |picks| :: BeatsBudget(c, picks[i]))
  {
    hide ColluderCount, BiasedSeats, Hits, Seats, Times, BiasedCost, BudgetAt, ValidConfig, Balance, Sum, Overlap;
    SeatsAreNat(c);
    BiasedCostSign(c, 1.0);
    var C, B, v := ColluderCount(c), BiasedSeats(c), BiasedCost(c, 1.0);
    SeatsSize(0, C);
    SeatsSize(C, C + B);
    HitsAtMostSeats(picks, ColluderSeatSet(c));
    HitsAtMostSeats(picks, BiasedSeatSet(c));
    var x, y := Hits(picks, ColluderSeatSet(c)), Hits(picks, BiasedSeatSet(c));
    BudgetByHits(c, 1.0, v, picks);
    BalanceNonNegative(|picks|, 1.0, v, C, B, x, y, RAISED_WEIGHT * Overlap(c) as real);
    BalanceIs(|picks|, 1.0, v, x, y);
    HitIsPick(picks, ColluderSeatSet(c));
    HitIsPick(picks, BiasedSeatSet(c));
  }

  // ----- enough -----

  ghost predicate RoundRight(c: Config, s: Stream, n: nat)
    requires ValidConfig(c) && Lawful(s)
  {
    && RunRounds(c, s, n).Success?
    && Playable(c, s, StateAfter(c, s, n))
    && RoundOf(c, s, n).Success?
    && RoundOf(c, s, n).value.1.correct
  }

  lemma PicksAreDistinct(c: Config, s: Stream, st: State)
    requires Playable(c, s, st)
    ensures var picks := PicksOf(c, s, st);
            && |picks| == c.validatorSetSize
            && (forall i, j | 0 <= i < j < |picks| :: picks[i] != picks[j])
            && forall p | p in picks :: p < |st.pool|
  {
  }

  lemma LaterRoundRight(c: Config, s: Stream, n: nat)
    requires ValidConfig(c) && !Blank(c.domain) && Lawful(s) && AlwaysSafe(c) && n >= 1
    ensures RoundRight(c, s, n)
  {
    hide PoolOk, Blank, Lawful, Playable, ReportOk, SimulateRound, ValidConfig, RunRounds, PicksOf, VotesOf,
      AlwaysSafe, Overlap, InitialState, HonestPicks, Raised, ScoresAtMost, AllFit, AllValid, Margin, BudgetAt,
      BeatsBudget, Sum, Hits, Decide, BiasedCost, Fits;
    EveryRunProceeds(c, s, n);
    RaisedForever(c, s, n);
    var first, st := InitialState(c, s), StateAfter(c, s, n);
    var picks, raised := PicksOf(c, s, st), HonestPicks(c, PicksOf(c, s, first));
    PicksAreDistinct(c, s, first);
    PicksAreDistinct(c, s, st);
    PoolSizes(c, s, st);
    HonestSeatsRemain(c);
    SelectionsOverlap(c, PicksOf(c, s, first), picks);
    HonestPicksAre(c, PicksOf(c, s, first));
    RoundVotes(c, s, st);
    FitsAtPicks(c, s, st);
    ScoresAtMostOne(c, st.pool);
    MarginMeetsRaised(c, st.pool, picks, VotesOf(c, s, st), TruthOf(s, st), raised);
    RaisedSelection(c, picks, raised);
    RoundSucceeds(c, s, st, n);
    RoundDecision(c, s, st);
  }

  lemma PoolSizes(c: Config, s: Stream, st: State)
    requires ValidConfig(c) && PoolOk(c, st.pool)
    ensures |st.pool| == |InitialState(c, s).pool| == c.validatorPoolSize && c.validatorSetSize > 0
  {
  }

  lemma HonestSeatsRemain(c: Config)
    requires ValidConfig(c) && AlwaysSafe(c)
    ensures c.validatorSetSize > Adversaries(c)
  {
    hide ColluderCount, BiasedSeats;
  }

  lemma HonestPicksAre(c: Config, picks: seq<nat>)
    requires ValidConfig(c)
    ensures forall p | p in HonestPicks(c, picks) :: p >= Adversaries(c)
  {
  }

  lemma AlwaysSafeRun(c: Config, s: Stream, n: nat)
    requires ValidConfig(c) && !Blank(c.domain) && Lawful(s) && AlwaysSafe(c)
    ensures RoundRight(c, s, n)
  {
    if n == 0 {
      hide SafeBelow, Blank, Lawful, Playable, SimulateRound, InitialState, ValidConfig;
      NoRoundsYet(c, s);
      FirstRoundSafe(c, s);
    } else {
      LaterRoundRight(c, s, n);
    }
  }
}
