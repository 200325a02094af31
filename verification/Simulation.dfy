/** The simulation as it runs: a random source that is consumed, validators whose records
    are replaced in place, a tracker and a report that are updated in place. */
module Simulation {
  import opened SimModel
  import opened SimReport
  import opened SimRuns
  import opened Sums
  import opened Text
  import opened Verdicts
  import opened Wrappers
  import Bias
  import Consensus
  import Reputation
  import SimPool

  // ----- objects -----

  /** A random source: a stream and how much of it has been used. */
  class Rng {
    const stream: Stream
    var floatsUsed: nat
    var permsUsed: nat

    constructor (stream: Stream)
      ensures this.stream == stream && floatsUsed == permsUsed == 0
    {
      this.stream := stream;
      floatsUsed, permsUsed := 0, 0;
    }

    method Float64() returns (r: real)
      modifies this
      ensures r == stream.floats(old(floatsUsed))
      ensures floatsUsed == old(floatsUsed) + 1 && permsUsed == old(permsUsed)
    {
      r := stream.floats(floatsUsed);
      floatsUsed := floatsUsed + 1;
    }

    method Perm(n: nat) returns (p: seq<nat>)
      modifies this
      ensures p == stream.perms(old(permsUsed), n)
      ensures permsUsed == old(permsUsed) + 1 && floatsUsed == old(floatsUsed)
    {
      p := stream.perms(permsUsed, n);
      permsUsed := permsUsed + 1;
    }
  }

  /** A validator of the pool; rounds replace its record. */
  class PoolValidator {
    var record: Reputation.ValidatorRecord
    const isColluder: bool
    const biasDirection: real

    constructor (record: Reputation.ValidatorRecord, isColluder: bool, biasDirection: real)
      ensures View() == SimValidator(record, isColluder, biasDirection)
    {
      this.record, this.isColluder, this.biasDirection := record, isColluder, biasDirection;
    }

    function View(): SimValidator
      reads this
    {
      SimValidator(record, isColluder, biasDirection)
    }
  }

  function Views(pool: seq<PoolValidator>): (views: seq<SimValidator>)
    reads pool
    ensures |views| == |pool|
    ensures forall i | 0 <= i < |pool| :: views[i] == pool[i].View()
  {
    seq(|pool|, i requires 0 <= i < |pool| reads pool => pool[i].View())
  }

  predicate Distinct(pool: seq<PoolValidator>) {
    forall i, j | 0 <= i < j < |pool| :: pool[i] != pool[j]
  }

  class RunReport {
    var totalRounds: nat
    var correctRounds: nat
    var indeterminateRounds: nat
    var verdictAccuracy: real
    var indeterminateRate: real
    var meanParticipationRate: real
    var biasDetectionRate: real
    var biasedValidatorsDetected: nat
    var verdictDistribution: map<Verdict, nat>
    var reputationConvergence: real

    constructor ()
      ensures View() == EMPTY_REPORT
    {
      totalRounds, correctRounds, indeterminateRounds, biasedValidatorsDetected := 0, 0, 0, 0;
      verdictAccuracy, indeterminateRate, meanParticipationRate := 0.0, 0.0, 0.0;
      biasDetectionRate, reputationConvergence := 0.0, 0.0;
      verdictDistribution := map[];
    }

    function View(): Report
      reads this
    {
      Report(totalRounds, correctRounds, indeterminateRounds, verdictAccuracy, indeterminateRate,
        meanParticipationRate, biasDetectionRate, biasedValidatorsDetected, verdictDistribution, reputationConvergence)
    }

    method Accumulate(result: RoundResult)
      modifies this
      ensures View() == SimModel.Accumulate(old(View()), result)
    {
      totalRounds := totalRounds + 1;
      var v := result.consensusVerdict;
      verdictDistribution := verdictDistribution[v :=
        (if v in verdictDistribution then verdictDistribution[v] else 0) + 1];
      if v == Indeterminate {
        indeterminateRounds := indeterminateRounds + 1;
      } else if result.correct {
        correctRounds := correctRounds + 1;
      }
      meanParticipationRate := meanParticipationRate + result.participationRate;
      if result.biasDetectionEvents > 0 {
        biasDetectionRate := biasDetectionRate + 1.0;
      }
    }

    method Finalise(pool: seq<PoolValidator>, tracker: Bias.Tracker, domain: string)
      requires tracker.Valid() && this !in tracker.Repr
      modifies this
      ensures View() == SimModel.Finalise(old(View()), Views(pool), tracker.View(), domain)
    {
      hide Ratio, Views, Sum, CountFlagged, Bias.Tracker.Valid, Bias.Tracker.View, ScoreIn;
      if totalRounds == 0 {
        return;
      }
      meanParticipationRate := Ratio(meanParticipationRate, totalRounds);
      biasDetectionRate := Ratio(biasDetectionRate, totalRounds);
      var decidedRounds := totalRounds - indeterminateRounds;
      if decidedRounds > 0 {
        verdictAccuracy := Ratio(correctRounds as real, decidedRounds);
      }
      indeterminateRate := Ratio(indeterminateRounds as real, totalRounds);
      var repSum := SumScores(pool, domain);
      if |pool| > 0 {
        reputationConvergence := Ratio(repSum, |pool|);
      }
      biasedValidatorsDetected := CountBiased(pool, tracker, domain);
    }
  }

  method SumScores(pool: seq<PoolValidator>, domain: string) returns (sum: real)
    ensures sum == Sum(ScoreIn(domain), Views(pool))
  {
    sum := 0.0;
    for i := 0 to |pool|
      invariant sum == Sum(ScoreIn(domain), Views(pool)[..i])
    {
      SumPrefix(ScoreIn(domain), Views(pool), i);
      sum := sum + Reputation.DomainScore(pool[i].record, domain);
    }
    assert Views(pool)[..|pool|] == Views(pool);
  }

  method CountBiased(pool: seq<PoolValidator>, tracker: Bias.Tracker, domain: string) returns (count: nat)
    requires tracker.Valid()
    ensures count == CountFlagged(Views(pool), tracker.View(), domain)
  {
    hide Views, Bias.Tracker.Valid, Bias.Tracker.View, Bias.BiasIn;
    count := 0;
    for i := 0 to |pool|
      invariant count == CountFlagged(Views(pool)[..i], tracker.View(), domain)
    {
      ViewsAt(pool, i);
      assert Views(pool)[..i + 1][..i] == Views(pool)[..i];
      var result := tracker.BiasFor(pool[i].record.validatorId, domain);
      if result.coefficient >= Bias.BIAS_MODERATE_THRESHOLD {
        count := count + 1;
      }
    }
    assert Views(pool)[..|pool|] == Views(pool);
  }

  // ----- the pool -----

  method InjectReputation(record: Reputation.ValidatorRecord, domain: string, target: real)
    returns (r: Reputation.ValidatorRecord)
    ensures r == InjectDomainReputation(record, domain, target)
  {
    hide Reputation.ApplyPostFinalizationUpdate, Reputation.DomainScore, SyntheticOutcome;
    r := record;
    var current := Reputation.DomainScore(r, domain);
    if current >= target - 0.10 && current <= target + 0.10 {
      return;
    }
    var i := 0;
    while i < MAX_ITERATIONS && Reputation.DomainScore(r, domain) < target - 0.05
      invariant i <= MAX_ITERATIONS
      invariant Raise(record, domain, target, MAX_ITERATIONS) == Raise(r, domain, target, MAX_ITERATIONS - i)
    {
      var updated := Reputation.ApplyPostFinalizationUpdate(r, SyntheticOutcome(r.validatorId, domain));
      if updated.Failure? {
        break;
      }
      r := updated.value.0;
      i := i + 1;
    }
  }

  /** Makes the validator at one position, from two draws. */
  method BuildValidator(c: Config, rng: Rng, i: nat) returns (sv: PoolValidator)
    requires ValidConfig(c) && rng.floatsUsed == 2 * i
    modifies rng
    ensures fresh(sv) && sv.View() == ValidatorAt(c, rng.stream, i)
    ensures rng.floatsUsed == 2 * (i + 1) && rng.permsUsed == old(rng.permsUsed)
  {
    hide Scaled, Portion, InjectDomainReputation, Blank, ValidatorName;
    var validatorId := ValidatorName(i);
    var drawA := rng.Float64();
    var drawB := rng.Float64();
    var domainRep := (Scaled(drawA) + Scaled(drawB)) / 2.0;
    SimPool.NamesNotBlank(i);
    var created := Reputation.NewValidatorRecord(validatorId, 0);
    var record := InjectReputation(created.value, c.domain, domainRep);
    var colluderCount := Portion(c.validatorPoolSize, c.collusionRate);
    var biasedCount := Portion(c.validatorPoolSize, c.biasRate);
    var biasDirection := 0.0;
    if i >= colluderCount && i < colluderCount + biasedCount {
      biasDirection := c.biasStrength;
    }
    sv := new PoolValidator(record, i < colluderCount, biasDirection);
  }

  method BuildValidatorPool(c: Config, rng: Rng) returns (pool: seq<PoolValidator>)
    requires ValidConfig(c) && rng.floatsUsed == 0
    modifies rng
    ensures fresh(set v | v in pool) && Distinct(pool)
    ensures Views(pool) == BuildPool(c, rng.stream, c.validatorPoolSize)
    ensures rng.floatsUsed == 2 * c.validatorPoolSize && rng.permsUsed == old(rng.permsUsed)
  {
    hide ValidatorAt, PoolValidator.View;
    pool := [];
    for i := 0 to c.validatorPoolSize
      invariant |pool| == i && rng.floatsUsed == 2 * i && rng.permsUsed == old(rng.permsUsed)
      invariant fresh(set v | v in pool) && Distinct(pool)
      invariant forall j: nat | j < i :: pool[j].View() == ValidatorAt(c, rng.stream, j)
    {
      var sv := BuildValidator(c, rng, i);
      pool := pool + [sv];
    }
  }

  // ----- one round -----

  ghost function StateOf(pool: seq<PoolValidator>, tracker: Bias.Tracker, rng: Rng): State
    reads pool, tracker, tracker.Repr, rng
    requires tracker.Valid()
  {
    State(Views(pool), tracker.View(), rng.floatsUsed, rng.permsUsed)
  }

  /** The selected validators are the pool's own objects. */
  method SelectValidators(pool: seq<PoolValidator>, setSize: nat, rng: Rng) returns (selected: seq<PoolValidator>)
    requires setSize <= |pool| && IsPermutation(rng.stream.perms(rng.permsUsed, |pool|), |pool|)
    modifies rng
    ensures rng.permsUsed == old(rng.permsUsed) + 1 && rng.floatsUsed == old(rng.floatsUsed)
    ensures var picks := rng.stream.perms(old(rng.permsUsed), |pool|)[..setSize];
            |selected| == setSize && forall i | 0 <= i < setSize :: selected[i] == pool[picks[i]]
  {
    var indices := rng.Perm(|pool|);
    selected := [];
    for i := 0 to setSize
      invariant |selected| == i && forall j | 0 <= j < i :: selected[j] == pool[indices[j]]
    {
      selected := selected + [pool[indices[i]]];
    }
  }

  method CastVote(sv: PoolValidator, truth: Verdict, c: Config, rng: Rng) returns (vote: Consensus.Vote)
    modifies rng
    ensures vote == BuildVote(c, sv.View(), truth, rng.stream, old(rng.floatsUsed))
    ensures rng.floatsUsed == old(rng.floatsUsed) + DrawsOf(sv.View()) && rng.permsUsed == old(rng.permsUsed)
  {
    var verdict, confidence;
    if sv.isColluder {
      verdict := c.collusionVerdict;
      var draw := rng.Float64();
      confidence := 0.8 + draw * 0.2;
    } else if sv.biasDirection > 0.0 {
      var flip := rng.Float64();
      if flip < sv.biasDirection {
        verdict := OppositeVerdict(truth);
      } else {
        verdict := truth;
      }
      var draw := rng.Float64();
      confidence := 0.4 + draw * 0.4;
    } else {
      verdict := truth;
      var draw := rng.Float64();
      confidence := 0.4 + draw * 0.5;
    }
    vote := Consensus.Vote(sv.record.validatorId, verdict, confidence,
      Reputation.DomainScore(sv.record, c.domain), sv.biasDirection, c.validatorSetSize);
  }

  method CastVotes(selected: seq<PoolValidator>, truth: Verdict, c: Config, rng: Rng)
    returns (votes: seq<Consensus.Vote>)
    modifies rng
    ensures (votes, rng.floatsUsed) == BuildVotes(c, Views(selected), truth, rng.stream, old(rng.floatsUsed))
    ensures rng.permsUsed == old(rng.permsUsed)
  {
    hide Views, BuildVote, DrawsOf, PoolValidator.View;
    votes := [];
    ghost var views := Views(selected);
    for i := 0 to |selected|
      invariant Views(selected) == views && rng.permsUsed == old(rng.permsUsed)
      invariant (votes, rng.floatsUsed) == BuildVotes(c, views[..i], truth, rng.stream, old(rng.floatsUsed))
    {
      assert views[..i + 1][..i] == views[..i];
      var vote := CastVote(selected[i], truth, c, rng);
      votes := votes + [vote];
    }
    assert views[..|selected|] == views;
  }

  method ComputePopulationAverage(votes: seq<Consensus.Vote>) returns (average: real)
    ensures average == PopulationAverage(votes)
  {
    if |votes| == 0 {
      return 0.5;
    }
    var sum := 0.0;
    for i := 0 to |votes|
      invariant sum == Sum(VoteScore, votes[..i])
    {
      SumPrefix(VoteScore, votes, i);
      sum := sum + SupportScore(votes[i].verdict);
    }
    assert votes[..|votes|] == votes;
    average := sum / |votes| as real;
  }

  lemma UpdateFailureStays(c: Config, pool: seq<SimValidator>, picks: seq<nat>, votes: seq<Consensus.Vote>,
      truth: Verdict, n: nat)
    requires |picks| == |votes| && n <= |picks| && forall i | 0 <= i < |picks| :: picks[i] < |pool|
    requires UpdateRecords(c, pool, picks[..n], votes[..n], truth).Failure?
    ensures UpdateRecords(c, pool, picks, votes, truth) == UpdateRecords(c, pool, picks[..n], votes[..n], truth)
    decreases |picks| - n
  {
    hide Reputation.ApplyPostFinalizationUpdate, OutcomeOf;
    if n == |picks| {
      assert picks[..n] == picks && votes[..n] == votes;
    } else {
      assert picks[..n + 1][..n] == picks[..n] && votes[..n + 1][..n] == votes[..n];
      UpdateFailureStays(c, pool, picks, votes, truth, n + 1);
    }
  }

  lemma UpdateOneMore(c: Config, pool: seq<SimValidator>, picks: seq<nat>, votes: seq<Consensus.Vote>,
      truth: Verdict, i: nat)
    requires i < |picks| == |votes| && forall j | 0 <= j < |picks| :: picks[j] < |pool|
    requires UpdateRecords(c, pool, picks[..i], votes[..i], truth).Success?
    ensures var now := UpdateRecords(c, pool, picks[..i], votes[..i], truth).value;
            var v := now[picks[i]];
            var r := Reputation.ApplyPostFinalizationUpdate(v.record, OutcomeOf(c, v, votes[i], truth));
            UpdateRecords(c, pool, picks[..i + 1], votes[..i + 1], truth) ==
              if r.Failure? then Failure(ReputationFailed(r.error))
              else Success(now[picks[i] := v.(record := r.value.0)])
  {
    assert picks[..i + 1][..i] == picks[..i] && votes[..i + 1][..i] == votes[..i];
    hide Reputation.ApplyPostFinalizationUpdate, OutcomeOf;
  }

  /** Updates one validator; the rest of the pool is left alone. */
  method UpdateOne(c: Config, ghost pool: seq<PoolValidator>, ghost k: nat, sv: PoolValidator,
      vote: Consensus.Vote, truth: Verdict)
    returns (error: Option<Reputation.ReputationError>)
    requires Distinct(pool) && k < |pool| && sv == pool[k]
    modifies sv
    ensures var v := old(sv.View());
            var r := Reputation.ApplyPostFinalizationUpdate(v.record, OutcomeOf(c, v, vote, truth));
            && error == (if r.Failure? then Some(r.error) else None)
            && (r.Success? ==> Views(pool) == old(Views(pool))[k := v.(record := r.value.0)])
  {
    hide Reputation.ApplyPostFinalizationUpdate;
    var wasCorrect := vote.verdict == truth;
    var outcome := Reputation.VoteOutcome(sv.record.validatorId, c.domain, wasCorrect, vote.confidence, true, false);
    var updated := Reputation.ApplyPostFinalizationUpdate(sv.record, outcome);
    if updated.Failure? {
      return Some(updated.error);
    }
    sv.record := updated.value.0;
    error := None;
  }

  /** Replaces the record of each selected validator. */
  method UpdateReputations(c: Config, pool: seq<PoolValidator>, ghost picks: seq<nat>, selected: seq<PoolValidator>,
      votes: seq<Consensus.Vote>, truth: Verdict)
    returns (error: Option<SimError>)
    requires Distinct(pool) && |picks| == |selected| == |votes|
    requires forall i | 0 <= i < |picks| :: picks[i] < |pool| && selected[i] == pool[picks[i]]
    modifies pool
    ensures var spec := UpdateRecords(c, old(Views(pool)), picks, votes, truth);
            if error.Some? then spec == Failure(error.value) else spec == Success(Views(pool))
  {
    assert UpdateRecords(c, Views(pool), picks[..0], votes[..0], truth) == Success(Views(pool));
    hide UpdateRecords, Reputation.ApplyPostFinalizationUpdate, OutcomeOf;
    for i := 0 to |selected|
      invariant UpdateRecords(c, old(Views(pool)), picks[..i], votes[..i], truth) == Success(Views(pool))
    {
      UpdateOneMore(c, old(Views(pool)), picks, votes, truth, i);
      var failed := UpdateOne(c, pool, picks[i], selected[i], votes[i], truth);
      if failed.Some? {
        UpdateFailureStays(c, old(Views(pool)), picks, votes, truth, i + 1);
        return Some(ReputationFailed(failed.value));
      }
    }
    assert picks[..|picks|] == picks && votes[..|votes|] == votes;
    error := None;
  }

  lemma RecordFailureStays(c: Config, windows: Bias.Windows, selected: seq<SimValidator>,
      votes: seq<Consensus.Vote>, average: real, round: nat, n: nat)
    requires |selected| == |votes| && n <= |selected|
    requires RecordBias(c, windows, selected[..n], votes[..n], average, round).Failure?
    ensures RecordBias(c, windows, selected, votes, average, round)
            == RecordBias(c, windows, selected[..n], votes[..n], average, round)
    decreases |selected| - n
  {
    hide Bias.RecordError, Bias.Recorded, Bias.BiasIn, ObservationOf;
    if n == |selected| {
      assert selected[..n] == selected && votes[..n] == votes;
    } else {
      assert selected[..n + 1][..n] == selected[..n] && votes[..n + 1][..n] == votes[..n];
      RecordFailureStays(c, windows, selected, votes, average, round, n + 1);
    }
  }

  lemma RecordOneMore(c: Config, windows: Bias.Windows, selected: seq<SimValidator>,
      votes: seq<Consensus.Vote>, average: real, round: nat, i: nat)
    requires i < |selected| == |votes|
    requires RecordBias(c, windows, selected[..i], votes[..i], average, round).Success?
    ensures var (now, events) := RecordBias(c, windows, selected[..i], votes[..i], average, round).value;
            var id, obs := selected[i].record.validatorId, ObservationOf(votes[i], average, round);
            var error := Bias.RecordError(id, c.domain, obs);
            var after := Bias.Recorded(now, Bias.DEFAULT_WINDOW_SIZE, id, c.domain, obs);
            var flagged := Bias.BiasIn(after, id, c.domain).coefficient >= Bias.BIAS_MODERATE_THRESHOLD;
            RecordBias(c, windows, selected[..i + 1], votes[..i + 1], average, round) ==
              if error.Some? then Failure(BiasFailed(error.value))
              else Success((after, events + if flagged then 1 else 0))
  {
    hide Bias.RecordError, Bias.Recorded, Bias.BiasIn, ObservationOf;
    assert selected[..i + 1][..i] == selected[..i] && votes[..i + 1][..i] == votes[..i];
    assert selected[..i + 1][i] == selected[i] && votes[..i + 1][i] == votes[i];
  }

  /** Records one observation and asks whether its validator is flagged now. */
  method RecordOne(c: Config, tracker: Bias.Tracker, id: string, vote: Consensus.Vote, average: real, round: nat)
    returns (error: Option<Bias.BiasError>, flagged: bool)
    requires tracker.Valid() && tracker.windowSize == Bias.DEFAULT_WINDOW_SIZE
    modifies tracker.Repr
    ensures tracker.Valid() && fresh(tracker.Repr - old(tracker.Repr))
    ensures error == Bias.RecordError(id, c.domain, ObservationOf(vote, average, round))
    ensures tracker.View() ==
            Bias.Recorded(old(tracker.View()), Bias.DEFAULT_WINDOW_SIZE, id, c.domain,
              ObservationOf(vote, average, round))
    ensures flagged <==> Bias.BiasIn(tracker.View(), id, c.domain).coefficient >= Bias.BIAS_MODERATE_THRESHOLD
  {
    hide Bias.RecordError, Bias.Recorded, Bias.BiasIn, ClaimName;
    var obs := Bias.Observation(ClaimName(round), vote.verdict, average);
    error := tracker.Record(id, c.domain, obs);
    var biasResult := tracker.BiasFor(id, c.domain);
    flagged := biasResult.coefficient >= Bias.BIAS_MODERATE_THRESHOLD;
  }

  lemma NothingRecorded(c: Config, windows: Bias.Windows, selected: seq<SimValidator>,
      votes: seq<Consensus.Vote>, average: real, round: nat)
    requires |selected| == |votes|
    ensures RecordBias(c, windows, selected[..0], votes[..0], average, round) == Success((windows, 0))
  {
  }

  lemma ViewsAt(pool: seq<PoolValidator>, i: nat)
    requires i < |pool|
    ensures Views(pool)[i].record == pool[i].record
  {
  }

  method RecordObservations(c: Config, tracker: Bias.Tracker, selected: seq<PoolValidator>, votes: seq<Consensus.Vote>,
      average: real, round: nat)
    returns (r: Result<nat, SimError>)
    requires tracker.Valid() && tracker.windowSize == Bias.DEFAULT_WINDOW_SIZE
    requires |selected| == |votes| && forall v | v in selected :: v !in tracker.Repr
    modifies tracker.Repr
    ensures tracker.Valid() && fresh(tracker.Repr - old(tracker.Repr))
    ensures var spec := RecordBias(c, old(tracker.View()), Views(selected), votes, average, round);
            match r
            case Failure(e) => spec == Failure(e) case Success(events) => spec == Success((tracker.View(), events))
  {
    hide *;
    var biasEvents := 0;
    ghost var views, start := Views(selected), tracker.View();
    NothingRecorded(c, start, views, votes, average, round);
    for i := 0 to |selected|
      invariant tracker.Valid() && fresh(tracker.Repr - old(tracker.Repr))
      invariant Views(selected) == views
      invariant RecordBias(c, start, views[..i], votes[..i], average, round) == Success((tracker.View(), biasEvents))
    {
      ViewsAt(selected, i);
      RecordOneMore(c, start, views, votes, average, round, i);
      var error, flagged := RecordOne(c, tracker, selected[i].record.validatorId, votes[i], average, round);
      if error.Some? {
        RecordFailureStays(c, start, views, votes, average, round, i + 1);
        return Failure(BiasFailed(error.value));
      }
      if flagged {
        biasEvents := biasEvents + 1;
      }
    }
    assert views[..|selected|] == views && votes[..|votes|] == votes;
    r := Success(biasEvents);
  }

  /** The objects of a run are separate from each other. */
  ghost predicate Apart(pool: seq<PoolValidator>, tracker: Bias.Tracker, rng: Rng)
    reads tracker
  {
    && Distinct(pool)
    && rng !in tracker.Repr
    && forall v | v in pool :: v !in tracker.Repr
  }

  lemma ApartIs(pool: seq<PoolValidator>, tracker: Bias.Tracker, rng: Rng)
    ensures Apart(pool, tracker, rng) <==>
            Distinct(pool) && rng !in tracker.Repr && forall v | v in pool :: v !in tracker.Repr
  {
  }

  lemma StateIs(pool: seq<PoolValidator>, tracker: Bias.Tracker, rng: Rng)
    requires tracker.Valid()
    ensures StateOf(pool, tracker, rng) == State(Views(pool), tracker.View(), rng.floatsUsed, rng.permsUsed)
  {
  }

  /** The views of the selected objects are the selected views. */
  lemma ViewsOfSelected(pool: seq<PoolValidator>, picks: seq<nat>, selected: seq<PoolValidator>)
    requires |selected| == |picks| && forall i | 0 <= i < |picks| :: picks[i] < |pool| && selected[i] == pool[picks[i]]
    ensures Views(selected) == Pick(Views(pool), picks)
  {
  }

  /** The round of the specification, step by step. */
  lemma RoundUnfolds(c: Config, s: Stream, st: State, round: nat)
    requires Playable(c, s, st)
    ensures 0 <= c.validatorSetSize <= |st.pool| && IsPermutation(s.perms(st.permsUsed, |st.pool|), |st.pool|)
    ensures PicksOf(c, s, st) == s.perms(st.permsUsed, |st.pool|)[..c.validatorSetSize]
    ensures var truth, picks := GroundTruth(s.floats(st.floatsUsed)), PicksOf(c, s, st);
            var (votes, next) := BuildVotes(c, Pick(st.pool, picks), truth, s, st.floatsUsed + 1);
            var decision := Consensus.Decide(votes, c.validatorSetSize);
            var updated := UpdateRecords(c, st.pool, picks, votes, truth);
            SimulateRound(c, s, st, round) ==
              if decision.Failure? then Failure(ConsensusFailed(decision.error))
              else if updated.Failure? then Failure(updated.error)
              else match RecordBias(c, st.windows, Pick(updated.value, picks), votes, PopulationAverage(votes), round)
                case Failure(e) => Failure(e)
                case Success(recorded) => Success((
                  State(updated.value, recorded.0, next, st.permsUsed + 1),
                  RoundResult(decision.value.verdict, decision.value.verdict == truth, decision.value.participationRate,
                    decision.value.validatorCount, recorded.1)))
  {
    hide Consensus.Decide, UpdateRecords, RecordBias, PopulationAverage, BuildVotes, GroundTruth;
  }

  method PlayRound(c: Config, pool: seq<PoolValidator>, tracker: Bias.Tracker, rng: Rng, round: nat)
    returns (r: Result<RoundResult, SimError>)
    requires tracker.Valid() && tracker.windowSize == Bias.DEFAULT_WINDOW_SIZE && Apart(pool, tracker, rng)
    requires Playable(c, rng.stream, StateOf(pool, tracker, rng))
    modifies pool, rng, tracker.Repr
    ensures tracker.Valid() && fresh(tracker.Repr - old(tracker.Repr)) && Apart(pool, tracker, rng)
    ensures var spec := SimulateRound(c, rng.stream, old(StateOf(pool, tracker, rng)), round);
            match r
            case Failure(e) => spec == Failure(e)
            case Success(result) => spec == Success((StateOf(pool, tracker, rng), result))
  {
    hide *;
    ghost var st := StateOf(pool, tracker, rng);
    ghost var picks := PicksOf(c, rng.stream, st);
    RoundUnfolds(c, rng.stream, st, round);
    StateIs(pool, tracker, rng);
    ApartIs(pool, tracker, rng);
    var draw := rng.Float64();
    var truth := GroundTruth(draw);
    var selected := SelectValidators(pool, c.validatorSetSize, rng);
    ViewsOfSelected(pool, picks, selected);
    var votes := CastVotes(selected, truth, c, rng);
    var populationAvg := ComputePopulationAverage(votes);
    var result := Consensus.ComputeConsensus(votes, c.validatorSetSize);
    ApartIs(pool, tracker, rng);
    if result.Failure? {
      return Failure(ConsensusFailed(result.error));
    }
    var error := UpdateReputations(c, pool, picks, selected, votes, truth);
    ApartIs(pool, tracker, rng);
    if error.Some? {
      return Failure(error.value);
    }
    ViewsOfSelected(pool, picks, selected);
    var events := RecordObservations(c, tracker, selected, votes, populationAvg, round);
    ApartIs(pool, tracker, rng);
    if events.Failure? {
      return Failure(events.error);
    }
    StateIs(pool, tracker, rng);
    var decided := result.value;
    r := Success(RoundResult(decided.verdict, decided.verdict == truth, decided.participationRate,
      decided.validatorCount, events.value));
  }

  // ----- the run -----

  lemma RunFailureStays(c: Config, s: Stream, m: nat, n: nat)
    requires ValidConfig(c) && Lawful(s) && m <= n && RunRounds(c, s, m).Failure?
    ensures RunRounds(c, s, n) == RunRounds(c, s, m)
    decreases n - m
  {
    hide SimulateRound, SimModel.Accumulate, Lawful, ValidConfig;
    if m < n {
      RunFailureStays(c, s, m, n - 1);
    }
  }

  lemma RunOneMore(c: Config, s: Stream, n: nat)
    requires ValidConfig(c) && Lawful(s) && RunRounds(c, s, n).Success?
    requires Playable(c, s, StateAfter(c, s, n))
    ensures RunRounds(c, s, n + 1) ==
            match SimulateRound(c, s, StateAfter(c, s, n), n)
            case Failure(e) => Failure(e)
            case Success(round) => Success((round.0, SimModel.Accumulate(ReportAfter(c, s, n), round.1)))
  {
    hide SimulateRound, SimModel.Accumulate, Lawful, ValidConfig, Playable;
  }

  lemma NextPermutation(c: Config, s: Stream, st: State)
    requires ValidConfig(c) && Lawful(s) && |st.pool| == c.validatorPoolSize
    ensures Playable(c, s, st)
  {
  }

  lemma NoRounds(c: Config, s: Stream)
    requires ValidConfig(c) && Lawful(s)
    ensures RunRounds(c, s, 0) == Success((InitialState(c, s), EMPTY_REPORT)) && c.rounds > 0
  {
  }

  lemma PoolSize(pool: seq<PoolValidator>, tracker: Bias.Tracker, rng: Rng)
    requires tracker.Valid()
    ensures |StateOf(pool, tracker, rng).pool| == |pool|
  {
  }

  lemma RunIsAt(c: Config, s: Stream, n: nat)
    requires ValidConfig(c) && Lawful(s) && RunRounds(c, s, n).Success?
    ensures (StateAfter(c, s, n), ReportAfter(c, s, n)) == RunRounds(c, s, n).value
  {
  }

  /** Plays all the rounds, one after the other. */
  method PlayRounds(c: Config, pool: seq<PoolValidator>, tracker: Bias.Tracker, rng: Rng, report: RunReport)
    returns (error: Option<SimError>)
    requires ValidConfig(c) && Lawful(rng.stream) && |pool| == c.validatorPoolSize
    requires tracker.Valid() && tracker.windowSize == Bias.DEFAULT_WINDOW_SIZE && Apart(pool, tracker, rng)
    requires report !in tracker.Repr && StateOf(pool, tracker, rng) == InitialState(c, rng.stream)
    requires report.View() == EMPTY_REPORT
    modifies pool, rng, tracker.Repr, report
    ensures tracker.Valid() && report !in tracker.Repr
    ensures RunRounds(c, rng.stream, c.rounds) ==
            if error.Some? then Failure(error.value) else Success((StateOf(pool, tracker, rng), report.View()))
  {
    hide *;
    NoRounds(c, rng.stream);
    for round := 0 to c.rounds
      invariant tracker.Valid() && fresh(tracker.Repr - old(tracker.Repr))
      invariant report !in tracker.Repr && Apart(pool, tracker, rng)
      invariant RunRounds(c, rng.stream, round) == Success((StateOf(pool, tracker, rng), report.View()))
    {
      PoolSize(pool, tracker, rng);
      NextPermutation(c, rng.stream, StateOf(pool, tracker, rng));
      RunIsAt(c, rng.stream, round);
      RunOneMore(c, rng.stream, round);
      var result := PlayRound(c, pool, tracker, rng, round);
      if result.Failure? {
        RunFailureStays(c, rng.stream, round + 1, c.rounds);
        return Some(result.error);
      }
      report.Accumulate(result.value);
    }
    error := None;
  }

  lemma RunSpecIs(c: Config, s: Stream)
    requires Lawful(s)
    ensures RunSpec(c, s) ==
            if !ValidConfig(c) then Failure(InvalidConfig)
            else match RunRounds(c, s, c.rounds)
              case Failure(e) => Failure(e)
              case Success(end) => Success(SimModel.Finalise(end.1, end.0.pool, end.0.windows, c.domain))
  {
    hide RunRounds, SimModel.Finalise, ValidConfig;
  }

  lemma ConfigBounds(c: Config)
    ensures ValidConfig(c) ==> c.validatorPoolSize >= 0 && c.rounds >= 0
  {
  }

  /** The objects a run starts with are apart from each other, and in the initial state. */
  lemma StartsApart(c: Config, pool: seq<PoolValidator>, tracker: Bias.Tracker, rng: Rng)
    requires ValidConfig(c) && Distinct(pool) && tracker.Valid() && rng !in tracker.Repr
    requires forall v | v in pool :: v !in tracker.Repr
    requires Views(pool) == BuildPool(c, rng.stream, c.validatorPoolSize) && tracker.View() == map[]
    requires rng.floatsUsed == 2 * c.validatorPoolSize && rng.permsUsed == 0
    ensures Apart(pool, tracker, rng) && StateOf(pool, tracker, rng) == InitialState(c, rng.stream)
    ensures |pool| == c.validatorPoolSize
  {
    hide BuildPool, Bias.Tracker.Valid, Bias.Tracker.View;
  }

  lemma RunDescribes(c: Config, s: Stream)
    requires Lawful(s)
    ensures var r := RunSpec(c, s);
            r.Success? ==> Runs(c, s) && Describes(c, s, r.value)
  {
    hide RunSpec, Describes, ReportFinal;
    RunSucceedsExactly(c, s);
    if RunSpec(c, s).Success? {
      ReportDescribes(c, s);
    }
  }

  /** Executes a whole run and returns its report, or the first error. */
  method Run(c: Config, stream: Stream) returns (r: Result<RunReport, SimError>)
    requires Lawful(stream)
    ensures match r
            case Failure(e) => RunSpec(c, stream) == Failure(e)
            case Success(report) => RunSpec(c, stream) == Success(report.View())
    ensures r.Success? <==> ValidConfig(c) && !Blank(c.domain)
    ensures r.Success? ==> ReportFinal(c, r.value.View()) && Runs(c, stream) && Describes(c, stream, r.value.View())
  {
    hide *;
    RunSucceedsExactly(c, stream);
    RunDescribes(c, stream);
    RunSpecIs(c, stream);
    if !ValidConfig(c) {
      return Failure(InvalidConfig);
    }
    var rng := new Rng(stream);
    ConfigBounds(c);
    var pool := BuildValidatorPool(c, rng);
    var created := Bias.NewTracker(0);
    var tracker := created.value;
    var report := new RunReport();
    StartsApart(c, pool, tracker, rng);
    var error := PlayRounds(c, pool, tracker, rng, report);
    if error.Some? {
      return Failure(error.value);
    }
    StateIs(pool, tracker, rng);
    report.Finalise(pool, tracker, c.domain);
    r := Success(report);
  }
}
