/** The simulation as a state machine (the simulation package). The random source is an arbitrary
    stream of draws and permutations, so what holds here holds for every seed. */
module SimModel {
  import opened Reals
  import opened Sums
  import opened Text
  import opened Verdicts
  import opened Wrappers
  import Bias
  import Consensus
  import Reputation

  // ----- configuration -----

  const MIN_VALIDATOR_POOL_SIZE: int := 11
  const MIN_VALIDATOR_SET_SIZE: int := 3
  const MIN_ROUNDS: int := 1

  datatype Config = Config(
    validatorPoolSize: int,
    validatorSetSize: int,
    rounds: int,
    collusionRate: real,
    collusionVerdict: Verdict,
    biasRate: real,
    biasStrength: real,
    domain: string)

  /** The collusion verdict is checked only when there is collusion, and a domain of blanks
      passes. */
  predicate ValidConfig(c: Config) {
    && c.validatorPoolSize >= MIN_VALIDATOR_POOL_SIZE
    && c.validatorSetSize >= MIN_VALIDATOR_SET_SIZE
    && c.validatorSetSize <= c.validatorPoolSize
    && c.rounds >= MIN_ROUNDS
    && InUnit(c.collusionRate)
    && InUnit(c.biasRate)
    && InUnit(c.biasStrength)
    && c.domain != ""
    && (c.collusionRate > 0.0 ==> !c.collusionVerdict.Unrecognised?)
  }

  // ----- randomness -----

  type Draw = r: real | 0.0 <= r < 1.0 witness 0.0

  /** The i-th uniform draw, and the i-th permutation of the first n numbers. */
  datatype Stream = Stream(floats: nat -> Draw, perms: (nat, nat) -> seq<nat>)

  predicate IsPermutation(p: seq<nat>, n: nat) {
    && |p| == n
    && (forall i | 0 <= i < n :: p[i] < n)
    && (forall i, j | 0 <= i < j < n :: p[i] != p[j])
  }

  ghost predicate Lawful(s: Stream) {
    forall i, n :: IsPermutation(s.perms(i, n), n)
  }

  // ----- names -----

  function Digit(d: nat): char
    requires d < 10
  {
    '0' + d as char
  }

  function Decimal(n: nat): (s: string)
    ensures s != ""
  {
    if n < 10 then [Digit(n)] else Decimal(n / 10) + [Digit(n % 10)]
  }

  /** At least `width` digits, with leading zeros. */
  function Padded(n: nat, width: nat): string {
    var s := Decimal(n);
    if |s| >= width then s else seq(width - |s|, _ => '0') + s
  }

  function ValidatorName(i: nat): string {
    "validator-" + Padded(i, 4)
  }

  function ClaimName(round: nat): string {
    "sim-claim-" + Padded(round, 6)
  }

  // ----- the pool -----

  datatype SimValidator = SimValidator(record: Reputation.ValidatorRecord, isColluder: bool, biasDirection: real)

  function SyntheticOutcome(validatorId: string, domain: string): Reputation.VoteOutcome {
    Reputation.VoteOutcome(validatorId, domain, true, 0.9, true, false)
  }

  /** At most `fuel` high-confidence updates, until the score is near the target. */
  function Raise(record: Reputation.ValidatorRecord, domain: string, target: real, fuel: nat)
    : Reputation.ValidatorRecord
    decreases fuel
  {
    if fuel == 0 || Reputation.DomainScore(record, domain) >= target - 0.05 then
      record
    else
      var r := Reputation.ApplyPostFinalizationUpdate(record, SyntheticOutcome(record.validatorId, domain));
      if r.Failure? then record else Raise(r.value.0, domain, target, fuel - 1)
  }

  const MAX_ITERATIONS: nat := 40

  function InjectDomainReputation(record: Reputation.ValidatorRecord, domain: string, target: real)
    : Reputation.ValidatorRecord
  {
    var current := Reputation.DomainScore(record, domain);
    if target - 0.10 <= current <= target + 0.10 then record else Raise(record, domain, target, MAX_ITERATIONS)
  }

  function Scaled(draw: real): real {
    draw * (1.0 - Reputation.ELIGIBILITY_THRESHOLD) + Reputation.ELIGIBILITY_THRESHOLD
  }

  function TargetReputation(s: Stream, i: nat): real {
    (Scaled(s.floats(2 * i)) + Scaled(s.floats(2 * i + 1))) / 2.0
  }

  function Portion(size: int, rate: real): int {
    (size as real * rate).Floor
  }

  function ColluderCount(c: Config): int {
    Portion(c.validatorPoolSize, c.collusionRate)
  }

  function BiasedCount(c: Config): int {
    Portion(c.validatorPoolSize, c.biasRate)
  }

  function FreshRecord(i: nat): Reputation.ValidatorRecord {
    Reputation.ValidatorRecord(TrimSpace(ValidatorName(i)), false, 0, map[], 0.0, 0, Reputation.Active)
  }

  function ValidatorAt(c: Config, s: Stream, i: nat): SimValidator {
    SimValidator(
      InjectDomainReputation(FreshRecord(i), c.domain, TargetReputation(s, i)),
      i < ColluderCount(c),
      if ColluderCount(c) <= i < ColluderCount(c) + BiasedCount(c) then c.biasStrength else 0.0)
  }

  function BuildPool(c: Config, s: Stream, n: nat): (pool: seq<SimValidator>)
    ensures |pool| == n
  {
    seq(n, i requires 0 <= i < n => ValidatorAt(c, s, i))
  }

  // ----- one round -----

  datatype State = State(pool: seq<SimValidator>, windows: Bias.Windows, floatsUsed: nat, permsUsed: nat)

  datatype RoundResult = RoundResult(
    consensusVerdict: Verdict,
    correct: bool,
    participationRate: real,
    validatorCount: nat,
    biasDetectionEvents: nat)

  datatype SimError =
    | InvalidConfig
    | ConsensusFailed(consensus: Consensus.ConsensusError)
    | ReputationFailed(reputation: Reputation.ReputationError)
    | BiasFailed(bias: Bias.BiasError)

  function GroundTruth(draw: real): (v: Verdict)
    ensures v in CANDIDATES
  {
    if draw < 0.40 then Supported
    else if draw < 0.80 then Unsupported
    else if draw < 0.95 then Misleading
    else Indeterminate
  }

  function OppositeVerdict(v: Verdict): (w: Verdict)
    ensures w == Unsupported <==> v != Unsupported
    ensures w == Supported <==> v == Unsupported
  {
    if v == Unsupported then Supported else Unsupported
  }

  /** How many draws a vote takes. */
  function DrawsOf(v: SimValidator): nat {
    if !v.isColluder && v.biasDirection > 0.0 then 2 else 1
  }

  function BuildVote(c: Config, v: SimValidator, truth: Verdict, s: Stream, at: nat): Consensus.Vote {
    var choice :=
      if v.isColluder then
        (c.collusionVerdict, 0.8 + s.floats(at) * 0.2)
      else if v.biasDirection > 0.0 then
        (if s.floats(at) < v.biasDirection then OppositeVerdict(truth) else truth, 0.4 + s.floats(at + 1) * 0.4)
      else
        (truth, 0.4 + s.floats(at) * 0.5);
    Consensus.Vote(
      v.record.validatorId,
      choice.0,
      choice.1,
      Reputation.DomainScore(v.record, c.domain),
      v.biasDirection,
      c.validatorSetSize)
  }

  /** The votes of the selected validators in order, and the stream position after them. */
  function BuildVotes(c: Config, selected: seq<SimValidator>, truth: Verdict, s: Stream, at: nat)
    : (r: (seq<Consensus.Vote>, nat))
    ensures |r.0| == |selected|
  {
    if selected == [] then
      ([], at)
    else
      var m := |selected| - 1;
      var (votes, next) := BuildVotes(c, selected[..m], truth, s, at);
      (votes + [BuildVote(c, selected[m], truth, s, next)], next + DrawsOf(selected[m]))
  }

  function VoteScore(v: Consensus.Vote): real {
    SupportScore(v.verdict)
  }

  function PopulationAverage(votes: seq<Consensus.Vote>): real {
    if votes == [] then 0.5 else Sum(VoteScore, votes) / |votes| as real
  }

  function OutcomeOf(c: Config, v: SimValidator, vote: Consensus.Vote, truth: Verdict): Reputation.VoteOutcome {
    Reputation.VoteOutcome(v.record.validatorId, c.domain, vote.verdict == truth, vote.confidence, true, false)
  }

  /** The pool after the reputation updates of the selected validators, one after the other. */
  function UpdateRecords(c: Config, pool: seq<SimValidator>, picks: seq<nat>, votes: seq<Consensus.Vote>,
      truth: Verdict)
    : (r: Result<seq<SimValidator>, SimError>)
    requires |picks| == |votes| && forall i | 0 <= i < |picks| :: picks[i] < |pool|
    ensures r.Success? ==> |r.value| == |pool|
    decreases |picks|
  {
    if picks == [] then
      Success(pool)
    else
      var m := |picks| - 1;
      var rest := UpdateRecords(c, pool, picks[..m], votes[..m], truth);
      if rest.Failure? then
        rest
      else
        var v := rest.value[picks[m]];
        var r := Reputation.ApplyPostFinalizationUpdate(v.record, OutcomeOf(c, v, votes[m], truth));
        if r.Failure? then Failure(ReputationFailed(r.error))
        else Success(rest.value[picks[m] := v.(record := r.value.0)])
  }

  function ObservationOf(vote: Consensus.Vote, average: real, round: nat): Bias.Observation {
    Bias.Observation(ClaimName(round), vote.verdict, average)
  }

  /** The windows after each selected validator's observation, and how many of them were at
      or above the moderate threshold right after their own. */
  function RecordBias(c: Config, windows: Bias.Windows, selected: seq<SimValidator>,
      votes: seq<Consensus.Vote>, average: real, round: nat)
    : Result<(Bias.Windows, nat), SimError>
    requires |selected| == |votes|
    decreases |selected|
  {
    if selected == [] then
      Success((windows, 0))
    else
      var m := |selected| - 1;
      var rest := RecordBias(c, windows, selected[..m], votes[..m], average, round);
      if rest.Failure? then
        rest
      else
        var id, obs := selected[m].record.validatorId, ObservationOf(votes[m], average, round);
        var error := Bias.RecordError(id, c.domain, obs);
        if error.Some? then
          Failure(BiasFailed(error.value))
        else
          var after := Bias.Recorded(rest.value.0, Bias.DEFAULT_WINDOW_SIZE, id, c.domain, obs);
          var flagged := Bias.BiasIn(after, id, c.domain).coefficient >= Bias.BIAS_MODERATE_THRESHOLD;
          Success((after, rest.value.1 + if flagged then 1 else 0))
  }

  function TruthOf(s: Stream, st: State): Verdict {
    GroundTruth(s.floats(st.floatsUsed))
  }

  /** The set fits in the pool, and the stream's next permutation is one. */
  predicate Playable(c: Config, s: Stream, st: State) {
    && 0 <= c.validatorSetSize <= |st.pool|
    && IsPermutation(s.perms(st.permsUsed, |st.pool|), |st.pool|)
  }

  /** Which pool positions a round selects. */
  function PicksOf(c: Config, s: Stream, st: State): (picks: seq<nat>)
    requires Playable(c, s, st)
    ensures |picks| == c.validatorSetSize
    ensures forall i | 0 <= i < |picks| :: picks[i] < |st.pool|
    ensures forall i, j | 0 <= i < j < |picks| :: picks[i] != picks[j]
  {
    s.perms(st.permsUsed, |st.pool|)[..c.validatorSetSize]
  }

  function SelectedOf(c: Config, s: Stream, st: State): (selected: seq<SimValidator>)
    requires Playable(c, s, st)
    ensures |selected| == |PicksOf(c, s, st)|
  {
    Pick(st.pool, PicksOf(c, s, st))
  }

  /** The votes a round casts, and the stream position after them. */
  function VotesAndNext(c: Config, s: Stream, st: State): (r: (seq<Consensus.Vote>, nat))
    requires Playable(c, s, st)
    ensures |r.0| == |PicksOf(c, s, st)|
  {
    BuildVotes(c, SelectedOf(c, s, st), TruthOf(s, st), s, st.floatsUsed + 1)
  }

  function VotesOf(c: Config, s: Stream, st: State): (votes: seq<Consensus.Vote>)
    requires Playable(c, s, st)
    ensures |votes| == |PicksOf(c, s, st)|
  {
    VotesAndNext(c, s, st).0
  }

  function UpdatedPool(c: Config, s: Stream, st: State): (r: Result<seq<SimValidator>, SimError>)
    requires Playable(c, s, st)
    ensures r.Success? ==> |r.value| == |st.pool|
  {
    UpdateRecords(c, st.pool, PicksOf(c, s, st), VotesOf(c, s, st), TruthOf(s, st))
  }

  function SimulateRound(c: Config, s: Stream, st: State, round: nat): (r: Result<(State, RoundResult), SimError>)
    requires Playable(c, s, st)
    ensures r.Success? ==> |r.value.0.pool| == |st.pool|
  {
    hide VotesOf, VotesAndNext, PicksOf, UpdatedPool, RecordBias, PopulationAverage, Consensus.Decide;
    var votes := VotesOf(c, s, st);
    var consensus := Consensus.Decide(votes, c.validatorSetSize);
    var updated := UpdatedPool(c, s, st);
    if consensus.Failure? then
      Failure(ConsensusFailed(consensus.error))
    else if updated.Failure? then
      Failure(updated.error)
    else
      var selected := Pick(updated.value, PicksOf(c, s, st));
      var recorded := RecordBias(c, st.windows, selected, votes, PopulationAverage(votes), round);
      if recorded.Failure? then
        Failure(recorded.error)
      else
        var decided := consensus.value;
        Success((
          State(updated.value, recorded.value.0, VotesAndNext(c, s, st).1, st.permsUsed + 1),
          RoundResult(
            decided.verdict,
            decided.verdict == TruthOf(s, st),
            decided.participationRate,
            decided.validatorCount,
            recorded.value.1)))
  }

  // ----- the report -----

  datatype Report = Report(
    totalRounds: nat,
    correctRounds: nat,
    indeterminateRounds: nat,
    verdictAccuracy: real,
    indeterminateRate: real,
    meanParticipationRate: real,
    biasDetectionRate: real,
    biasedValidatorsDetected: nat,
    verdictDistribution: map<Verdict, nat>,
    reputationConvergence: real)

  const EMPTY_REPORT: Report := Report(0, 0, 0, 0.0, 0.0, 0.0, 0.0, 0, map[], 0.0)

  function CountOf(distribution: map<Verdict, nat>, v: Verdict): nat {
    if v in distribution then distribution[v] else 0
  }

  function Accumulate(r: Report, result: RoundResult): Report {
    var v := result.consensusVerdict;
    r.(
      totalRounds := r.totalRounds + 1,
      verdictDistribution := r.verdictDistribution[v := CountOf(r.verdictDistribution, v) + 1],
      indeterminateRounds := r.indeterminateRounds + if v == Indeterminate then 1 else 0,
      correctRounds := r.correctRounds + if v != Indeterminate && result.correct then 1 else 0,
      meanParticipationRate := r.meanParticipationRate + result.participationRate,
      biasDetectionRate := r.biasDetectionRate + if result.biasDetectionEvents > 0 then 1.0 else 0.0)
  }

  function ScoreIn(domain: string): SimValidator -> real {
    (v: SimValidator) => Reputation.DomainScore(v.record, domain)
  }

  predicate Flagged(windows: Bias.Windows, v: SimValidator, domain: string) {
    Bias.BiasIn(windows, v.record.validatorId, domain).coefficient >= Bias.BIAS_MODERATE_THRESHOLD
  }

  function CountFlagged(pool: seq<SimValidator>, windows: Bias.Windows, domain: string): nat {
    if pool == [] then
      0
    else
      var m := |pool| - 1;
      CountFlagged(pool[..m], windows, domain) + if Flagged(windows, pool[m], domain) then 1 else 0
  }

  function Ratio(x: real, n: nat): real
    requires n > 0
  {
    x / n as real
  }

  function Finalise(r: Report, pool: seq<SimValidator>, windows: Bias.Windows, domain: string): Report {
    if r.totalRounds == 0 then
      r
    else
      var total, decided := r.totalRounds, r.totalRounds - r.indeterminateRounds;
      r.(
        meanParticipationRate := Ratio(r.meanParticipationRate, total),
        biasDetectionRate := Ratio(r.biasDetectionRate, total),
        verdictAccuracy := if decided > 0 then Ratio(r.correctRounds as real, decided) else r.verdictAccuracy,
        indeterminateRate := Ratio(r.indeterminateRounds as real, total),
        reputationConvergence :=
          if pool != [] then Ratio(Sum(ScoreIn(domain), pool), |pool|) else r.reputationConvergence,
        biasedValidatorsDetected := CountFlagged(pool, windows, domain))
  }

  // ----- the run -----

  function InitialState(c: Config, s: Stream): State
    requires ValidConfig(c)
  {
    State(BuildPool(c, s, c.validatorPoolSize), map[], 2 * c.validatorPoolSize, 0)
  }

  /** The state and the running report after n rounds. */
  function RunRounds(c: Config, s: Stream, n: nat): (r: Result<(State, Report), SimError>)
    requires ValidConfig(c)
    requires Lawful(s)
    ensures r.Success? ==> |r.value.0.pool| == c.validatorPoolSize
  {
    hide SimulateRound, Accumulate;
    if n == 0 then
      Success((InitialState(c, s), EMPTY_REPORT))
    else
      var rest := RunRounds(c, s, n - 1);
      if rest.Failure? then
        rest
      else
        var round := SimulateRound(c, s, rest.value.0, n - 1);
        if round.Failure? then Failure(round.error)
        else Success((round.value.0, Accumulate(rest.value.1, round.value.1)))
  }

  function RunSpec(c: Config, s: Stream): Result<Report, SimError>
    requires Lawful(s)
  {
    if !ValidConfig(c) then
      Failure(InvalidConfig)
    else
      var r := RunRounds(c, s, c.rounds);
      if r.Failure? then Failure(r.error)
      else Success(Finalise(r.value.1, r.value.0.pool, r.value.0.windows, c.domain))
  }
}
