/** Validator records, post-finalization updates and inactivity decay (core/reputation),
    over exact reals. Records are values: every operation returns a new one. */
module Reputation {
  import opened Reals
  import opened StringOrder
  import opened Sums
  import opened Text
  import opened Wrappers

  const ELIGIBILITY_THRESHOLD: real := 0.15
  const GENESIS_STARTING_REPUTATION: real := 0.75
  const REPUTATION_FLOOR: real := ELIGIBILITY_THRESHOLD
  const REPUTATION_CEILING: real := 1.0
  const DELTA_HIGH: real := 0.05
  const DELTA_LOW: real := 0.01
  const DELTA_ABSENT: real := 0.02
  const DELTA_LATE: real := 0.01
  const HIGH_CONFIDENCE_THRESHOLD: real := 0.7
  const LOW_CONFIDENCE_THRESHOLD: real := 0.3
  const DECAY_RATE: real := 0.001
  const DECAY_INACTIVITY_DAYS: int := 30

  datatype ValidatorStatus = Active | Suspended | Retired

  datatype ValidatorRecord = ValidatorRecord(
    validatorId: string,
    genesisValidator: bool,
    registrationEpoch: Uint64,
    domainScores: map<string, real>,
    globalReputation: real,
    totalValidations: Uint64,
    status: ValidatorStatus)

  datatype VoteOutcome = VoteOutcome(
    validatorId: string,
    domain: string,
    wasCorrect: bool,
    confidence: real,
    participated: bool,
    wasLate: bool)

  datatype UpdateReason =
    | CorrectHighConfidence
    | CorrectLowConfidence
    | CorrectMidConfidence
    | IncorrectHighConfidence
    | IncorrectLowConfidence
    | IncorrectMidConfidence
    | Absent
    | Late

  datatype UpdateResult = UpdateResult(
    validatorId: string,
    domain: string,
    oldScore: real,
    newScore: real,
    delta: real,
    reason: UpdateReason)

  datatype DecayInput = DecayInput(validatorId: string, domain: string, daysInactive: int)

  datatype DecayResult = DecayResult(
    validatorId: string,
    domain: string,
    oldScore: real,
    newScore: real,
    daysInactive: int,
    applied: bool)

  datatype ReputationError = ValidatorIdEmpty | DomainEmpty | InvalidReputation | NegativeDays

  // ----- scores -----

  function Clamp(v: real, min: real, max: real): real {
    if v < min then min else if v > max then max else v
  }

  function DomainScore(record: ValidatorRecord, domain: string): real {
    var d := Normalize(domain);
    if d in record.domainScores then record.domainScores[d] else 0.0
  }

  predicate IsEligibleForDomain(record: ValidatorRecord, domain: string) {
    record.status == Active && DomainScore(record, domain) >= ELIGIBILITY_THRESHOLD
  }

  /** The sum of all domain scores, taken in the order of the domain names. */
  function SumScores(scores: map<string, real>): real
    decreases |scores|
  {
    if scores == map[] then
      0.0
    else
      var d := Least(scores.Keys);
      scores[d] + SumScores(scores - {d})
  }

  /** The mean of all domain scores. */
  function MeanScore(scores: map<string, real>): real {
    if |scores| == 0 then 0.0 else SumScores(scores) / |scores| as real
  }

  /** Any other order of the domains gives the same sum. */
  lemma {:induction false} SumScoresAnyOrder(scores: map<string, real>, d: string)
    requires d in scores
    ensures SumScores(scores) == scores[d] + SumScores(scores - {d})
    decreases |scores|
  {
    var e := Least(scores.Keys);
    if d != e {
      var less, both := scores - {e}, scores - {d} - {e};
      assert d in less && less - {d} == both;
      SumScoresAnyOrder(less, d);
      assert e in scores - {d};
      SumScoresAnyOrder(scores - {d}, e);
    }
  }

  /** Adds the scores up in whatever order the map yields them. */
  method ComputeGlobalReputation(scores: map<string, real>) returns (global: real)
    ensures global == MeanScore(scores)
  {
    if |scores| == 0 {
      return 0.0;
    }
    var sum := 0.0;
    var left := scores;
    while left != map[]
      invariant sum + SumScores(left) == SumScores(scores)
      decreases |left|
    {
      var d :| d in left;
      SumScoresAnyOrder(left, d);
      sum := sum + left[d];
      left := left - {d};
    }
    global := sum / |scores| as real;
  }

  // ----- records -----

  function NewValidatorRecord(validatorId: string, registrationEpoch: Uint64): Result<ValidatorRecord, ReputationError>
  {
    if Blank(validatorId) then
      Failure(ValidatorIdEmpty)
    else
      Success(ValidatorRecord(TrimSpace(validatorId), false, registrationEpoch, map[], 0.0, 0, Active))
  }

  function GenesisScores(domains: seq<string>): map<string, real> {
    if domains == [] then
      map[]
    else
      var scores, d := GenesisScores(domains[..|domains| - 1]), Normalize(domains[|domains| - 1]);
      if d == "" then scores else scores[d := GENESIS_STARTING_REPUTATION]
  }

  function GenesisRecord(validatorId: string, domains: seq<string>, registrationEpoch: Uint64)
    : Result<ValidatorRecord, ReputationError>
  {
    if Blank(validatorId) then
      Failure(ValidatorIdEmpty)
    else if domains == [] then
      Failure(DomainEmpty)
    else
      var scores := GenesisScores(domains);
      Success(ValidatorRecord(TrimSpace(validatorId), true, registrationEpoch, scores, MeanScore(scores), 0, Active))
  }

  method NewGenesisValidatorRecord(validatorId: string, domains: seq<string>, registrationEpoch: Uint64)
    returns (r: Result<ValidatorRecord, ReputationError>)
    ensures r == GenesisRecord(validatorId, domains, registrationEpoch)
  {
    if Blank(validatorId) {
      return Failure(ValidatorIdEmpty);
    }
    if |domains| == 0 {
      return Failure(DomainEmpty);
    }
    var scores: map<string, real> := map[];
    for i := 0 to |domains|
      invariant scores == GenesisScores(domains[..i])
    {
      assert domains[..i + 1][..i] == domains[..i];
      var d := Normalize(domains[i]);
      if d != "" {
        scores := scores[d := GENESIS_STARTING_REPUTATION];
      }
    }
    assert domains[..|domains|] == domains;
    var global := ComputeGlobalReputation(scores);
    r := Success(ValidatorRecord(TrimSpace(validatorId), true, registrationEpoch, scores, global, 0, Active));
  }

  function WithUpdatedDomainScore(record: ValidatorRecord, domain: string, newScore: real): ValidatorRecord {
    var scores := record.domainScores[domain := Clamp(newScore, 0.0, REPUTATION_CEILING)];
    record.(domainScores := scores, globalReputation := MeanScore(scores))
  }

  /** Copies the score map entry by entry before changing the copy. */
  method CopyWithUpdatedDomainScore(record: ValidatorRecord, domain: string, newScore: real)
    returns (r: ValidatorRecord)
    ensures r == WithUpdatedDomainScore(record, domain, newScore)
  {
    var clamped := Clamp(newScore, 0.0, REPUTATION_CEILING);
    var newScores: map<string, real> := map[];
    var left := record.domainScores.Keys;
    while left != {}
      invariant left <= record.domainScores.Keys
      invariant newScores == record.domainScores - left
    {
      var d :| d in left;
      newScores := newScores[d := record.domainScores[d]];
      left := left - {d};
    }
    assert newScores == record.domainScores;
    newScores := newScores[domain := clamped];
    var global := ComputeGlobalReputation(newScores);
    r := record.(domainScores := newScores, globalReputation := global);
  }

  // ----- post-finalization updates -----

  function ValidateOutcome(o: VoteOutcome): Option<ReputationError> {
    if Blank(o.validatorId) then Some(ValidatorIdEmpty)
    else if Blank(o.domain) then Some(DomainEmpty)
    else if o.confidence < 0.0 || o.confidence > 1.0 then Some(InvalidReputation)
    else None
  }

  function ComputeDelta(o: VoteOutcome): (real, UpdateReason) {
    if !o.participated then (-DELTA_ABSENT, Absent)
    else if o.wasLate then (-DELTA_LATE, Late)
    else if o.wasCorrect then
      if o.confidence > HIGH_CONFIDENCE_THRESHOLD then (DELTA_HIGH, CorrectHighConfidence)
      else if o.confidence < LOW_CONFIDENCE_THRESHOLD then (DELTA_LOW, CorrectLowConfidence)
      else (DELTA_LOW, CorrectMidConfidence)
    else
      if o.confidence > HIGH_CONFIDENCE_THRESHOLD then (-DELTA_HIGH, IncorrectHighConfidence)
      else if o.confidence < LOW_CONFIDENCE_THRESHOLD then (-DELTA_LOW, IncorrectLowConfidence)
      else (-DELTA_LOW, IncorrectMidConfidence)
  }

  function ApplyPostFinalizationUpdate(record: ValidatorRecord, outcome: VoteOutcome)
    : Result<(ValidatorRecord, UpdateResult), ReputationError>
  {
    var error := ValidateOutcome(outcome);
    if error.Some? then
      Failure(error.value)
    else
      var domain := Normalize(outcome.domain);
      var oldScore := DomainScore(record, domain);
      var (delta, reason) := ComputeDelta(outcome);
      var newScore := Clamp(oldScore + delta, REPUTATION_FLOOR, REPUTATION_CEILING);
      var updated := WithUpdatedDomainScore(record, domain, newScore);
      Success((updated.(totalValidations := Increment(updated.totalValidations)),
               UpdateResult(record.validatorId, domain, oldScore, newScore, delta, reason)))
  }

  // ----- decay -----

  function ValidateDecayInput(i: DecayInput): Option<ReputationError> {
    if Blank(i.validatorId) then Some(ValidatorIdEmpty)
    else if Blank(i.domain) then Some(DomainEmpty)
    else if i.daysInactive < 0 then Some(NegativeDays)
    else None
  }

  function DecayBy(score: real, factor: real): real {
    Clamp(Times(score, factor), REPUTATION_FLOOR, REPUTATION_CEILING)
  }

  /** The score after some days beyond the inactivity threshold. */
  function DecayedScore(score: real, effectiveDays: nat): real {
    DecayBy(score, Pow(1.0 - DECAY_RATE, effectiveDays))
  }

  function ApplyDecay(record: ValidatorRecord, input: DecayInput)
    : Result<(ValidatorRecord, DecayResult), ReputationError>
  {
    var error := ValidateDecayInput(input);
    if error.Some? then
      Failure(error.value)
    else
      var domain := Normalize(input.domain);
      var oldScore := DomainScore(record, domain);
      if input.daysInactive <= DECAY_INACTIVITY_DAYS then
        Success((record, DecayResult(record.validatorId, domain, oldScore, oldScore, input.daysInactive, false)))
      else
        var effectiveDays := input.daysInactive - DECAY_INACTIVITY_DAYS;
        var newScore := DecayedScore(oldScore, effectiveDays);
        Success((WithUpdatedDomainScore(record, domain, newScore),
                 DecayResult(record.validatorId, domain, oldScore, newScore, input.daysInactive, newScore < oldScore)))
  }
}
