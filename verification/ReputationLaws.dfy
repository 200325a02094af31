/** What any history of updates and decays keeps, and the laws of decay. */
module ReputationLaws {
  import opened Reals
  import opened Reputation
  import opened Sums
  import opened Text
  import opened Wrappers

  // ----- histories -----

  datatype Operation = Update(outcome: VoteOutcome) | Decay(input: DecayInput)

  /** A refused operation returns no record, and its caller keeps the old one. */
  function Apply(record: ValidatorRecord, op: Operation): ValidatorRecord {
    match op
    case Update(outcome) =>
      var r := ApplyPostFinalizationUpdate(record, outcome);
      if r.Success? then r.value.0 else record
    case Decay(input) =>
      var r := ApplyDecay(record, input);
      if r.Success? then r.value.0 else record
  }

  function Replay(record: ValidatorRecord, ops: seq<Operation>): ValidatorRecord {
    if ops == [] then record else Apply(Replay(record, ops[..|ops| - 1]), ops[|ops| - 1])
  }

  function Accepted(op: Operation): bool {
    match op
    case Update(outcome) => ValidateOutcome(outcome).None?
    case Decay(input) => ValidateDecayInput(input).None?
  }

  function DomainOf(op: Operation): string {
    Normalize(if op.Update? then op.outcome.domain else op.input.domain)
  }

  /** What one accepted operation makes of the score of its own domain. */
  function Rescore(score: real, op: Operation): real {
    match op
    case Update(outcome) => Clamp(score + ComputeDelta(outcome).0, REPUTATION_FLOOR, REPUTATION_CEILING)
    case Decay(input) =>
      if input.daysInactive <= DECAY_INACTIVITY_DAYS then score
      else DecayedScore(score, input.daysInactive - DECAY_INACTIVITY_DAYS)
  }

  predicate InBand(score: real) {
    REPUTATION_FLOOR <= score <= REPUTATION_CEILING
  }

  /** Every recorded score is in [0.15, 1] under a normalised name, and the global
      reputation is the exact mean of the recorded scores. */
  ghost predicate Sound(record: ValidatorRecord) {
    && (forall d | d in record.domainScores :: InBand(record.domainScores[d]) && Normalize(d) == d != "")
    && record.globalReputation == MeanScore(record.domainScores)
  }

  lemma NewRecordSound(validatorId: string, epoch: Uint64)
    ensures var r := NewValidatorRecord(validatorId, epoch);
            && (r.Failure? <==> Blank(validatorId))
            && (r.Failure? ==> r.error == ValidatorIdEmpty)
            && (r.Success? ==> Sound(r.value) && forall d :: DomainScore(r.value, d) == 0.0)
            && (r.Success? ==> StartsAs(r.value, validatorId, false, epoch) && r.value.globalReputation == 0.0)
  {
  }

  /** A record as it is created: active, without validations, under its trimmed name. */
  predicate StartsAs(record: ValidatorRecord, validatorId: string, genesis: bool, epoch: Uint64) {
    && record.validatorId == TrimSpace(validatorId)
    && record.genesisValidator == genesis
    && record.registrationEpoch == epoch
    && record.totalValidations == 0
    && record.status == Active
  }

  lemma {:induction false} GenesisScoresAre(domains: seq<string>, d: string)
    ensures var scores := GenesisScores(domains);
            && (d in scores ==> scores[d] == 0.75)
            && (d in scores <==> d != "" && exists i | 0 <= i < |domains| :: Normalize(domains[i]) == d)
  {
    if domains != [] {
      GenesisScoresAre(domains[..|domains| - 1], d);
    }
  }

  lemma GenesisRecordSound(validatorId: string, domains: seq<string>, epoch: Uint64)
    ensures var r := GenesisRecord(validatorId, domains, epoch);
            && (r.Failure? <==> Blank(validatorId) || domains == [])
            && (r.Failure? ==> r.error == if Blank(validatorId) then ValidatorIdEmpty else DomainEmpty)
            && (r.Success? ==> Sound(r.value) && StartsAs(r.value, validatorId, true, epoch))
            && (r.Success? ==> r.value.globalReputation == if r.value.domainScores == map[] then 0.0 else 0.75)
  {
    hide MeanScore, Normalize;
    var scores := GenesisScores(domains);
    forall d | d in scores ensures scores[d] == 0.75 && Normalize(d) == d != "" {
      GenesisScoresAre(domains, d);
      var i :| 0 <= i < |domains| && Normalize(domains[i]) == d;
      NormalizeIsIdempotent(domains[i]);
    }
    MeanBetween(scores, 0.75, 0.75);
  }

  lemma {:induction false} SumBetween(scores: map<string, real>, lo: real, hi: real)
    requires forall d | d in scores :: lo <= scores[d] <= hi
    ensures Times(lo, |scores| as real) <= SumScores(scores) <= Times(hi, |scores| as real)
    decreases |scores|
  {
    hide Times;
    ZeroTimes(lo);
    ZeroTimes(hi);
    if scores != map[] {
      var d :| d in scores;
      var rest := scores - {d};
      SumScoresAnyOrder(scores, d);
      assert scores.Keys == rest.Keys + {d} && |scores.Keys| == |scores| && |rest.Keys| == |rest|;
      SumBetween(rest, lo, hi);
      OneMoreTimes(lo, |rest|);
      OneMoreTimes(hi, |rest|);
    }
  }

  lemma ZeroTimes(x: real)
    ensures Times(x, 0.0) == 0.0
  {
  }

  lemma OneMoreTimes(x: real, n: nat)
    ensures Times(x, (n + 1) as real) == Times(x, n as real) + x
  {
  }

  /** The mean lies between any bounds of the scores; without scores it is 0. */
  lemma MeanBetween(scores: map<string, real>, lo: real, hi: real)
    requires forall d | d in scores :: lo <= scores[d] <= hi
    ensures if scores == map[] then MeanScore(scores) == 0.0 else lo <= MeanScore(scores) <= hi
  {
    hide SumScores, Times;
    SumBetween(scores, lo, hi);
    if scores != map[] {
      NonEmptySize(scores);
      QuotientBetween(SumScores(scores), |scores| as real, lo, hi);
    }
  }

  lemma QuotientBetween(x: real, m: real, lo: real, hi: real)
    requires m > 0.0 && Times(lo, m) <= x <= Times(hi, m)
    ensures lo <= x / m <= hi
  {
    QuotientAtLeast(x, m, lo);
    QuotientAtMost(x, m, hi);
  }

  lemma NonEmptySize(scores: map<string, real>)
    ensures scores != map[] ==> |scores| > 0
  {
  }

  /** The global reputation of a sound record is in [0.15, 1], or 0 without any score. */
  lemma GlobalInBand(record: ValidatorRecord)
    requires Sound(record)
    ensures if record.domainScores == map[] then record.globalReputation == 0.0
            else 0.15 <= record.globalReputation <= 1.0
  {
    hide MeanScore, Normalize;
    MeanBetween(record.domainScores, 0.15, 1.0);
  }

  // ----- one operation -----

  lemma RescoreInBand(score: real, op: Operation)
    ensures op.Update? || op.input.daysInactive > DECAY_INACTIVITY_DAYS ==> InBand(Rescore(score, op))
  {
    hide Pow, Times;
  }

  lemma WithUpdatedScoreSound(record: ValidatorRecord, domain: string, score: real, d: string)
    requires Sound(record) && InBand(score) && Normalize(domain) == domain != ""
    ensures var updated := WithUpdatedDomainScore(record, domain, score);
            && Sound(updated)
            && DomainScore(updated, d) == if Normalize(d) == domain then score else DomainScore(record, d)
  {
    hide MeanScore, Normalize;
  }

  /** The stored score is cut off at 0 and not at the floor: the two agree exactly from the
      floor upwards. Updates and decays stay in the band because they clamp before. */
  lemma CutOffIsZero(record: ValidatorRecord, domain: string, newScore: real)
    ensures WithUpdatedDomainScore(record, domain, newScore).domainScores[domain]
              == Clamp(newScore, REPUTATION_FLOOR, REPUTATION_CEILING)
            <==> newScore >= REPUTATION_FLOOR
  {
    hide MeanScore;
  }

  /** What an operation stores, with the domain normalised once. */
  lemma ApplyIs(record: ValidatorRecord, op: Operation)
    ensures var domain := DomainOf(op);
            var updated := WithUpdatedDomainScore(record, domain, Rescore(DomainScore(record, domain), op));
            Apply(record, op) ==
              if !Accepted(op) || (op.Decay? && op.input.daysInactive <= DECAY_INACTIVITY_DAYS) then record
              else if op.Decay? then updated
              else updated.(totalValidations := Increment(record.totalValidations))
  {
    hide MeanScore, DecayedScore, Clamp, Normalize, Blank, DomainScore;
  }

  lemma CounterIsSeparate(record: ValidatorRecord, n: Uint64, d: string)
    ensures Sound(record.(totalValidations := n)) == Sound(record)
    ensures DomainScore(record.(totalValidations := n), d) == DomainScore(record, d)
  {
    hide MeanScore, Normalize;
  }

  /** An accepted operation rescored its own domain and left every other domain alone; a
      refused one left the record alone. A decay inside the first 30 days does not even
      create an entry. */
  lemma ApplyIsRescore(record: ValidatorRecord, op: Operation, d: string)
    requires Sound(record)
    ensures Sound(Apply(record, op))
    ensures DomainScore(Apply(record, op), d) ==
            if Accepted(op) && Normalize(d) == DomainOf(op)
              then Rescore(DomainScore(record, d), op) else DomainScore(record, d)
  {
    ApplyIs(record, op);
    if Accepted(op) && (op.Update? || op.input.daysInactive > DECAY_INACTIVITY_DAYS) {
      var domain := DomainOf(op);
      NormalizeIsIdempotent(if op.Update? then op.outcome.domain else op.input.domain);
      var score := Rescore(DomainScore(record, domain), op);
      RescoreInBand(DomainScore(record, domain), op);
      WithUpdatedScoreSound(record, domain, score, d);
      CounterIsSeparate(WithUpdatedDomainScore(record, domain, score), Increment(record.totalValidations), d);
      assert Normalize(d) == domain ==> DomainScore(record, d) == DomainScore(record, domain);
      hide Apply, Rescore, DomainScore, Sound, WithUpdatedDomainScore, Normalize;
    }
  }

  /** The counter counts accepted updates, and nothing else, modulo 2^64. */
  lemma {:induction false} TotalCountsUpdates(record: ValidatorRecord, ops: seq<Operation>)
    ensures Replay(record, ops).totalValidations
            == (record.totalValidations + AcceptedUpdates(ops)) % 0x1_0000_0000_0000_0000
  {
    hide DecayedScore, MeanScore, Normalize, Clamp, Blank;
    if ops != [] {
      TotalCountsUpdates(record, ops[..|ops| - 1]);
    }
  }

  function AcceptedUpdates(ops: seq<Operation>): nat {
    if ops == [] then 0
    else AcceptedUpdates(ops[..|ops| - 1]) + if ops[|ops| - 1].Update? && Accepted(ops[|ops| - 1]) then 1 else 0
  }

  // ----- whole histories -----

  /** Whatever happens to a validator, every recorded score stays in [0.15, 1], the global
      reputation stays the exact mean, and a domain no accepted operation names keeps its
      score. */
  lemma {:induction false} ReplaySound(record: ValidatorRecord, ops: seq<Operation>, d: string)
    requires Sound(record)
    ensures Sound(Replay(record, ops))
    ensures (forall op | op in ops && Accepted(op) :: DomainOf(op) != Normalize(d)) ==>
              DomainScore(Replay(record, ops), d) == DomainScore(record, d)
  {
    if ops != [] {
      var m := |ops| - 1;
      ReplaySound(record, ops[..m], d);
      assert ops[m] in ops;
      ApplyIsRescore(Replay(record, ops[..m]), ops[m], d);
    }
  }

  /** An accepted update, or an accepted decay beyond the first 30 days, of this domain. */
  predicate Touches(op: Operation, d: string) {
    && Accepted(op)
    && DomainOf(op) == Normalize(d)
    && (op.Update? || op.input.daysInactive > DECAY_INACTIVITY_DAYS)
  }

  /** Exactly who reaches the threshold: whoever had, and whoever was touched at all. Losing
      reputation counts as much as gaining it, since both end at the threshold or above. */
  lemma {:induction false} ThresholdExactly(record: ValidatorRecord, ops: seq<Operation>, d: string)
    requires Sound(record)
    ensures DomainScore(Replay(record, ops), d) >= ELIGIBILITY_THRESHOLD <==>
            DomainScore(record, d) >= ELIGIBILITY_THRESHOLD || exists op | op in ops :: Touches(op, d)
  {
    hide Apply, Rescore, DomainScore, Sound, Touches;
    if ops != [] {
      var m := |ops| - 1;
      ThresholdExactly(record, ops[..m], d);
      ReplaySound(record, ops[..m], d);
      assert forall op :: op in ops <==> op in ops[..m] || op == ops[m];
      OneTouch(Replay(record, ops[..m]), ops[m], d);
    }
  }

  lemma OneTouch(record: ValidatorRecord, op: Operation, d: string)
    requires Sound(record)
    ensures DomainScore(Apply(record, op), d) >= ELIGIBILITY_THRESHOLD <==>
            DomainScore(record, d) >= ELIGIBILITY_THRESHOLD || Touches(op, d)
  {
    hide Apply, DomainScore, Sound, Normalize, ComputeDelta, DecayedScore;
    ApplyIsRescore(record, op, d);
    RescoreInBand(DomainScore(record, d), op);
  }

  /** No operation changes who the validator is. */
  lemma {:induction false} IdentityStays(record: ValidatorRecord, ops: seq<Operation>)
    ensures var after := Replay(record, ops);
            && after.validatorId == record.validatorId
            && after.genesisValidator == record.genesisValidator
            && after.registrationEpoch == record.registrationEpoch
            && after.status == record.status
  {
    if ops != [] {
      IdentityStays(record, ops[..|ops| - 1]);
      hide MeanScore, DecayedScore, Normalize, Blank;
    }
  }

  /** So an active validator is eligible for a domain exactly if it was, or was touched. */
  lemma EligibleExactly(record: ValidatorRecord, ops: seq<Operation>, d: string)
    requires Sound(record)
    ensures IsEligibleForDomain(Replay(record, ops), d) <==>
            record.status == Active
            && (IsEligibleForDomain(record, d) || exists op | op in ops :: Touches(op, d))
  {
    ThresholdExactly(record, ops, d);
    IdentityStays(record, ops);
    hide DomainScore, Replay, Touches;
  }

  /** One absence is a penalty, and makes an unknown validator eligible. */
  lemma AbsenceMakesEligible(validatorId: string, epoch: Uint64, o: VoteOutcome)
    requires !Blank(validatorId) && ValidateOutcome(o).None? && !o.participated
    ensures var record := NewValidatorRecord(validatorId, epoch).value;
            && !IsEligibleForDomain(record, o.domain)
            && ComputeDelta(o).0 < 0.0
            && IsEligibleForDomain(Replay(record, [Update(o)]), o.domain)
  {
    hide Normalize, Blank, MeanScore, Replay, TrimSpace;
    NewRecordSound(validatorId, epoch);
    var record := NewValidatorRecord(validatorId, epoch).value;
    assert Update(o) in [Update(o)] && Touches(Update(o), o.domain);
    EligibleExactly(record, [Update(o)], o.domain);
  }

  /** Two validators that live through the same history keep their order in every domain,
      and the gap between them never widens. */
  lemma {:induction false} HistoryNeverWidensGap(low: ValidatorRecord, high: ValidatorRecord, ops: seq<Operation>,
      d: string)
    requires Sound(low) && Sound(high) && DomainScore(low, d) <= DomainScore(high, d)
    ensures var l, h := DomainScore(Replay(low, ops), d), DomainScore(Replay(high, ops), d);
            0.0 <= h - l <= DomainScore(high, d) - DomainScore(low, d)
  {
    if ops != [] {
      var m := |ops| - 1;
      HistoryNeverWidensGap(low, high, ops[..m], d);
      ReplaySound(low, ops[..m], d);
      ReplaySound(high, ops[..m], d);
      var l, h := Replay(low, ops[..m]), Replay(high, ops[..m]);
      ApplyIsRescore(l, ops[m], d);
      ApplyIsRescore(h, ops[m], d);
      if Accepted(ops[m]) {
        RescoreNonExpansive(DomainScore(l, d), DomainScore(h, d), ops[m]);
      }
      hide Apply, Rescore, Accepted, DomainScore, Sound;
    }
  }

  lemma RescoreNonExpansive(x: real, y: real, op: Operation)
    requires x <= y && Accepted(op)
    ensures 0.0 <= Rescore(y, op) - Rescore(x, op) <= y - x
  {
    if op.Decay? && op.input.daysInactive > DECAY_INACTIVITY_DAYS {
      var n := op.input.daysInactive - DECAY_INACTIVITY_DAYS;
      PowInUnit(1.0 - DECAY_RATE, n);
      DecayByNonExpansive(x, y, Pow(1.0 - DECAY_RATE, n));
      hide DecayBy;
    }
  }

  // ----- what the results report -----

  /** Exactly when each reason applies, and what it costs or gains. */
  lemma DeltaTable(o: VoteOutcome)
    ensures var onTime := o.participated && !o.wasLate;
            && (ComputeDelta(o) == (0.05, CorrectHighConfidence) <==> onTime && o.wasCorrect && o.confidence > 0.7)
            && (ComputeDelta(o) == (0.01, CorrectMidConfidence) <==>
                 onTime && o.wasCorrect && 0.3 <= o.confidence <= 0.7)
            && (ComputeDelta(o) == (0.01, CorrectLowConfidence) <==> onTime && o.wasCorrect && o.confidence < 0.3)
            && (ComputeDelta(o) == (-0.05, IncorrectHighConfidence) <==>
                 onTime && !o.wasCorrect && o.confidence > 0.7)
            && (ComputeDelta(o) == (-0.01, IncorrectMidConfidence) <==>
                 onTime && !o.wasCorrect && 0.3 <= o.confidence <= 0.7)
            && (ComputeDelta(o) == (-0.01, IncorrectLowConfidence) <==>
                 onTime && !o.wasCorrect && o.confidence < 0.3)
            && (ComputeDelta(o) == (-0.02, Absent) <==> !o.participated)
            && (ComputeDelta(o) == (-0.01, Late) <==> o.participated && o.wasLate)
    ensures ComputeDelta(o).0 > 0.0 <==> o.participated && !o.wasLate && o.wasCorrect
    ensures o.participated && !o.wasLate ==>
              ComputeDelta(o.(wasCorrect := !o.wasCorrect)).0 == -ComputeDelta(o).0
  {
  }

  /** Which outcomes and which decays are refused, and with which error. */
  lemma RefusedExactly(record: ValidatorRecord, o: VoteOutcome, i: DecayInput)
    ensures var r := ApplyPostFinalizationUpdate(record, o);
            && (r == Failure(ValidatorIdEmpty) <==> Blank(o.validatorId))
            && (r == Failure(DomainEmpty) <==> !Blank(o.validatorId) && Blank(o.domain))
            && (r == Failure(InvalidReputation) <==>
                 !Blank(o.validatorId) && !Blank(o.domain) && !(0.0 <= o.confidence <= 1.0))
            && (r.Success? <==> !Blank(o.validatorId) && !Blank(o.domain) && 0.0 <= o.confidence <= 1.0)
    ensures var r := ApplyDecay(record, i);
            && (r == Failure(ValidatorIdEmpty) <==> Blank(i.validatorId))
            && (r == Failure(DomainEmpty) <==> !Blank(i.validatorId) && Blank(i.domain))
            && (r == Failure(NegativeDays) <==> !Blank(i.validatorId) && !Blank(i.domain) && i.daysInactive < 0)
            && (r.Success? <==> !Blank(i.validatorId) && !Blank(i.domain) && i.daysInactive >= 0)
  {
    hide Normalize, Blank, MeanScore, ComputeDelta, DecayedScore;
  }

  lemma ScoreIsOfNormalForm(record: ValidatorRecord, domain: string)
    ensures DomainScore(record, Normalize(domain)) == DomainScore(record, domain)
  {
    NormalizeIsIdempotent(domain);
  }

  /** x, or the nearer end of [0.15, 1]. */
  function Cut(x: real): real {
    if x < 0.15 then 0.15 else if x > 1.0 then 1.0 else x
  }

  /** The result of an update reports the scores found in the two records. The new score is the
      old one plus the delta, cut off at 0.15 and at 1. */
  lemma UpdateReportsTruth(record: ValidatorRecord, outcome: VoteOutcome)
    requires Sound(record) && ValidateOutcome(outcome).None?
    ensures var (updated, result) := ApplyPostFinalizationUpdate(record, outcome).value;
            && result.validatorId == updated.validatorId == record.validatorId
            && result.domain == Normalize(outcome.domain)
            && result.oldScore == DomainScore(record, outcome.domain)
            && result.newScore == DomainScore(updated, outcome.domain)
            && (result.delta, result.reason) == ComputeDelta(outcome)
            && result.newScore == Cut(result.oldScore + result.delta)
  {
    hide Normalize, MeanScore, ComputeDelta, Blank, Sound, DomainScore;
    NormalizeIsIdempotent(outcome.domain);
    ScoreIsOfNormalForm(record, outcome.domain);
    ApplyIsRescore(record, Update(outcome), outcome.domain);
  }

  /** The result of a decay reports the scores found in the two records, and says `applied`
      exactly when the score fell. Each day beyond the first 30 takes a thousandth of what is
      left, cut off at 0.15 and at 1. */
  lemma DecayReportsTruth(record: ValidatorRecord, input: DecayInput)
    requires Sound(record) && ValidateDecayInput(input).None?
    ensures var (updated, result) := ApplyDecay(record, input).value;
            && result.validatorId == updated.validatorId == record.validatorId
            && result.domain == Normalize(input.domain)
            && result.oldScore == DomainScore(record, input.domain)
            && result.newScore == DomainScore(updated, input.domain)
            && (input.daysInactive <= 30 ==> result.newScore == result.oldScore)
            && (input.daysInactive > 30 ==>
                 result.newScore == Cut(Times(result.oldScore, Pow(0.999, input.daysInactive - 30))))
            && (result.applied <==> DomainScore(updated, input.domain) < DomainScore(record, input.domain))
            && result.daysInactive == input.daysInactive
  {
    hide Normalize, MeanScore, DecayedScore, Blank, Sound, DomainScore, Cut, Times, Pow;
    NormalizeIsIdempotent(input.domain);
    ScoreIsOfNormalForm(record, input.domain);
    ApplyIsRescore(record, Decay(input), input.domain);
    if input.daysInactive > 30 {
      DecayedIsCut(DomainScore(record, input.domain), input.daysInactive - 30);
    }
  }

  lemma DecayedIsCut(score: real, days: nat)
    ensures DecayedScore(score, days) == Cut(Times(score, Pow(0.999, days)))
  {
    assert 1.0 - DECAY_RATE == 0.999;
    hide Pow, Times;
  }

  // ----- one decay by a factor -----

  lemma DecayByNonExpansive(x: real, y: real, p: real)
    requires x <= y && 0.0 < p <= 1.0
    ensures 0.0 <= DecayBy(y, p) - DecayBy(x, p) <= y - x
  {
    TimesMonotone(x, y, p);
    TimesInUnit(y - x, p);
    TimesDistributes(x, y, p);
    hide Times;
  }

  lemma DecayByDirection(score: real, p: real)
    requires 0.0 <= score <= 1.0 && 0.0 < p <= 1.0
    ensures DecayBy(score, p) <= score <==> score >= REPUTATION_FLOOR
    ensures score < REPUTATION_FLOOR ==> DecayBy(score, p) == REPUTATION_FLOOR
  {
    TimesInUnit(score, p);
    hide Times;
  }

  /** Clamping to the floor between two decays changes nothing in the end. */
  lemma DecayByComposes(score: real, p: real, q: real)
    requires InBand(score) && 0.0 < p <= 1.0 && 0.0 < q <= 1.0
    ensures DecayBy(DecayBy(score, p), q) == DecayBy(score, Times(p, q))
  {
    TimesInUnit(score, p);
    TimesInUnit(Times(score, p), q);
    TimesInUnit(REPUTATION_FLOOR, q);
    if Times(score, p) < REPUTATION_FLOOR {
      TimesMonotone(Times(score, p), REPUTATION_FLOOR, q);
    }
    TimesAssociates(score, p, q);
    hide Times;
  }

  /** A factor between bounds leaves a score between the bounds' products. */
  lemma DecayByBounds(score: real, p: real, lo: real)
    requires InBand(score) && lo <= p <= 1.0 && p > 0.0
    ensures DecayBy(score, p) >= Times(lo, score)
    ensures p <= REPUTATION_FLOOR ==> DecayBy(score, p) == REPUTATION_FLOOR
  {
    TimesMonotone(lo, p, score);
    TimesInUnit(score, p);
    TimesInUnit(p, score);
    TimesCommutes(score, p);
    hide Times;
  }

  // ----- decay over days -----

  lemma FactorInUnit(days: nat)
    ensures 0.0 < Pow(1.0 - DECAY_RATE, days) <= 1.0
  {
    PowInUnit(1.0 - DECAY_RATE, days);
  }

  /** Decaying never increases a score that is at or above the floor. A score below the
      floor is lifted to it: this is what happens to a domain without history. */
  lemma DecayDirection(score: real, days: nat)
    requires 0.0 <= score <= 1.0
    ensures DecayedScore(score, days) <= score <==> score >= REPUTATION_FLOOR
    ensures score < REPUTATION_FLOOR ==> DecayedScore(score, days) == REPUTATION_FLOOR
  {
    FactorInUnit(days);
    DecayByDirection(score, Pow(1.0 - DECAY_RATE, days));
    hide DecayBy;
  }

  /** Exactly when a decay leaves a score at most as high as it was: within the first 30 days,
      or from the floor upwards. Beyond them a lower score, such as the 0 of a domain without
      history, is lifted to the floor. */
  lemma DecayNeverRaisesExactly(record: ValidatorRecord, input: DecayInput)
    requires Sound(record) && ValidateDecayInput(input).None?
    ensures var (updated, _) := ApplyDecay(record, input).value;
            var before, after := DomainScore(record, input.domain), DomainScore(updated, input.domain);
            && (after <= before <==> input.daysInactive <= DECAY_INACTIVITY_DAYS || before >= REPUTATION_FLOOR)
            && (input.daysInactive <= DECAY_INACTIVITY_DAYS ==> updated == record)
            && (!(after <= before) ==> after == REPUTATION_FLOOR)
  {
    hide Normalize, MeanScore, DecayedScore, Blank, Sound, DomainScore, WithUpdatedDomainScore;
    ScoreInUnit(record, input.domain);
    ApplyIsRescore(record, Decay(input), input.domain);
    if input.daysInactive > DECAY_INACTIVITY_DAYS {
      DecayDirection(DomainScore(record, input.domain), input.daysInactive - DECAY_INACTIVITY_DAYS);
    }
  }

  lemma ScoreInUnit(record: ValidatorRecord, domain: string)
    requires Sound(record)
    ensures 0.0 <= DomainScore(record, domain) <= 1.0
  {
    hide MeanScore, Normalize;
  }

  /** Counting the first 30 days as well, as the documented formula does, gives another score
      unless the score has reached the floor anyway. */
  lemma AllDaysDifferExactly(score: real, effectiveDays: nat)
    requires InBand(score)
    ensures DecayedScore(score, effectiveDays + 30) == DecayedScore(score, effectiveDays)
            <==> DecayedScore(score, effectiveDays) == REPUTATION_FLOOR
  {
    DecayComposes(score, effectiveDays, 30);
    DecayedInBand(score, effectiveDays);
    var before := DecayedScore(score, effectiveDays);
    ThirtyDaysAreStrict();
    FactorInUnit(30);
    hide DecayedScore, Pow;
    assert DecayedScore(before, 30) == DecayBy(before, Pow(1.0 - DECAY_RATE, 30)) by { DecayedIs(before, 30); }
    DecayByStrict(before, Pow(1.0 - DECAY_RATE, 30));
  }

  /** The score that the documented formula gives, which counts all inactive days. */
  function DocumentedScore(score: real, daysInactive: nat): real {
    DecayBy(score, Pow(1.0 - DECAY_RATE, daysInactive))
  }

  /** Exactly when ApplyDecay stores what the documented formula gives, beyond the first 30
      days: when the days beyond them are enough to bring the score down to the floor. */
  lemma DocumentedDecayExactly(record: ValidatorRecord, input: DecayInput)
    requires Sound(record) && ValidateDecayInput(input).None? && input.daysInactive > DECAY_INACTIVITY_DAYS
    ensures var (updated, _) := ApplyDecay(record, input).value;
            var score, n := DomainScore(record, input.domain), input.daysInactive - DECAY_INACTIVITY_DAYS;
            DomainScore(updated, input.domain) == DocumentedScore(score, input.daysInactive)
            <==> Times(score, Pow(1.0 - DECAY_RATE, n)) <= REPUTATION_FLOOR
  {
    hide Normalize, MeanScore, Blank, Sound, DomainScore, WithUpdatedDomainScore, DecayedScore, DocumentedScore;
    var score, n := DomainScore(record, input.domain), input.daysInactive - DECAY_INACTIVITY_DAYS;
    ScoreInUnit(record, input.domain);
    ScoreIsZeroOrInBand(record, input.domain);
    ApplyIsRescore(record, Decay(input), input.domain);
    DocumentedIsLonger(score, n);
    AtFloorExactly(score, n);
    if score == 0.0 {
      DecayDirection(score, n);
      DecayDirection(score, n + DECAY_INACTIVITY_DAYS);
    } else {
      AllDaysDifferExactly(score, n);
    }
  }

  lemma DocumentedIsLonger(score: real, n: nat)
    ensures DocumentedScore(score, n + DECAY_INACTIVITY_DAYS) == DecayedScore(score, n + DECAY_INACTIVITY_DAYS)
  {
  }

  lemma AtFloorExactly(score: real, n: nat)
    ensures DecayedScore(score, n) == REPUTATION_FLOOR <==> Times(score, Pow(1.0 - DECAY_RATE, n)) <= REPUTATION_FLOOR
  {
    hide Times, Pow;
  }

  lemma ScoreIsZeroOrInBand(record: ValidatorRecord, domain: string)
    requires Sound(record)
    ensures DomainScore(record, domain) == 0.0 || InBand(DomainScore(record, domain))
  {
    hide MeanScore, Normalize;
  }

  lemma DecayedIs(score: real, days: nat)
    ensures DecayedScore(score, days) == DecayBy(score, Pow(1.0 - DECAY_RATE, days))
  {
  }

  lemma ThirtyDaysAreStrict()
    ensures Pow(1.0 - DECAY_RATE, 30) < 1.0
  {
    FactorInUnit(29);
  }

  lemma DecayByStrict(score: real, p: real)
    requires InBand(score) && 0.0 < p < 1.0
    ensures DecayBy(score, p) == score <==> score == REPUTATION_FLOOR
  {
    TimesStrict(p, 1.0, score);
    TimesCommutes(score, p);
  }

  /** Two absences one after the other decay a score exactly as far as one long absence,
      in spite of the floor. */
  lemma DecayComposes(score: real, a: nat, b: nat)
    requires InBand(score)
    ensures DecayedScore(DecayedScore(score, a), b) == DecayedScore(score, a + b)
  {
    FactorInUnit(a);
    FactorInUnit(b);
    PowAdd(1.0 - DECAY_RATE, a, b);
    assert Pow(1.0 - DECAY_RATE, a + b) == Times(Pow(1.0 - DECAY_RATE, a), Pow(1.0 - DECAY_RATE, b));
    hide Times;
    DecayByComposes(score, Pow(1.0 - DECAY_RATE, a), Pow(1.0 - DECAY_RATE, b));
    hide DecayBy;
  }

  /** The law on records: absences of 30 + a and 30 + b days, each decayed once, leave the
      same score as one absence of 30 + a + b days. */
  lemma DecayComposesOnRecords(record: ValidatorRecord, input: DecayInput, a: nat, b: nat)
    requires Sound(record) && ValidateDecayInput(input).None? && InBand(DomainScore(record, input.domain))
    ensures var once := Replay(record, [AfterDays(input, a), AfterDays(input, b)]);
            DomainScore(once, input.domain) == DomainScore(Apply(record, AfterDays(input, a + b)), input.domain)
  {
    hide DecayedScore, DomainScore, Normalize, Sound, Apply, Rescore;
    var d, first, second, both := input.domain, AfterDays(input, a), AfterDays(input, b), AfterDays(input, a + b);
    var score := DomainScore(record, d);
    ReplayTwo(record, first, second);
    ApplyIsRescore(record, first, d);
    ApplyIsRescore(Apply(record, first), second, d);
    ApplyIsRescore(record, both, d);
    RescoreAfterDays(score, input, a);
    RescoreAfterDays(score, input, a + b);
    RescoreAfterDays(DecayedScore(score, a), input, b);
    DecayComposes(score, a, b);
  }

  lemma ReplayTwo(record: ValidatorRecord, first: Operation, second: Operation)
    ensures Replay(record, [first, second]) == Apply(Apply(record, first), second)
  {
    hide Apply;
    assert [first, second][..1] == [first] && [first][..0] == [];
    assert Replay(record, [first]) == Apply(Replay(record, []), first);
  }

  lemma RescoreAfterDays(score: real, input: DecayInput, days: nat)
    requires InBand(score) && ValidateDecayInput(input).None?
    ensures Rescore(score, AfterDays(input, days)) == DecayedScore(score, days)
    ensures Accepted(AfterDays(input, days)) && DomainOf(AfterDays(input, days)) == Normalize(input.domain)
    ensures InBand(DecayedScore(score, days))
  {
    ZeroDays(score);
    DecayedInBand(score, days);
    hide DecayedScore, Normalize, Blank;
  }

  lemma DecayedInBand(score: real, days: nat)
    ensures InBand(DecayedScore(score, days))
  {
    hide Pow, Times;
  }

  function AfterDays(input: DecayInput, days: nat): Operation {
    Decay(input.(daysInactive := DECAY_INACTIVITY_DAYS + days))
  }

  lemma ZeroDays(score: real)
    ensures InBand(score) ==> DecayedScore(score, 0) == score
  {
  }

  /** n effective days lose at most a thousandth of the old score per day. */
  lemma DecayIsGradual(score: real, n: nat)
    requires InBand(score)
    ensures DecayedScore(score, n) >= Times(1.0 - 0.001 * n as real, score)
  {
    Bernoulli(n);
    FactorInUnit(n);
    DecayByBounds(score, Pow(1.0 - DECAY_RATE, n), 1.0 - DECAY_RATE * n as real);
    hide DecayBy;
  }

  lemma {:induction false} Bernoulli(n: nat)
    ensures Pow(1.0 - DECAY_RATE, n) >= 1.0 - DECAY_RATE * n as real
  {
    if n > 0 {
      Bernoulli(n - 1);
    }
  }

  lemma {:induction false} InverseBernoulli(n: nat)
    ensures Pow(1.0 - DECAY_RATE, n) * (1.0 + DECAY_RATE * n as real) <= 1.0
  {
    if n > 0 {
      InverseBernoulli(n - 1);
      FactorInUnit(n - 1);
      var p, q := Pow(1.0 - DECAY_RATE, n - 1), 1.0 + DECAY_RATE * (n - 1) as real;
      var factor := 0.999 * (q + 0.001);
      MulMonotone(factor, q, p);
      assert Pow(1.0 - DECAY_RATE, n) * (1.0 + DECAY_RATE * n as real) == (0.999 * p) * (q + 0.001) == factor * p;
    }
  }

  /** After 5667 effective days every score is exactly at the floor. */
  lemma DecayReachesFloor(score: real, n: nat)
    requires InBand(score) && n >= 5667
    ensures DecayedScore(score, n) == REPUTATION_FLOOR
  {
    var p, q := Pow(1.0 - DECAY_RATE, n), 1.0 + DECAY_RATE * n as real;
    InverseBernoulli(n);
    FactorInUnit(n);
    MulMonotone(6.667, q, p);
    DecayByBounds(score, p, 0.0);
    hide DecayBy;
  }

  /** More days never leave a higher score, and a higher score never decays to a lower one. */
  lemma DecayIsMonotone(x: real, y: real, m: nat, n: nat)
    requires InBand(x) && x <= y && m <= n
    ensures DecayedScore(x, n) <= DecayedScore(y, n) && DecayedScore(x, n) <= DecayedScore(x, m)
  {
    FactorInUnit(n);
    DecayByNonExpansive(x, y, Pow(1.0 - DECAY_RATE, n));
    assert m + (n - m) == n;
    DecayComposes(x, m, n - m);
    DecayDirection(DecayedScore(x, m), n - m);
    hide DecayBy;
  }
}
