/** The synthetic pool: validator names, and the reputation each validator starts with. */
module SimPool {
  import opened ReputationLaws
  import opened SimModel
  import opened Text
  import opened Reputation

  // ----- names -----

  /** The number a string of decimal digits denotes. */
  function Parse(s: string): int {
    if s == "" then 0 else 10 * Parse(s[..|s| - 1]) + (s[|s| - 1] as int - '0' as int)
  }

  lemma {:induction false} ParseDecimal(n: nat)
    ensures Parse(Decimal(n)) == n
    ensures forall c | c in Decimal(n) :: '0' <= c <= '9'
  {
    if n >= 10 {
      ParseDecimal(n / 10);
    }
  }

  lemma {:induction false} ParseLeadingZeros(k: nat, s: string)
    ensures Parse(seq(k, _ => '0') + s) == Parse(s)
  {
    var zeros := seq(k, _ => '0');
    if s != "" {
      ParseLeadingZeros(k, s[..|s| - 1]);
      assert (zeros + s)[..|zeros + s| - 1] == zeros + s[..|s| - 1];
    } else if k > 0 {
      ParseLeadingZeros(k - 1, "");
      assert (zeros + s)[..k - 1] == seq(k - 1, _ => '0') + "";
    }
  }

  lemma ParsePadded(n: nat, width: nat)
    ensures Parse(Padded(n, width)) == n
    ensures Padded(n, width) != "" && forall c | c in Padded(n, width) :: '0' <= c <= '9'
  {
    ParseDecimal(n);
    var s := Decimal(n);
    if |s| < width {
      ParseLeadingZeros(width - |s|, s);
    }
  }

  /** Validator names need no trimming and are distinct, past 9999 too. */
  lemma NamesAreDistinct(i: nat, j: nat)
    ensures TrimSpace(ValidatorName(i)) == ValidatorName(i)
    ensures ValidatorName(i) == ValidatorName(j) ==> i == j
  {
    ParsePadded(i, 4);
    ParsePadded(j, 4);
    hide Padded, Parse;
    var name := ValidatorName(i);
    assert name[|name| - 1] in Padded(i, 4);
    assert Trimmed(name);
    assert name[10..] == Padded(i, 4);
    assert ValidatorName(j)[10..] == Padded(j, 4);
  }

  /** The layout of names: a prefix and the number, with leading zeros up to the width. */
  lemma NameLayout(i: nat)
    ensures var name := ValidatorName(i);
            && |name| >= 14 && name[..10] == "validator-"
            && (forall c | c in name[10..] :: '0' <= c <= '9') && Parse(name[10..]) == i
            && (|name| > 14 ==> name[10] != '0')
    ensures var name := ClaimName(i);
            && |name| >= 16 && name[..10] == "sim-claim-"
            && (forall c | c in name[10..] :: '0' <= c <= '9') && Parse(name[10..]) == i
            && (|name| > 16 ==> name[10] != '0')
  {
    ParsePadded(i, 4);
    ParsePadded(i, 6);
    PaddedWidth(i, 4);
    PaddedWidth(i, 6);
    hide Padded, Parse;
    assert ValidatorName(i)[10..] == Padded(i, 4) && ClaimName(i)[10..] == Padded(i, 6);
  }

  lemma PaddedWidth(n: nat, width: nat)
    requires width > 1
    ensures |Padded(n, width)| >= width && (|Padded(n, width)| > width ==> Padded(n, width)[0] != '0')
  {
    NoLeadingZero(n);
  }

  lemma {:induction false} NoLeadingZero(n: nat)
    ensures n > 0 ==> Decimal(n)[0] != '0'
    ensures |Decimal(n)| > 1 ==> n > 0
  {
    if n >= 10 {
      NoLeadingZero(n / 10);
    }
  }

  lemma NamesNotBlank(i: nat)
    ensures !Blank(ValidatorName(i)) && !Blank(TrimSpace(ValidatorName(i))) && !Blank(ClaimName(i))
  {
    hide Padded;
    VisibleStartSurvives(ValidatorName(i));
    VisibleStartSurvives(ClaimName(i));
  }

  // ----- reputation injection -----

  /** One synthetic update: a first score is the floor, later ones gain 0.05. */
  lemma RaiseStep(record: ValidatorRecord, domain: string)
    requires Sound(record) && !Blank(record.validatorId) && !Blank(domain)
    ensures var r := ApplyPostFinalizationUpdate(record, SyntheticOutcome(record.validatorId, domain));
            && r.Success?
            && Sound(r.value.0) && r.value.0.validatorId == record.validatorId
            && DomainScore(r.value.0, domain) ==
                 Clamp(DomainScore(record, domain) + DELTA_HIGH, REPUTATION_FLOOR, REPUTATION_CEILING)
  {
    var outcome := SyntheticOutcome(record.validatorId, domain);
    UpdateIsRescore(record, outcome, domain);
    hide DomainScore, Sound, ApplyPostFinalizationUpdate, Normalize, Blank;
  }

  /** The score of the updated domain after one accepted update. */
  lemma UpdateIsRescore(record: ValidatorRecord, outcome: VoteOutcome, domain: string)
    requires Sound(record) && ValidateOutcome(outcome).None? && outcome.domain == domain
    ensures var r := ApplyPostFinalizationUpdate(record, outcome);
            && r.Success?
            && Sound(r.value.0) && r.value.0.validatorId == record.validatorId
            && DomainScore(r.value.0, domain) ==
                 Clamp(DomainScore(record, domain) + ComputeDelta(outcome).0, REPUTATION_FLOOR, REPUTATION_CEILING)
  {
    ApplyIsRescore(record, Operation.Update(outcome), domain);
    hide DomainScore, Sound, Normalize, MeanScore, ComputeDelta, Clamp, ValidateOutcome;
  }

  /** Enough iterations are left to come within 0.05 of the target. */
  predicate EnoughFuel(score: real, target: real, fuel: nat) {
    if score < REPUTATION_FLOOR then
      score == 0.0 && fuel >= 17
    else
      score <= target && score + 0.05 * fuel as real >= target - 0.05
  }

  lemma {:induction false} RaiseReaches(record: ValidatorRecord, domain: string, target: real, fuel: nat, more: nat)
    requires Sound(record) && !Blank(record.validatorId) && !Blank(domain) && InBand(target)
    requires EnoughFuel(DomainScore(record, domain), target, fuel) && more >= fuel
    ensures var raised := Raise(record, domain, target, fuel);
            && Sound(raised) && raised.validatorId == record.validatorId
            && REPUTATION_FLOOR <= DomainScore(raised, domain)
            && target - 0.05 <= DomainScore(raised, domain) <= target
            && Raise(record, domain, target, more) == raised
    decreases fuel
  {
    hide Sound, DomainScore, ApplyPostFinalizationUpdate;
    if fuel > 0 && DomainScore(record, domain) < target - 0.05 {
      RaiseStep(record, domain);
      var next := ApplyPostFinalizationUpdate(record, SyntheticOutcome(record.validatorId, domain)).value.0;
      RaiseReaches(next, domain, target, fuel - 1, more - 1);
    }
  }

  /** For every target in [0.15, 1] a fresh validator ends at most 0.05 below the target and
      never above it. Seventeen iterations do, so the cap of forty never ends the loop. */
  lemma InjectionIsClose(i: nat, domain: string, target: real)
    requires !Blank(domain) && InBand(target)
    ensures var r := InjectDomainReputation(FreshRecord(i), domain, target);
            && Sound(r) && !Blank(r.validatorId) && r.validatorId == ValidatorName(i)
            && InBand(DomainScore(r, domain))
            && target - 0.05 <= DomainScore(r, domain) <= target
            && r == Raise(FreshRecord(i), domain, target, 17)
  {
    var start := FreshRecord(i);
    NamesNotBlank(i);
    NamesAreDistinct(i, i);
    assert Sound(start) && DomainScore(start, domain) == 0.0;
    hide Sound, DomainScore, FreshRecord, ValidatorName, Raise;
    RaiseReaches(start, domain, target, 17, MAX_ITERATIONS);
  }

  /** The injection into any record: whoever is at most 0.10 below the target, or above it, is left
      alone; whoever is lower ends at most 0.05 below it. */
  lemma InjectionIs(record: ValidatorRecord, domain: string, target: real)
    requires Sound(record) && !Blank(record.validatorId) && !Blank(domain) && InBand(target)
    ensures var r, before := InjectDomainReputation(record, domain, target), DomainScore(record, domain);
            && Sound(r) && r.validatorId == record.validatorId
            && (before >= target - 0.10 ==> r == record)
            && (before < target - 0.10 ==> target - 0.05 <= DomainScore(r, domain) <= target)
  {
    ScoreIsZeroOrInBand(record, domain);
    hide Sound, DomainScore, ApplyPostFinalizationUpdate;
    if DomainScore(record, domain) < target - 0.10 {
      RaiseReaches(record, domain, target, 17, MAX_ITERATIONS);
    }
  }

  /** Injected scores move in steps of 0.05 from the floor. */
  ghost predicate OnGrid(score: real) {
    exists j: nat :: score == GridPoint(j)
  }

  function GridPoint(j: nat): real {
    REPUTATION_FLOOR + DELTA_HIGH * j as real
  }

  lemma GridStep(score: real)
    requires score == 0.0 || (OnGrid(score) && score <= REPUTATION_CEILING)
    ensures OnGrid(Clamp(score + DELTA_HIGH, REPUTATION_FLOOR, REPUTATION_CEILING))
  {
    if score == 0.0 {
      assert GridPoint(0) == REPUTATION_FLOOR;
    } else {
      var j: nat :| score == GridPoint(j);
      assert GridPoint(j + 1) == score + DELTA_HIGH;
      assert GridPoint(17) == REPUTATION_CEILING;
    }
  }

  lemma {:induction false} RaiseOnGrid(record: ValidatorRecord, domain: string, target: real, fuel: nat)
    requires Sound(record) && !Blank(record.validatorId) && !Blank(domain)
    requires DomainScore(record, domain) == 0.0
             || (OnGrid(DomainScore(record, domain)) && DomainScore(record, domain) <= REPUTATION_CEILING)
    ensures var score := DomainScore(Raise(record, domain, target, fuel), domain);
            score == 0.0 || OnGrid(score)
    decreases fuel
  {
    hide Sound, DomainScore, ApplyPostFinalizationUpdate, OnGrid;
    if fuel > 0 && DomainScore(record, domain) < target - 0.05 {
      RaiseStep(record, domain);
      GridStep(DomainScore(record, domain));
      var next := ApplyPostFinalizationUpdate(record, SyntheticOutcome(record.validatorId, domain)).value.0;
      RaiseOnGrid(next, domain, target, fuel - 1);
    }
  }

  /** No validator starts above 0.95; one whose target is above 0.95 starts there, and one
      whose target is the floor starts at the floor. */
  lemma StartingScore(i: nat, domain: string, target: real)
    requires !Blank(domain) && InBand(target) && target < 1.0
    ensures var score := DomainScore(InjectDomainReputation(FreshRecord(i), domain, target), domain);
            && score <= 0.95
            && (target > 0.95 ==> score == 0.95)
            && (target == REPUTATION_FLOOR ==> score == REPUTATION_FLOOR)
  {
    hide Sound, DomainScore, FreshRecord, ValidatorName, Raise, InjectDomainReputation, OnGrid, Blank;
    FreshRecordIs(i, domain);
    InjectionIsClose(i, domain, target);
    RaiseOnGrid(FreshRecord(i), domain, target, 17);
    GridNearTarget(DomainScore(InjectDomainReputation(FreshRecord(i), domain, target), domain), target);
  }

  lemma FreshRecordIs(i: nat, domain: string)
    ensures var r := FreshRecord(i);
            Sound(r) && !Blank(r.validatorId) && DomainScore(r, domain) == 0.0
  {
    NamesNotBlank(i);
    hide ValidatorName;
  }

  lemma GridNearTarget(score: real, target: real)
    requires OnGrid(score) && InBand(target) && target < 1.0 && target - 0.05 <= score <= target
    ensures score <= 0.95
    ensures target > 0.95 ==> score == 0.95
    ensures target == REPUTATION_FLOOR ==> score == REPUTATION_FLOOR
  {
    var j: nat :| score == GridPoint(j);
  }

  /** A target is the mean of two draws, scaled from [0, 1) to [0.15, 1). */
  lemma TargetIs(s: Stream, i: nat)
    ensures TargetReputation(s, i) == 0.15 + 0.85 * (s.floats(2 * i) + s.floats(2 * i + 1)) / 2.0
  {
  }

  /** A portion of the pool is the share of it, rounded down. */
  lemma PortionIs(size: int, rate: real)
    ensures Portion(size, rate) as real <= size as real * rate < Portion(size, rate) as real + 1.0
  {
  }

  lemma TargetsInBand(s: Stream, i: nat)
    ensures InBand(TargetReputation(s, i))
  {
    ScaledInBand(s.floats(2 * i));
    ScaledInBand(s.floats(2 * i + 1));
    hide Scaled;
  }

  lemma ScaledInBand(draw: real)
    requires 0.0 <= draw < 1.0
    ensures InBand(Scaled(draw))
  {
  }
}
