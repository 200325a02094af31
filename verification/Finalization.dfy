/** From a consensus result to a stored validation (core/consensus, store/validation.go). */
module Finalization {
  import opened Consensus
  import opened ConsensusLaws
  import opened StoreModel
  import opened Text
  import opened Verdicts
  import opened Wrappers

  /** The record of a decided claim: its verdict, score and rate are those of the result. */
  function RecordOf(result: ConsensusResult, claimId: string, domain: string, epoch: Uint64,
      merkleRoot: string, finalizedAt: int)
    : ValidationRecord
  {
    ValidationRecord(claimId, domain, result.verdict, result.confidenceScore, result.participationRate,
      result.validatorCount, epoch, merkleRoot, finalizedAt)
  }

  lemma ResultInRange(votes: seq<Vote>, validatorSetSize: int)
    requires votes != [] && AllValid(votes)
    ensures var r := Decide(votes, validatorSetSize);
            && r.Success?
            && r.value.verdict in CANDIDATES
            && 0.0 <= r.value.confidenceScore <= 1.0
            && r.value.participationRate == ParticipationRate(votes, validatorSetSize)
  {
    DecisionIs(votes, validatorSetSize);
    var winner := CANDIDATES[WinnerIndex(BreakdownOf(votes))];
    VerdictExactly(votes, validatorSetSize, winner);
    hide Decide, Quorum, Margin, ConfidenceOf, ParticipationRate, BreakdownOf;
    WeightsInUnit(votes);
    forall w | w in CANDIDATES && Margin(votes, w) > 0.0 ensures 0.0 < ConfidenceOf(votes, w) <= 1.0 {
      ConfidenceIsAverage(votes, w, 0.0, 1.0);
    }
    forall w | w in CANDIDATES ensures Margin(votes, w) == 2.0 * MassIn(BreakdownOf(votes), w) - TotalMass(votes) {
      MassInIs(votes, w);
    }
  }

  lemma MassInIs(votes: seq<Vote>, w: Verdict)
    requires w in CANDIDATES
    ensures Margin(votes, w) == 2.0 * MassIn(BreakdownOf(votes), w) - TotalMass(votes)
  {
    MarginIsTwiceMassLessTotal(votes, w);
  }

  /** The store accepts the result of a consensus exactly when the votes did not outnumber the
      set: a participation rate above 1 is returned by one package and refused by the other. */
  lemma StorableExactly(votes: seq<Vote>, validatorSetSize: int, claimId: string, domain: string, epoch: Uint64,
      merkleRoot: string, finalizedAt: int)
    requires votes != [] && AllValid(votes)
    requires !Blank(claimId) && !Blank(domain) && finalizedAt != ZERO_TIME
    ensures Decide(votes, validatorSetSize).Success?
    ensures ValidValidationRecord(
              RecordOf(Decide(votes, validatorSetSize).value, claimId, domain, epoch, merkleRoot, finalizedAt))
            <==> validatorSetSize <= 0 || |votes| <= validatorSetSize
  {
    hide Decide, Blank, ParticipationRate;
    ResultInRange(votes, validatorSetSize);
    RateIsFractionExactly(votes, validatorSetSize);
  }
}
