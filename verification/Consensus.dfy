/** Weighted vote aggregation, quorum, strict majority and confidence
    (core/consensus/consensus.go), over exact reals. */
module Consensus {
  import opened Reals
  import opened Sums
  import opened Verdicts
  import opened Wrappers

  const QUORUM_THRESHOLD: real := 2.0 / 3.0
  const VERDICT_MAJORITY_THRESHOLD: real := 0.50

  datatype Vote = Vote(
    validatorId: string,
    verdict: Verdict,
    confidence: real,
    domainReputation: real,
    biasCoefficient: real,
    validatorSetSize: int)

  datatype Breakdown = Breakdown(
    supported: real,
    unsupported: real,
    misleading: real,
    indeterminate: real,
    totalMass: real)

  datatype ConsensusResult = ConsensusResult(
    verdict: Verdict,
    confidenceScore: real,
    breakdown: Breakdown,
    participationRate: real,
    validatorCount: nat)

  datatype ConsensusError = NoVotes | InvalidVote(index: nat)

  predicate ValidVote(v: Vote) {
    && v.validatorId != ""
    && InUnit(v.confidence)
    && InUnit(v.domainReputation)
    && InUnit(v.biasCoefficient)
    && !v.verdict.Unrecognised?
  }

  /** The index of the first vote that is refused, or the number of votes. */
  function FirstInvalid(votes: seq<Vote>): (i: nat)
    ensures i <= |votes|
    ensures i < |votes| ==> !ValidVote(votes[i])
    ensures forall j | 0 <= j < i :: ValidVote(votes[j])
  {
    if votes == [] || !ValidVote(votes[0]) then 0 else 1 + FirstInvalid(votes[1..])
  }

  function AdjustedWeight(v: Vote): real {
    v.confidence * v.domainReputation * (1.0 - v.biasCoefficient)
  }

  // ----- aggregation -----

  function MassFor(w: Verdict): Vote -> real {
    (v: Vote) => if v.verdict == w then AdjustedWeight(v) else 0.0
  }

  /** What the votes for verdict w weigh. */
  function Mass(votes: seq<Vote>, w: Verdict): real {
    Sum(MassFor(w), votes)
  }

  function TotalMass(votes: seq<Vote>): real {
    Sum(AdjustedWeight, votes)
  }

  function BreakdownOf(votes: seq<Vote>): Breakdown {
    Breakdown(
      Mass(votes, Supported),
      Mass(votes, Unsupported),
      Mass(votes, Misleading),
      Mass(votes, Indeterminate),
      TotalMass(votes))
  }

  method AggregateWeights(votes: seq<Vote>) returns (b: Breakdown)
    ensures b == BreakdownOf(votes)
  {
    b := Breakdown(0.0, 0.0, 0.0, 0.0, 0.0);
    for i := 0 to |votes|
      invariant b == BreakdownOf(votes[..i])
    {
      var v := votes[i];
      var w := AdjustedWeight(v);
      forall verdict ensures Mass(votes[..i + 1], verdict) == Mass(votes[..i], verdict) + MassFor(verdict)(v) {
        SumPrefix(MassFor(verdict), votes, i);
      }
      SumPrefix(AdjustedWeight, votes, i);
      match v.verdict {
        case Supported => b := b.(supported := b.supported + w);
        case Unsupported => b := b.(unsupported := b.unsupported + w);
        case Misleading => b := b.(misleading := b.misleading + w);
        case Indeterminate => b := b.(indeterminate := b.indeterminate + w);
        case Unrecognised(_) =>
      }
      b := b.(totalMass := b.totalMass + w);
    }
    assert votes[..|votes|] == votes;
  }

  // ----- winner -----

  function MassIn(b: Breakdown, w: Verdict): real
    requires w in CANDIDATES
  {
    match w
    case Supported => b.supported
    case Unsupported => b.unsupported
    case Misleading => b.misleading
    case Indeterminate => b.indeterminate
  }

  /** Candidate i has the greatest mass, and no earlier candidate has as much. */
  ghost predicate IsWinner(b: Breakdown, i: nat) {
    && i < 4
    && (forall j | 0 <= j < 4 :: MassIn(b, CANDIDATES[j]) <= MassIn(b, CANDIDATES[i]))
    && (forall j | 0 <= j < i :: MassIn(b, CANDIDATES[j]) < MassIn(b, CANDIDATES[i]))
  }

  function WinnerIndex(b: Breakdown): (i: nat)
    ensures IsWinner(b, i)
    ensures forall k: nat | IsWinner(b, k) :: k == i
  {
    var i := if b.unsupported > b.supported then 1 else 0;
    var j := if b.misleading > MassIn(b, CANDIDATES[i]) then 2 else i;
    if b.indeterminate > MassIn(b, CANDIDATES[j]) then 3 else j
  }

  method FindWinner(b: Breakdown) returns (winner: Verdict, mass: real)
    ensures winner == CANDIDATES[WinnerIndex(b)] && mass == MassIn(b, winner)
  {
    winner, mass := CANDIDATES[0], MassIn(b, CANDIDATES[0]);
    ghost var at := 0;
    for i := 1 to |CANDIDATES|
      invariant at < i && winner == CANDIDATES[at] && mass == MassIn(b, winner)
      invariant forall j | 0 <= j < i :: MassIn(b, CANDIDATES[j]) <= mass
      invariant forall j | 0 <= j < at :: MassIn(b, CANDIDATES[j]) < mass
    {
      var candidate := CANDIDATES[i];
      if MassIn(b, candidate) > mass {
        winner, mass, at := candidate, MassIn(b, candidate), i;
      }
    }
    assert IsWinner(b, at);
  }

  // ----- confidence -----

  function ConfidenceMass(v: Vote): real {
    v.confidence * AdjustedWeight(v)
  }

  function ConfidenceMassFor(w: Verdict): Vote -> real {
    (v: Vote) => if v.verdict == w then ConfidenceMass(v) else 0.0
  }

  function ConfidenceOf(votes: seq<Vote>, w: Verdict): real {
    if Mass(votes, w) == 0.0 then 0.0 else Sum(ConfidenceMassFor(w), votes) / Mass(votes, w)
  }

  method ComputeConfidence(votes: seq<Vote>, winner: Verdict) returns (confidence: real)
    ensures confidence == ConfidenceOf(votes, winner)
  {
    var weightedConfidenceSum, weightSum := 0.0, 0.0;
    for i := 0 to |votes|
      invariant weightedConfidenceSum == Sum(ConfidenceMassFor(winner), votes[..i])
      invariant weightSum == Mass(votes[..i], winner)
    {
      var v := votes[i];
      SumPrefix(ConfidenceMassFor(winner), votes, i);
      SumPrefix(MassFor(winner), votes, i);
      if v.verdict != winner {
        continue;
      }
      var w := AdjustedWeight(v);
      weightedConfidenceSum := weightedConfidenceSum + v.confidence * w;
      weightSum := weightSum + w;
    }
    assert votes[..|votes|] == votes;
    if weightSum == 0.0 {
      return 0.0;
    }
    confidence := weightedConfidenceSum / weightSum;
  }

  // ----- the decision -----

  function SetSize(votes: seq<Vote>, validatorSetSize: int): (n: nat)
    ensures votes != [] ==> n > 0
  {
    if validatorSetSize <= 0 then |votes| else validatorSetSize
  }

  /** The fraction of the validator set that voted. */
  function ParticipationRate(votes: seq<Vote>, validatorSetSize: int): real
    requires votes != []
  {
    |votes| as real / SetSize(votes, validatorSetSize) as real
  }

  function Undecided(votes: seq<Vote>, participationRate: real): ConsensusResult {
    ConsensusResult(Indeterminate, 0.0, BreakdownOf(votes), participationRate, |votes|)
  }

  function Decide(votes: seq<Vote>, validatorSetSize: int): Result<ConsensusResult, ConsensusError> {
    var bad := FirstInvalid(votes);
    if votes == [] then
      Failure(NoVotes)
    else if bad < |votes| then
      Failure(InvalidVote(bad))
    else
      var rate := ParticipationRate(votes, validatorSetSize);
      var b := BreakdownOf(votes);
      var winner := CANDIDATES[WinnerIndex(b)];
      if rate < QUORUM_THRESHOLD || b.totalMass == 0.0
         || MassIn(b, winner) / b.totalMass <= VERDICT_MAJORITY_THRESHOLD then
        Success(Undecided(votes, rate))
      else
        Success(ConsensusResult(winner, ConfidenceOf(votes, winner), b, rate, |votes|))
  }

  method ComputeConsensus(votes: seq<Vote>, validatorSetSize: int) returns (r: Result<ConsensusResult, ConsensusError>)
    ensures r == Decide(votes, validatorSetSize)
  {
    if |votes| == 0 {
      return Failure(NoVotes);
    }
    var size := validatorSetSize;
    if size <= 0 {
      size := |votes|;
    }
    for i := 0 to |votes|
      invariant forall j | 0 <= j < i :: ValidVote(votes[j])
    {
      if !ValidVote(votes[i]) {
        return Failure(InvalidVote(i));
      }
    }
    var participationRate := |votes| as real / size as real;
    var breakdown := AggregateWeights(votes);
    if participationRate < QUORUM_THRESHOLD || breakdown.totalMass == 0.0 {
      return Success(ConsensusResult(Indeterminate, 0.0, breakdown, participationRate, |votes|));
    }
    var winner, winnerMass := FindWinner(breakdown);
    var majorityFraction := winnerMass / breakdown.totalMass;
    if majorityFraction <= VERDICT_MAJORITY_THRESHOLD {
      return Success(ConsensusResult(Indeterminate, 0.0, breakdown, participationRate, |votes|));
    }
    var confidence := ComputeConfidence(votes, winner);
    r := Success(ConsensusResult(winner, confidence, breakdown, participationRate, |votes|));
  }
}
