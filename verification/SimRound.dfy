/** What one round of the simulation keeps, for every stream of draws. */
module SimRound {
  import opened Bias
  import opened Consensus
  import opened ConsensusLaws
  import opened Reals
  import opened Reputation
  import opened ReputationLaws
  import opened SimModel
  import opened SimPool
  import opened Sums
  import opened Text
  import opened Verdicts
  import opened Wrappers

  predicate Honest(v: SimValidator) {
    !v.isColluder && v.biasDirection == 0.0
  }

  predicate VerdictFits(c: Config, v: SimValidator, truth: Verdict, verdict: Verdict) {
    if v.isColluder then verdict == c.collusionVerdict
    else if v.biasDirection > 0.0 then verdict == truth || verdict == OppositeVerdict(truth)
    else verdict == truth
  }

  predicate ConfidenceFits(v: SimValidator, confidence: real) {
    if v.isColluder then 0.8 <= confidence < 1.0
    else if v.biasDirection > 0.0 then 0.4 <= confidence < 0.8
    else 0.4 <= confidence < 0.9
  }

  /** A vote that this validator can cast on a claim with this ground truth. */
  predicate Fits(c: Config, v: SimValidator, truth: Verdict, vote: Vote) {
    && vote.validatorId == v.record.validatorId
    && vote.domainReputation == DomainScore(v.record, c.domain)
    && vote.biasCoefficient == v.biasDirection
    && VerdictFits(c, v, truth, vote.verdict)
    && ConfidenceFits(v, vote.confidence)
  }

  /** The validator at position i plays the part the configuration gives to that position. */
  predicate Cast(c: Config, i: nat, v: SimValidator) {
    && v.record.validatorId == ValidatorName(i)
    && v.isColluder == (i < ColluderCount(c))
    && v.biasDirection == if ColluderCount(c) <= i < ColluderCount(c) + BiasedCount(c) then c.biasStrength else 0.0
  }

  ghost predicate ValidatorOk(c: Config, v: SimValidator) {
    && Sound(v.record)
    && !Blank(v.record.validatorId)
    && InBand(DomainScore(v.record, c.domain))
    && InUnit(v.biasDirection)
    && (v.isColluder ==> !c.collusionVerdict.Unrecognised?)
  }

  ghost predicate PoolOk(c: Config, pool: seq<SimValidator>) {
    && |pool| == c.validatorPoolSize
    && forall i | 0 <= i < |pool| :: ValidatorOk(c, pool[i]) && Cast(c, i, pool[i])
  }

  /** The same validator later: only its record has changed, and an honest validator's score
      has not fallen. */
  predicate Evolved(c: Config, v: SimValidator, v': SimValidator) {
    && v'.record.validatorId == v.record.validatorId
    && v'.isColluder == v.isColluder
    && v'.biasDirection == v.biasDirection
    && (Honest(v) ==> DomainScore(v'.record, c.domain) >= DomainScore(v.record, c.domain))
  }

  // ----- the pool at the start -----

  lemma PortionIsNat(size: nat, rate: real)
    requires 0.0 <= rate
    ensures Portion(size, rate) >= 0
    ensures Portion(size, rate) > 0 ==> rate > 0.0
  {
    MulNonNegative(size as real, rate);
  }

  lemma InitialPoolOk(c: Config, s: Stream)
    requires ValidConfig(c) && !Blank(c.domain)
    ensures PoolOk(c, BuildPool(c, s, c.validatorPoolSize))
  {
    hide ValidatorOk, Cast, ValidatorAt;
    var pool := BuildPool(c, s, c.validatorPoolSize);
    forall i: nat | i < |pool| ensures ValidatorOk(c, pool[i]) && Cast(c, i, pool[i]) {
      InitialValidatorOk(c, s, i);
    }
  }

  lemma InitialValidatorOk(c: Config, s: Stream, i: nat)
    requires ValidConfig(c) && !Blank(c.domain)
    ensures ValidatorOk(c, ValidatorAt(c, s, i)) && Cast(c, i, ValidatorAt(c, s, i))
  {
    hide InjectDomainReputation, FreshRecord, Sound, DomainScore, TargetReputation, Raise, ValidatorName, Blank,
      Portion;
    PortionIsNat(c.validatorPoolSize, c.collusionRate);
    TargetsInBand(s, i);
    InjectionIsClose(i, c.domain, TargetReputation(s, i));
  }

  // ----- votes -----

  lemma VoteFits(c: Config, v: SimValidator, truth: Verdict, s: Stream, at: nat)
    requires InUnit(v.biasDirection)
    ensures Fits(c, v, truth, BuildVote(c, v, truth, s, at))
  {
    hide DomainScore;
  }

  /** How the next draw decides the truth of a claim: 40, 40, 15 and 5 percent. */
  lemma TruthByDraw(s: Stream, st: State)
    ensures var draw, truth := s.floats(st.floatsUsed), TruthOf(s, st);
            && (truth == Supported <==> draw < 0.4)
            && (truth == Unsupported <==> 0.4 <= draw < 0.8)
            && (truth == Misleading <==> 0.8 <= draw < 0.95)
            && (truth == Indeterminate <==> 0.95 <= draw)
  {
  }

  /** How the next draws decide a vote. A biased validator turns against the truth with its bias
      as probability; every confidence is drawn uniformly from its range. */
  lemma VoteByDraws(c: Config, v: SimValidator, truth: Verdict, s: Stream, at: nat)
    ensures var vote, biased := BuildVote(c, v, truth, s, at), !v.isColluder && v.biasDirection > 0.0;
            && (v.isColluder ==> vote.verdict == c.collusionVerdict && vote.confidence == 0.8 + 0.2 * s.floats(at))
            && (biased ==>
                 && (vote.verdict != truth <==> s.floats(at) < v.biasDirection)
                 && vote.confidence == 0.4 + 0.4 * s.floats(at + 1))
            && (!v.isColluder && !biased ==> vote.verdict == truth && vote.confidence == 0.4 + 0.5 * s.floats(at))
  {
    hide DomainScore;
  }

  lemma {:induction false} VotesFit(c: Config, selected: seq<SimValidator>, truth: Verdict, s: Stream, at: nat)
    requires forall v | v in selected :: InUnit(v.biasDirection)
    ensures var votes := BuildVotes(c, selected, truth, s, at).0;
            forall i | 0 <= i < |selected| :: Fits(c, selected[i], truth, votes[i])
  {
    hide Fits, BuildVote;
    if selected != [] {
      var m := |selected| - 1;
      VotesFit(c, selected[..m], truth, s, at);
      assert selected[m] in selected;
      var next := BuildVotes(c, selected[..m], truth, s, at).1;
      VoteFits(c, selected[m], truth, s, next);
    }
  }

  /** Whoever has a name and a score in [0, 1] casts valid votes. */
  predicate CanVote(c: Config, v: SimValidator) {
    && !Blank(v.record.validatorId)
    && InUnit(DomainScore(v.record, c.domain))
    && InUnit(v.biasDirection)
    && (v.isColluder ==> !c.collusionVerdict.Unrecognised?)
  }

  lemma FittingVoteIsValid(c: Config, v: SimValidator, truth: Verdict, vote: Vote)
    requires CanVote(c, v) && Fits(c, v, truth, vote) && truth in CANDIDATES
    ensures ValidVote(vote)
  {
    hide DomainScore;
    assert TrimSpace("") == "";
  }

  lemma OkCanVote(c: Config, v: SimValidator)
    ensures ValidatorOk(c, v) ==> CanVote(c, v)
  {
    hide DomainScore, Sound, Blank;
  }

  /** Every vote of a round passes the consensus engine's checks. */
  lemma VotesValid(c: Config, selected: seq<SimValidator>, votes: seq<Vote>, truth: Verdict)
    requires |votes| == |selected| && truth in CANDIDATES
    requires forall v | v in selected :: CanVote(c, v)
    requires forall i | 0 <= i < |votes| :: Fits(c, selected[i], truth, votes[i])
    ensures AllValid(votes)
  {
    hide CanVote, Fits, ValidVote;
    forall vote | vote in votes ensures ValidVote(vote) {
      var i :| 0 <= i < |votes| && votes[i] == vote;
      assert selected[i] in selected;
      FittingVoteIsValid(c, selected[i], truth, vote);
    }
  }

  lemma AverageInUnit(votes: seq<Vote>)
    ensures 0.0 <= PopulationAverage(votes) <= 1.0
  {
    if votes != [] {
      SumOfUnits(VoteScore, votes);
      QuotientAtLeast(Sum(VoteScore, votes), |votes| as real, 0.0);
      QuotientAtMost(Sum(VoteScore, votes), |votes| as real, 1.0);
    }
  }

  /** The positions of the votes for one verdict. */
  function VotesFor(votes: seq<Vote>, w: Verdict): set<nat> {
    set i: nat | i < |votes| && votes[i].verdict == w
  }

  lemma {:induction false} ScoreCounts(votes: seq<Vote>)
    requires AllValid(votes)
    ensures Sum(VoteScore, votes) == |VotesFor(votes, Supported)| as real
              + 0.5 * (|VotesFor(votes, Misleading)| + |VotesFor(votes, Indeterminate)|) as real
  {
    hide VotesFor;
    if votes == [] {
      forall w ensures VotesFor(votes, w) == {} {
        NoVotesFor(w);
      }
    } else {
      var m := |votes| - 1;
      ScoreCounts(votes[..m]);
      assert ValidVote(votes[m]);
      OneMoreVote(votes, Supported);
      OneMoreVote(votes, Misleading);
      OneMoreVote(votes, Indeterminate);
    }
  }

  lemma NoVotesFor(w: Verdict)
    ensures VotesFor([], w) == {}
  {
  }

  lemma OneMoreVote(votes: seq<Vote>, w: Verdict)
    requires votes != []
    ensures var m := |votes| - 1;
            |VotesFor(votes, w)| == |VotesFor(votes[..m], w)| + if votes[m].verdict == w then 1 else 0
  {
    var m := |votes| - 1;
    var now, before := VotesFor(votes, w), VotesFor(votes[..m], w);
    assert now == if votes[m].verdict == w then before + {m} else before;
  }

  /** The average that votes are measured against: a SUPPORTED vote counts 1, a MISLEADING or
      INDETERMINATE one a half; without votes it is a half. */
  lemma AverageIs(votes: seq<Vote>)
    requires AllValid(votes)
    ensures if votes == [] then PopulationAverage(votes) == 0.5
            else Times(PopulationAverage(votes), |votes| as real) == |VotesFor(votes, Supported)| as real
                   + 0.5 * (|VotesFor(votes, Misleading)| + |VotesFor(votes, Indeterminate)|) as real
  {
    ScoreCounts(votes);
    hide VotesFor, Sum;
    if votes != [] {
      QuotientTimes(Sum(VoteScore, votes), |votes| as real);
    }
  }

  /** The mean score of all votes but one. */
  function OthersAverage(votes: seq<Vote>, i: nat): real
    requires i < |votes| && |votes| >= 2
  {
    Sum(VoteScore, votes[..i] + votes[i + 1..]) / (|votes| - 1) as real
  }

  /** Each validator's own vote is in the average it is measured against. This shrinks every
      deviation by the factor (n - 1) / n, and leaves the average alone exactly when the vote
      agrees with the mean of the others. */
  lemma OwnVoteDampens(votes: seq<Vote>, i: nat)
    requires i < |votes| && |votes| >= 2
    ensures var n, score := |votes| as real, VoteScore(votes[i]);
            && Times(n, score - PopulationAverage(votes)) == Times(n - 1.0, score - OthersAverage(votes, i))
            && (PopulationAverage(votes) == OthersAverage(votes, i) <==> score == OthersAverage(votes, i))
  {
    SumRemove(VoteScore, votes, i);
    MeanWithOne(Sum(VoteScore, votes[..i] + votes[i + 1..]), VoteScore(votes[i]), |votes| as real,
      PopulationAverage(votes), OthersAverage(votes, i));
    hide Sum;
  }

  lemma MeanWithOne(others: real, score: real, n: real, all: real, mean: real)
    requires n >= 2.0 && all == (others + score) / n && mean == others / (n - 1.0)
    ensures Times(n, score - all) == Times(n - 1.0, score - mean)
    ensures all == mean <==> score == mean
  {
    var m := n - 1.0;
    assert all * n == others + score && mean * m == others;
    assert (all - mean) * n == score - mean;
  }

  // ----- reputation updates -----

  /** A participant's update succeeds, keeps its score in the band, and does not lower it
      when the vote was correct. */
  lemma OneUpdate(c: Config, v: SimValidator, vote: Vote, truth: Verdict)
    requires ValidatorOk(c, v) && !Blank(c.domain) && InUnit(vote.confidence)
    ensures var r := ApplyPostFinalizationUpdate(v.record, OutcomeOf(c, v, vote, truth));
            && r.Success?
            && ValidatorOk(c, v.(record := r.value.0))
            && r.value.0.validatorId == v.record.validatorId
            && (vote.verdict == truth ==> DomainScore(r.value.0, c.domain) >= DomainScore(v.record, c.domain))
  {
    hide ApplyPostFinalizationUpdate, DomainScore, Sound, Blank, ComputeDelta, Clamp;
    var outcome := OutcomeOf(c, v, vote, truth);
    UpdateIsRescore(v.record, outcome, c.domain);
    RescoredInBand(DomainScore(v.record, c.domain), outcome);
  }

  lemma RescoredInBand(score: real, outcome: VoteOutcome)
    requires InBand(score) && outcome.participated && !outcome.wasLate
    ensures var after := Clamp(score + ComputeDelta(outcome).0, REPUTATION_FLOOR, REPUTATION_CEILING);
            InBand(after) && (outcome.wasCorrect ==> after >= score)
  {
  }

  lemma {:induction false} UpdatesSucceed(c: Config, pool: seq<SimValidator>, picks: seq<nat>,
      votes: seq<Vote>, truth: Verdict)
    requires PoolOk(c, pool) && !Blank(c.domain)
    requires |picks| == |votes| && forall i | 0 <= i < |picks| :: picks[i] < |pool|
    requires forall i | 0 <= i < |picks| ::
               VerdictFits(c, pool[picks[i]], truth, votes[i].verdict) && InUnit(votes[i].confidence)
    ensures var r := UpdateRecords(c, pool, picks, votes, truth);
            && r.Success?
            && PoolOk(c, r.value)
            && forall i | 0 <= i < |pool| :: Evolved(c, pool[i], r.value[i])
  {
    hide ValidatorOk, ApplyPostFinalizationUpdate, DomainScore, OutcomeOf;
    if picks != [] {
      var m := |picks| - 1;
      UpdatesSucceed(c, pool, picks[..m], votes[..m], truth);
      var rest := UpdateRecords(c, pool, picks[..m], votes[..m], truth).value;
      OneUpdate(c, rest[picks[m]], votes[m], truth);
      assert Evolved(c, pool[picks[m]], rest[picks[m]]);
    }
  }

  /** What the updates of a round leave: the score of each validator picked moves by what its
      own vote earns, cut off at 0.15 and at 1, and nobody else's record changes. */
  lemma {:induction false} UpdatesRescore(c: Config, pool: seq<SimValidator>, picks: seq<nat>, votes: seq<Vote>,
      truth: Verdict, p: nat)
    requires PoolOk(c, pool) && !Blank(c.domain) && p < |pool|
    requires |picks| == |votes| && forall i | 0 <= i < |picks| :: picks[i] < |pool|
    requires forall i, j | 0 <= i < j < |picks| :: picks[i] != picks[j]
    requires forall i | 0 <= i < |picks| ::
               VerdictFits(c, pool[picks[i]], truth, votes[i].verdict) && InUnit(votes[i].confidence)
    ensures var r := UpdateRecords(c, pool, picks, votes, truth);
            && r.Success?
            && |r.value| == |pool|
            && (p !in picks ==> r.value[p] == pool[p])
            && forall i | 0 <= i < |picks| && picks[i] == p ::
                 DomainScore(r.value[p].record, c.domain)
                 == Cut(DomainScore(pool[p].record, c.domain) + Earned(votes[i], truth))
  {
    hide PoolOk, ApplyPostFinalizationUpdate, DomainScore, OutcomeOf, VerdictFits, Evolved, Cut, Earned, Blank;
    if picks != [] {
      var m := |picks| - 1;
      UpdatesRescore(c, pool, picks[..m], votes[..m], truth, p);
      UpdatesSucceed(c, pool, picks[..m], votes[..m], truth);
      var rest := UpdateRecords(c, pool, picks[..m], votes[..m], truth).value;
      assert p in picks <==> p in picks[..m] || p == picks[m];
      assert picks[m] !in picks[..m];
      OneEarns(c, rest, picks[m], votes[m], truth);
    }
  }

  /** What a vote on time earns: 0.05 if its confidence exceeds 0.7, else 0.01, for the truth; and
      as much the other way for anything else. */
  function Earned(vote: Vote, truth: Verdict): real {
    var size := if vote.confidence > 0.7 then 0.05 else 0.01;
    if vote.verdict == truth then size else -size
  }

  lemma OneEarns(c: Config, pool: seq<SimValidator>, p: nat, vote: Vote, truth: Verdict)
    requires PoolOk(c, pool) && p < |pool| && !Blank(c.domain) && InUnit(vote.confidence)
    ensures var v := pool[p];
            var r := ApplyPostFinalizationUpdate(v.record, OutcomeOf(c, v, vote, truth));
            && r.Success?
            && DomainScore(r.value.0, c.domain) == Cut(DomainScore(v.record, c.domain) + Earned(vote, truth))
  {
    hide ApplyPostFinalizationUpdate, DomainScore, Sound, Blank;
    UpdateIsRescore(pool[p].record, OutcomeOf(c, pool[p], vote, truth), c.domain);
  }

  /** A domain of blanks makes the first update fail, whatever else happens. */
  lemma {:induction false} BlankDomainFails(c: Config, pool: seq<SimValidator>, picks: seq<nat>,
      votes: seq<Vote>, truth: Verdict)
    requires Blank(c.domain) && picks != []
    requires |picks| == |votes| && forall i | 0 <= i < |picks| :: picks[i] < |pool|
    requires forall v | v in pool :: !Blank(v.record.validatorId)
    ensures UpdateRecords(c, pool, picks, votes, truth) == Failure(ReputationFailed(Reputation.DomainEmpty))
    decreases |picks|
  {
    hide Blank;
    var m := |picks| - 1;
    if m > 0 {
      BlankDomainFails(c, pool, picks[..m], votes[..m], truth);
    } else {
      assert pool[picks[0]] in pool;
    }
  }

  // ----- bias observations -----

  lemma ObservationAccepted(id: string, domain: string, vote: Vote, average: real, round: nat)
    requires !Blank(id) && !Blank(domain) && ValidVote(vote) && InUnit(average)
    ensures RecordError(id, domain, ObservationOf(vote, average, round)).None?
  {
    NamesNotBlank(round);
    hide Blank, ClaimName;
  }

  lemma {:induction false} RecordingSucceeds(c: Config, windows: Windows, selected: seq<SimValidator>,
      votes: seq<Vote>, average: real, round: nat)
    requires |selected| == |votes| && !Blank(c.domain) && InUnit(average) && AllValid(votes)
    requires forall v | v in selected :: !Blank(v.record.validatorId)
    ensures RecordBias(c, windows, selected, votes, average, round).Success?
  {
    hide Blank, ValidVote, RecordError, Recorded, BiasIn, ObservationOf;
    if selected != [] {
      var m := |selected| - 1;
      assert selected[m] in selected && votes[m] in votes;
      RecordingSucceeds(c, windows, selected[..m], votes[..m], average, round);
      ObservationAccepted(selected[m].record.validatorId, c.domain, votes[m], average, round);
    }
  }

  // ----- the round -----

  lemma PoolPlays(c: Config, s: Stream, st: State)
    requires ValidConfig(c) && Lawful(s) && PoolOk(c, st.pool)
    ensures Playable(c, s, st)
  {
    hide ValidatorOk, Cast;
  }

  /** Each selected validator casts a vote that fits it. */
  ghost predicate AllFit(c: Config, s: Stream, st: State)
    requires Playable(c, s, st)
  {
    forall i | 0 <= i < |VotesOf(c, s, st)| :: Fits(c, SelectedOf(c, s, st)[i], TruthOf(s, st), VotesOf(c, s, st)[i])
  }

  lemma RoundVotes(c: Config, s: Stream, st: State)
    requires Playable(c, s, st) && PoolOk(c, st.pool)
    ensures AllValid(VotesOf(c, s, st)) && AllFit(c, s, st)
  {
    hide ValidatorOk, CanVote, Fits, BuildVotes, ValidVote, PicksOf, Playable;
    var selected := SelectedOf(c, s, st);
    forall v | v in selected ensures CanVote(c, v) && InUnit(v.biasDirection) {
      var i :| 0 <= i < |selected| && selected[i] == v;
      BiasInUnit(c, v);
      OkCanVote(c, v);
    }
    VotesFit(c, selected, TruthOf(s, st), s, st.floatsUsed + 1);
    VotesValid(c, selected, VotesOf(c, s, st), TruthOf(s, st));
  }

  lemma BiasInUnit(c: Config, v: SimValidator)
    ensures ValidatorOk(c, v) ==> InUnit(v.biasDirection) && !Blank(v.record.validatorId)
  {
  }

  lemma FullParticipation(votes: seq<Vote>, size: nat)
    requires |votes| == size > 0
    ensures ParticipationRate(votes, size) == 1.0 && Quorum(votes, size)
  {
    QuotientAtLeast(|votes| as real, size as real, 1.0);
    QuotientAtMost(|votes| as real, size as real, 1.0);
  }

  /** What the consensus engine makes of a round's votes. */
  lemma RoundDecision(c: Config, s: Stream, st: State)
    requires Playable(c, s, st) && PoolOk(c, st.pool) && c.validatorSetSize > 0
    ensures var r := Decide(VotesOf(c, s, st), c.validatorSetSize);
            && r.Success?
            && r.value.participationRate == 1.0 && r.value.validatorCount == c.validatorSetSize
            && r.value.verdict in CANDIDATES
            && (forall w | w in CANDIDATES && Margin(VotesOf(c, s, st), w) > 0.0 :: r.value.verdict == w)
  {
    RoundVotes(c, s, st);
    var votes := VotesOf(c, s, st);
    hide VotesOf, Margin, AllFit, ParticipationRate, PoolOk, Playable, PicksOf;
    FullParticipation(votes, c.validatorSetSize);
    DecisionIs(votes, c.validatorSetSize);
    forall w | w in CANDIDATES && Margin(votes, w) > 0.0
      ensures Decide(votes, c.validatorSetSize).value.verdict == w
    {
      VerdictExactly(votes, c.validatorSetSize, w);
    }
    hide Decide, BreakdownOf, MassIn, ConfidenceOf;
  }

  lemma VoteSuits(c: Config, v: SimValidator, truth: Verdict, vote: Vote)
    requires Fits(c, v, truth, vote)
    ensures VerdictFits(c, v, truth, vote.verdict) && InUnit(vote.confidence)
  {
  }

  ghost predicate AllEvolved(c: Config, pool: seq<SimValidator>, pool': seq<SimValidator>) {
    |pool| == |pool'| && forall i | 0 <= i < |pool| :: Evolved(c, pool[i], pool'[i])
  }

  lemma VotesSuit(c: Config, s: Stream, st: State)
    requires Playable(c, s, st) && PoolOk(c, st.pool)
    ensures var picks, votes := PicksOf(c, s, st), VotesOf(c, s, st);
            forall i | 0 <= i < |picks| ::
              VerdictFits(c, st.pool[picks[i]], TruthOf(s, st), votes[i].verdict) && InUnit(votes[i].confidence)
  {
    RoundVotes(c, s, st);
    var picks, votes := PicksOf(c, s, st), VotesOf(c, s, st);
    hide AllValid, PicksOf, VotesOf, Playable, PoolOk, Fits, VerdictFits;
    forall i | 0 <= i < |picks|
      ensures VerdictFits(c, st.pool[picks[i]], TruthOf(s, st), votes[i].verdict) && InUnit(votes[i].confidence)
    {
      assert SelectedOf(c, s, st)[i] == st.pool[picks[i]];
      VoteSuits(c, st.pool[picks[i]], TruthOf(s, st), votes[i]);
    }
  }

  lemma RoundUpdates(c: Config, s: Stream, st: State)
    requires Playable(c, s, st) && PoolOk(c, st.pool) && !Blank(c.domain)
    ensures var r := UpdatedPool(c, s, st);
            r.Success? && PoolOk(c, r.value) && AllEvolved(c, st.pool, r.value)
  {
    hide PicksOf, VotesOf, Playable, PoolOk, VerdictFits, Evolved, UpdateRecords, Blank;
    VotesSuit(c, s, st);
    UpdatesSucceed(c, st.pool, PicksOf(c, s, st), VotesOf(c, s, st), TruthOf(s, st));
  }

  lemma SelectedHaveNames(c: Config, pool: seq<SimValidator>, picks: seq<nat>)
    requires PoolOk(c, pool) && forall i | 0 <= i < |picks| :: picks[i] < |pool|
    ensures forall v | v in Pick(pool, picks) :: !Blank(v.record.validatorId)
  {
    hide ValidatorOk, Cast;
    forall v | v in Pick(pool, picks) ensures !Blank(v.record.validatorId) {
      var i :| 0 <= i < |picks| && pool[picks[i]] == v;
      BiasInUnit(c, v);
    }
  }

  /** For every stream a round succeeds, everybody selected takes part, the verdict is one of
      the four, and every validator is still sound afterwards. */
  lemma RoundSucceeds(c: Config, s: Stream, st: State, round: nat)
    requires Playable(c, s, st) && PoolOk(c, st.pool) && !Blank(c.domain) && c.validatorSetSize > 0
    ensures var r := SimulateRound(c, s, st, round);
            && r.Success?
            && PoolOk(c, r.value.0.pool)
            && AllEvolved(c, st.pool, r.value.0.pool)
            && r.value.1.consensusVerdict == Decide(VotesOf(c, s, st), c.validatorSetSize).value.verdict
            && r.value.1.consensusVerdict in CANDIDATES
            && r.value.1.correct == (r.value.1.consensusVerdict == TruthOf(s, st))
            && r.value.1.participationRate == 1.0
            && r.value.1.validatorCount == c.validatorSetSize
  {
    hide AllEvolved, AllFit, Decide, UpdatedPool, RecordBias, PopulationAverage, Margin, AllValid, Blank, PicksOf,
      VotesOf, VotesAndNext;
    hide PoolOk;
    RoundDecision(c, s, st);
    RoundUpdates(c, s, st);
    RoundVotes(c, s, st);
    AverageInUnit(VotesOf(c, s, st));
    var pool' := UpdatedPool(c, s, st).value;
    SelectedHaveNames(c, pool', PicksOf(c, s, st));
    hide Pick;
    RecordingSucceeds(c, st.windows, Pick(pool', PicksOf(c, s, st)), VotesOf(c, s, st),
      PopulationAverage(VotesOf(c, s, st)), round);
  }

  /** What a round does to the reputation of each validator. */
  lemma RoundRescores(c: Config, s: Stream, st: State, round: nat, p: nat)
    requires Playable(c, s, st) && PoolOk(c, st.pool) && !Blank(c.domain) && c.validatorSetSize > 0 && p < |st.pool|
    ensures var r, picks, votes := SimulateRound(c, s, st, round), PicksOf(c, s, st), VotesOf(c, s, st);
            && r.Success?
            && |r.value.0.pool| == |st.pool|
            && (p !in picks ==> r.value.0.pool[p] == st.pool[p])
            && forall i | 0 <= i < |picks| && picks[i] == p ::
                 DomainScore(r.value.0.pool[p].record, c.domain)
                 == Cut(DomainScore(st.pool[p].record, c.domain) + Earned(votes[i], TruthOf(s, st)))
  {
    hide AllValid, AllFit, PicksOf, VotesOf, Playable, PoolOk, Fits, VerdictFits, UpdateRecords, Blank, AllEvolved,
      Decide, SimulateRound, Cut, Earned, UpdatedPool;
    RoundSucceeds(c, s, st, round);
    RoundPool(c, s, st, round);
    VotesSuit(c, s, st);
    DistinctAt(c, s, st);
    UpdatedPoolIs(c, s, st);
    UpdatesRescore(c, st.pool, PicksOf(c, s, st), VotesOf(c, s, st), TruthOf(s, st), p);
  }

  lemma UpdatedPoolIs(c: Config, s: Stream, st: State)
    requires Playable(c, s, st)
    ensures UpdatedPool(c, s, st)
            == UpdateRecords(c, st.pool, PicksOf(c, s, st), VotesOf(c, s, st), TruthOf(s, st))
  {
  }

  lemma DistinctAt(c: Config, s: Stream, st: State)
    requires Playable(c, s, st)
    ensures forall i, j | 0 <= i < j < |PicksOf(c, s, st)| :: PicksOf(c, s, st)[i] != PicksOf(c, s, st)[j]
  {
  }

  lemma RoundPool(c: Config, s: Stream, st: State, round: nat)
    requires Playable(c, s, st) && SimulateRound(c, s, st, round).Success?
    ensures UpdatedPool(c, s, st) == Success(SimulateRound(c, s, st, round).value.0.pool)
  {
    hide UpdatedPool, VotesAndNext, Decide, RecordBias, PopulationAverage, PicksOf, VotesOf, Playable;
  }

  // ----- a domain of blanks -----

  lemma TruthInCandidates(s: Stream, st: State)
    ensures TruthOf(s, st) in CANDIDATES
  {
  }

  lemma DecidesValid(votes: seq<Vote>, size: int)
    requires votes != [] && AllValid(votes)
    ensures Decide(votes, size).Success?
  {
    ValidatedAll(votes);
    hide ParticipationRate, BreakdownOf, ConfidenceOf, MassIn;
  }

  /** In a domain of blanks the injection does nothing. */
  lemma BlankStart(c: Config, s: Stream, i: nat)
    requires ValidConfig(c) && Blank(c.domain)
    ensures var v := ValidatorAt(c, s, i);
            CanVote(c, v) && !Blank(v.record.validatorId)
  {
    hide ValidatorName, Blank, Normalize, TargetReputation, Portion;
    NamesNotBlank(i);
    PortionIsNat(c.validatorPoolSize, c.collusionRate);
    assert DomainScore(FreshRecord(i), c.domain) == 0.0;
    assert InjectDomainReputation(FreshRecord(i), c.domain, TargetReputation(s, i)) == FreshRecord(i);
  }

  lemma BlankVotesValid(c: Config, s: Stream, st: State)
    requires Playable(c, s, st) && forall v | v in st.pool :: CanVote(c, v)
    ensures AllValid(VotesOf(c, s, st))
  {
    hide Playable, PicksOf, CanVote, BuildVotes, AllValid, TruthOf, Fits;
    var selected, truth := SelectedOf(c, s, st), TruthOf(s, st);
    forall v | v in selected ensures CanVote(c, v) && InUnit(v.biasDirection) {
      assert v in st.pool;
      VoterBias(c, v);
    }
    VotesFit(c, selected, truth, s, st.floatsUsed + 1);
    TruthInCandidates(s, st);
    VotesValid(c, selected, VotesOf(c, s, st), truth);
  }

  lemma VoterBias(c: Config, v: SimValidator)
    ensures CanVote(c, v) ==> InUnit(v.biasDirection)
  {
  }

  /** The first round cannot update anybody. */
  lemma BlankFirstRound(c: Config, s: Stream)
    requires ValidConfig(c) && Blank(c.domain) && Lawful(s)
    ensures Playable(c, s, InitialState(c, s))
    ensures SimulateRound(c, s, InitialState(c, s), 0) == Failure(ReputationFailed(Reputation.DomainEmpty))
  {
    var st := InitialState(c, s);
    assert Playable(c, s, st);
    hide Blank, Lawful, Decide, UpdateRecords, PicksOf, VotesOf, VotesAndNext, CanVote, Playable, RecordBias,
      PopulationAverage, ValidatorAt, AllValid;
    forall v | v in st.pool ensures CanVote(c, v) && !Blank(v.record.validatorId) {
      var i :| 0 <= i < |st.pool| && st.pool[i] == v;
      BlankStart(c, s, i);
    }
    BlankVotesValid(c, s, st);
    DecidesValid(VotesOf(c, s, st), c.validatorSetSize);
    BlankDomainFails(c, st.pool, PicksOf(c, s, st), VotesOf(c, s, st), TruthOf(s, st));
  }
}
