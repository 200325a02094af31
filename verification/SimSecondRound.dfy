/** A stream that lets the adversaries rise to 1 in the first round and turn the second one. */
module SimSecondRound {
  import opened Consensus
  import opened Reals
  import opened Reputation
  import opened ReputationLaws
  import opened SimAllRounds
  import opened SimFirstRound
  import opened SimModel
  import opened SimPool
  import opened SimRound
  import opened SimSafety
  import opened SimWorst
  import opened Sums
  import opened Text
  import opened Verdicts

  // ----- the stream -----

  /** The truth of the first round: what the colluders will vote for. */
  function FirstTruth(c: Config): Verdict {
    if c.collusionRate > 0.0 then c.collusionVerdict else Supported
  }

  /** A draw that does not make a biased validator flip, if there is one. */
  function Steady(c: Config): Draw
    requires ValidConfig(c)
  {
    if c.biasStrength < 1.0 then (1.0 + c.biasStrength) / 2.0 else 0.0
  }

  function SecondStart(c: Config): nat
    requires ValidConfig(c)
  {
    2 * c.validatorPoolSize + 1 + Offset(c, c.validatorSetSize)
  }

  function TwoRoundDraw(c: Config, x: Draw, j: nat): Draw
    requires ValidConfig(c)
  {
    var pool, second := 2 * c.validatorPoolSize, SecondStart(c);
    if j < pool then PoolDraw(c, j)
    else if j == pool then TruthDraw(FirstTruth(c))
    else if j < second then VoteDraw(c, 0.0, Steady(c), 0.99, j - pool - 1)
    else if j == second then TruthDraw(WorstTruth(c))
    else VoteDraw(c, x, 0.0, x, j - second - 1)
  }

  /** The first `fixed` numbers in order, and then the others backwards. */
  function Turned(fixed: nat, n: nat): (p: seq<nat>)
    ensures |p| == n
    ensures forall i | 0 <= i < n :: p[i] == if i < fixed then i else n - 1 - (i - fixed)
  {
    seq(n, i requires 0 <= i < n => if i < fixed then i else TurnedAt(fixed, n, i))
  }

  function TurnedAt(fixed: nat, n: nat, i: nat): nat
    requires fixed <= i < n
  {
    n - 1 - (i - fixed)
  }

  function TwoRoundStream(c: Config, x: Draw): Stream
    requires ValidConfig(c)
  {
    Stream(
      (j: nat) => TwoRoundDraw(c, x, j),
      (i: nat, n: nat) => if i == 0 then Identity(n) else Turned(Adversaries(c), n))
  }

  lemma TurnedIsPermutation(fixed: nat, n: nat)
    ensures IsPermutation(Turned(fixed, n), n)
  {
  }

  lemma TwoRoundStreamIs(c: Config, x: Draw)
    requires ValidConfig(c)
    ensures var s := TwoRoundStream(c, x);
            && Lawful(s)
            && DrawsWorstPool(c, s)
            && s.floats(2 * c.validatorPoolSize) == TruthDraw(FirstTruth(c))
            && (forall t: nat | t < Offset(c, c.validatorSetSize) ::
                 s.floats(2 * c.validatorPoolSize + 1 + t) == VoteDraw(c, 0.0, Steady(c), 0.99, t))
            && s.floats(SecondStart(c)) == TruthDraw(WorstTruth(c))
            && (forall t: nat :: s.floats(SecondStart(c) + 1 + t) == VoteDraw(c, x, 0.0, x, t))
  {
    hide VoteDraw, PoolDraw, TruthDraw, Offset, Turned, Identity, Adversaries, IsPermutation;
    forall i: nat, n: nat ensures IsPermutation(TwoRoundStream(c, x).perms(i, n), n) {
      TurnedIsPermutation(Adversaries(c), n);
      IdentityIsPermutation(n);
    }
  }

  lemma IdentityIsPermutation(n: nat)
    ensures IsPermutation(Identity(n), n)
  {
  }

  // ----- the first round -----

  lemma FirstTruthIsCandidate(c: Config)
    requires ValidConfig(c)
    ensures FirstTruth(c) in CANDIDATES && (ColluderCount(c) > 0 ==> FirstTruth(c) == c.collusionVerdict)
  {
    PortionIsNat(c.validatorPoolSize, c.collusionRate);
    hide Portion;
  }

  /** The draws of the i-th vote end before those of the next one. */
  lemma OffsetsGrow(c: Config, i: nat)
    requires ValidConfig(c) && i < c.validatorSetSize && Adversaries(c) < c.validatorSetSize
    ensures Offset(c, i) < Offset(c, c.validatorSetSize)
    ensures i < Adversaries(c) ==> Offset(c, i) + 1 < Offset(c, c.validatorSetSize)
  {
    hide ColluderCount, BiasedSeats, ValidConfig;
  }

  function FirstOf(c: Config, x: Draw): State
    requires ValidConfig(c)
  {
    InitialState(c, TwoRoundStream(c, x))
  }

  /** The state in which the stream finds the first round. */
  ghost predicate FindsFirst(c: Config, s: Stream, st: State)
    requires ValidConfig(c)
  {
    && PoolOk(c, st.pool) && Playable(c, s, st)
    && st.permsUsed == 0 && st.floatsUsed == 2 * c.validatorPoolSize
    && PicksOf(c, s, st) == Identity(c.validatorSetSize)
    && TruthOf(s, st) == FirstTruth(c)
    && (forall i: nat | i < |st.pool| ::
         DomainScore(st.pool[i].record, c.domain) == if i < Adversaries(c) then TOP_START else WEAK_SCORE)
    && (forall i: nat | i < c.validatorSetSize ::
         DrawsFor(c, s, st.floatsUsed + 1 + Offset(c, i), 0.0, Steady(c), 0.99, i))
  }

  lemma FirstState(c: Config, x: Draw)
    requires ValidConfig(c) && !Blank(c.domain) && Adversaries(c) < c.validatorSetSize
    ensures FindsFirst(c, TwoRoundStream(c, x), FirstOf(c, x))
  {
    hide PoolOk, Blank, ValidatorAt, DomainScore, Lawful, DrawsWorstPool, VoteDraw, Offset, DrawsFor, ColluderCount,
      BiasedSeats, Adversaries, FirstTruth, TruthDraw, Steady, TwoRoundDraw;
    var s := TwoRoundStream(c, x);
    TwoRoundStreamIs(c, x);
    var st := InitialStateIs(c, s);
    InitialPoolOk(c, s);
    PoolPlays(c, s, st);
    FirstTruthIsCandidate(c);
    assert Identity(c.validatorPoolSize)[..c.validatorSetSize] == Identity(c.validatorSetSize);
    forall i: nat | i < |st.pool|
      ensures DomainScore(st.pool[i].record, c.domain) == if i < Adversaries(c) then TOP_START else WEAK_SCORE
    {
      WorstStart(c, s, i);
    }
    forall i: nat | i < c.validatorSetSize
      ensures DrawsFor(c, s, st.floatsUsed + 1 + Offset(c, i), 0.0, Steady(c), 0.99, i)
    {
      OffsetsGrow(c, i);
      DrawsAreFor(c, s, st.floatsUsed + 1, 0.0, Steady(c), 0.99, i);
    }
  }

  /** The score that the validator at position p has after the first round. */
  predicate RisenScore(c: Config, p: nat, score: real)
    requires ValidConfig(c)
  {
    if p < ColluderCount(c) then score == 1.0
    else if p < Adversaries(c) then c.biasStrength < 1.0 ==> score == 1.0
    else score == RAISED_SCORE
  }

  lemma {:induction false} UpdatesAre(c: Config, pool: seq<SimValidator>, picks: seq<nat>, votes: seq<Vote>,
      truth: Verdict)
    requires |picks| == |votes| && forall i | 0 <= i < |picks| :: picks[i] < |pool|
    requires forall i, j | 0 <= i < j < |picks| :: picks[i] != picks[j]
    requires UpdateRecords(c, pool, picks, votes, truth).Success?
    ensures var after := UpdateRecords(c, pool, picks, votes, truth).value;
            && (forall p: nat | p < |pool| && p !in picks :: after[p] == pool[p])
            && forall i | 0 <= i < |picks| ::
                 var v := pool[picks[i]];
                 var r := ApplyPostFinalizationUpdate(v.record, OutcomeOf(c, v, votes[i], truth));
                 r.Success? && after[picks[i]] == v.(record := r.value.0)
  {
    hide ApplyPostFinalizationUpdate, OutcomeOf;
    if picks != [] {
      var m := |picks| - 1;
      UpdatesAre(c, pool, picks[..m], votes[..m], truth);
      assert picks[m] !in picks[..m];
      assert forall p :: p in picks <==> p in picks[..m] || p == picks[m];
    }
  }

  /** What one vote of the first round makes of the score behind it. */
  lemma FirstVoteRaises(c: Config, v: SimValidator, i: nat, s: Stream, at: nat)
    requires ValidConfig(c) && ValidatorOk(c, v) && Cast(c, i, v) && !Blank(c.domain)
    requires DrawsFor(c, s, at, 0.0, Steady(c), 0.99, i)
    requires DomainScore(v.record, c.domain) == if i < Adversaries(c) then TOP_START else WEAK_SCORE
    ensures var vote := BuildVote(c, v, FirstTruth(c), s, at);
            var r := ApplyPostFinalizationUpdate(v.record, OutcomeOf(c, v, vote, FirstTruth(c)));
            r.Success? && RisenScore(c, i, DomainScore(r.value.0, c.domain))
  {
    hide ApplyPostFinalizationUpdate, DomainScore, Sound, Blank, ColluderCount, BiasedCount, ValidatorName,
      FirstTruth, Clamp, ComputeDelta;
    FirstTruthIsCandidate(c);
    var vote := BuildVote(c, v, FirstTruth(c), s, at);
    var outcome := OutcomeOf(c, v, vote, FirstTruth(c));
    UpdateIsRescore(v.record, outcome, c.domain);
    if i < ColluderCount(c) || i >= Adversaries(c) || c.biasStrength < 1.0 {
      ScoreRises(DomainScore(v.record, c.domain), outcome);
    }
  }

  lemma ScoreRises(score: real, outcome: VoteOutcome)
    requires outcome.participated && !outcome.wasLate && outcome.wasCorrect
    ensures var after := Clamp(score + ComputeDelta(outcome).0, REPUTATION_FLOOR, REPUTATION_CEILING);
            && (score == TOP_START && outcome.confidence > 0.7 ==> after == 1.0)
            && (score == WEAK_SCORE && outcome.confidence <= 0.7 ==> after == RAISED_SCORE)
  {
  }

  ghost predicate Risen(c: Config, pool: seq<SimValidator>)
    requires ValidConfig(c)
  {
    forall p: nat | p < |pool| ::
      var score := DomainScore(pool[p].record, c.domain);
      if p < c.validatorSetSize then RisenScore(c, p, score) else score == WEAK_SCORE
  }

  lemma FirstRoundRaises(c: Config, s: Stream, st: State)
    requires ValidConfig(c) && !Blank(c.domain) && Adversaries(c) < c.validatorSetSize && FindsFirst(c, s, st)
    ensures UpdatedPool(c, s, st).Success? && Risen(c, UpdatedPool(c, s, st).value)
  {
    hide PoolOk, Blank, Playable, PicksOf, VotesOf, DomainScore, RisenScore, FirstTruth, DrawsFor, Offset, Steady,
      UpdateRecords, ApplyPostFinalizationUpdate, OutcomeOf, BuildVote, AllEvolved, ValidConfig, Cast, Adversaries,
      AdversariesFirst, ValidatorOk, TruthOf;
    FirstPicks(c, c.validatorSetSize);
    RoundUpdates(c, s, st);
    PicksAreDistinct(c, s, st);
    var picks, votes := PicksOf(c, s, st), VotesOf(c, s, st);
    UpdatesAre(c, st.pool, picks, votes, FirstTruth(c));
    var pool := UpdatedPool(c, s, st).value;
    forall p: nat | p < |pool|
      ensures var score := DomainScore(pool[p].record, c.domain);
              if p < c.validatorSetSize then RisenScore(c, p, score) else score == WEAK_SCORE
    {
      if p < c.validatorSetSize {
        assert picks[p] == p;
        RoundVote(c, s, st, p);
        PoolHas(c, st.pool, p);
        FirstVoteRaises(c, st.pool[p], p, s, st.floatsUsed + 1 + Offset(c, p));
      } else {
        NotAnAdversary(c, p);
      }
    }
  }

  /** The state that the first round leaves. */
  lemma SecondState(c: Config, x: Draw) returns (st: State)
    requires ValidConfig(c) && !Blank(c.domain) && Adversaries(c) < c.validatorSetSize
    ensures Playable(c, TwoRoundStream(c, x), FirstOf(c, x))
    ensures var r := SimulateRound(c, TwoRoundStream(c, x), FirstOf(c, x), 0);
            r.Success? && st == r.value.0
    ensures PoolOk(c, st.pool) && st.permsUsed == 1 && st.floatsUsed == SecondStart(c) && Risen(c, st.pool)
  {
    hide PoolOk, Blank, Playable, PicksOf, VotesOf, SimulateRound, DomainScore, Risen, TwoRoundStream, FirstTruth,
      FirstOf, DrawsFor, Offset, Steady, UpdateRecords, AllEvolved, Decide, ValidConfig, Adversaries,
      AdversariesFirst, VotesAndNext, UpdatedPool;
    var s, start := TwoRoundStream(c, x), FirstOf(c, x);
    FirstState(c, x);
    FirstPicks(c, c.validatorSetSize);
    SetFits(c);
    RoundSucceeds(c, s, start, 0);
    RoundState(c, s, start, 0);
    RoundDraws(c, s, start);
    FirstRoundRaises(c, s, start);
    st := SimulateRound(c, s, start, 0).value.0;
  }

  lemma FirstPicks(c: Config, k: nat)
    requires ValidConfig(c)
    ensures AdversariesFirst(c, Identity(k))
  {
    hide ValidConfig;
  }

  lemma NotAnAdversary(c: Config, p: nat)
    requires ValidConfig(c) && Adversaries(c) < c.validatorSetSize <= p
    ensures p >= Adversaries(c) && p !in Identity(c.validatorSetSize)
  {
  }

  // ----- the second round -----

  lemma SecondPicks(c: Config, n: nat, k: nat)
    requires ValidConfig(c) && Adversaries(c) < k <= n
    ensures AdversariesFirst(c, Turned(Adversaries(c), n)[..k])
  {
    hide ValidConfig, ColluderCount, BiasedSeats;
  }

  /** The honest validators that both rounds select are as few as they can be. */
  lemma {:induction false} TurnedHits(a: nat, n: nat, k: nat, j: nat)
    requires a < k <= n && j <= k
    ensures Hits(Turned(a, n)[..j], Seats(a, k)) == if j <= n + a - k then 0 else j - (n + a - k)
  {
    if j > 0 {
      TurnedHits(a, n, k, j - 1);
      assert Turned(a, n)[..j][..j - 1] == Turned(a, n)[..j - 1];
    }
  }

  lemma SecondScore(c: Config, p: nat, score: real)
    requires ValidConfig(c) && Adversaries(c) < c.validatorSetSize
    requires if p < c.validatorSetSize then RisenScore(c, p, score) else score == WEAK_SCORE
    ensures WorstScore(c, 1.0, Seats(Adversaries(c), c.validatorSetSize), p, score)
  {
    StrengthIs(c);
    hide ValidConfig;
  }

  /** The second round finds every adversary at 1 and the honest validators as they were. */
  lemma SecondIsWorst(c: Config, x: Draw, st: State)
    requires ValidConfig(c) && Adversaries(c) < c.validatorSetSize && PoolOk(c, st.pool)
    requires st.permsUsed == 1 && st.floatsUsed == SecondStart(c) && Risen(c, st.pool)
    ensures var s := TwoRoundStream(c, x);
            && Playable(c, s, st)
            && PicksOf(c, s, st) == Turned(Adversaries(c), c.validatorPoolSize)[..c.validatorSetSize]
            && WorstRound(c, s, st, x, 1.0, Seats(Adversaries(c), c.validatorSetSize))
  {
    hide DomainScore, RisenScore, TwoRoundDraw, DrawsFor, Offset, VoteDraw, WorstScore, Adversaries, Turned,
      AdversariesFirst, Lawful, SecondStart, TruthDraw, Seats, WorstTruth, ValidatorOk, Cast;
    var s := TwoRoundStream(c, x);
    TwoRoundStreamIs(c, x);
    PoolPlays(c, s, st);
    var picks := PicksOf(c, s, st);
    assert picks == Turned(Adversaries(c), c.validatorPoolSize)[..c.validatorSetSize];
    SecondPicks(c, c.validatorPoolSize, c.validatorSetSize);
    SeatsFrom(Adversaries(c), c.validatorSetSize);
    hide TwoRoundStream, PoolOk, Playable, PicksOf, ValidConfig;
    forall i: nat | i < |picks|
      ensures WorstScore(c, 1.0, Seats(Adversaries(c), c.validatorSetSize), picks[i],
                DomainScore(st.pool[picks[i]].record, c.domain))
              && DrawsFor(c, s, st.floatsUsed + 1 + Offset(c, i), x, 0.0, x, i)
    {
      SecondScore(c, picks[i], DomainScore(st.pool[picks[i]].record, c.domain));
      DrawsAreFor(c, s, st.floatsUsed + 1, x, 0.0, x, i);
    }
  }

  lemma SeatsFrom(lo: nat, hi: nat)
    ensures forall r | r in Seats(lo, hi) :: r >= lo
  {
  }

  /** The weight that the adversaries have to meet in the second round. */
  function SecondHonest(c: Config): real
    requires ValidConfig(c)
  {
    HONEST_WEIGHT * (c.validatorSetSize - Adversaries(c)) as real + RAISED_WEIGHT * Overlap(c) as real
  }

  lemma SecondBalance(c: Config, x: Draw, picks: seq<nat>)
    requires ValidConfig(c) && Adversaries(c) < c.validatorSetSize
    requires picks == Turned(Adversaries(c), c.validatorPoolSize)[..c.validatorSetSize]
    requires Times(x, AdversaryWeight(c, 1.0)) == SecondHonest(c)
    ensures Sum(BudgetIn(c, Times(x, 1.0), Times(x, BiasedCost(c, 1.0))), picks)
            + RAISED_WEIGHT * Hits(picks, Seats(Adversaries(c), c.validatorSetSize)) as real <= 0.0
  {
    hide Sum, BudgetIn, Times, AdversaryWeight, BiasedCost, Hits, Seats, Turned, AdversariesFirst;
    SetFits(c);
    SecondPicks(c, c.validatorPoolSize, c.validatorSetSize);
    AllAdversaries(c, x, 1.0, picks);
    TurnedHits(Adversaries(c), c.validatorPoolSize, c.validatorSetSize, c.validatorSetSize);
  }

  lemma SetFits(c: Config)
    requires ValidConfig(c)
    ensures 0 < c.validatorSetSize <= c.validatorPoolSize
  {
  }

  /** If the first round is safe but not all are, there is a stream that loses the second. */
  lemma SecondRoundUnsafe(c: Config) returns (s: Stream)
    requires ValidConfig(c) && !Blank(c.domain) && SafeBelow(c, TOP_START) && !AlwaysSafe(c)
    ensures Lawful(s) && !RoundRight(c, s, 1)
  {
    hide Blank, Lawful, Playable, PoolOk, PicksOf, SimulateRound, TwoRoundStream, WorstRound, AdversaryWeight, Times,
      Sum, BiasedCost, Turned, InitialState, ValidConfig, Hits, Seats, RunRounds, Overlap, Risen, SecondStart;
    var honest, weight := SecondHonest(c), AdversaryWeight(c, 1.0);
    HonestOutnumber(c);
    ShareIsDraw(honest, weight);
    var x: Draw := honest / weight;
    s := TwoRoundStream(c, x);
    TwoRoundStreamIs(c, x);
    var st := SecondState(c, x);
    SecondIsWorst(c, x, st);
    SecondBalance(c, x, PicksOf(c, s, st));
    WorstRoundIsWrong(c, s, st, 1, x, 1.0, Seats(Adversaries(c), c.validatorSetSize));
    OneRoundRun(c, s);
  }

  lemma HonestOutnumber(c: Config)
    requires ValidConfig(c) && SafeBelow(c, TOP_START)
    ensures c.validatorSetSize > Adversaries(c) && SecondHonest(c) > 0.0
  {
    hide ColluderCount, BiasedSeats, AdversaryWeight;
  }

  // ----- exactly -----

  /** Every round ends with the truth, for every stream and however many rounds are played, if
      and only if the configuration is safe against starting reputations and stays safe once
      the adversaries have risen to 1 in a round that also raised the honest validators it
      selected. For the configured number of rounds the second half is not needed if that
      number is 1. */
  lemma EveryRoundExactly(c: Config)
    requires ValidConfig(c) && !Blank(c.domain)
    ensures (forall s, n: nat | Lawful(s) :: RoundRight(c, s, n)) <==> AlwaysSafe(c)
    ensures (forall s, n: nat | Lawful(s) && n < c.rounds :: RoundRight(c, s, n)) <==>
            if c.rounds == 1 then SafeBelow(c, TOP_START) else AlwaysSafe(c)
  {
    RoundsPositive(c);
    hide AlwaysSafe, SafeBelow, Blank, Lawful, SimulateRound, Playable, RunRounds, ValidConfig, RoundRight;
    if AlwaysSafe(c) {
      forall s, n: nat | Lawful(s) ensures RoundRight(c, s, n) {
        AlwaysSafeRun(c, s, n);
      }
      AlwaysIncludesStart(c);
    } else if SafeBelow(c, TOP_START) {
      var s := SecondRoundUnsafe(c);
      forall s | Lawful(s) ensures RoundRight(c, s, 0) {
        FirstRoundIsRight(c, s);
      }
    } else {
      var s := FirstRoundUnsafe(c);
      FirstRoundIsWrong(c, s);
      if AlwaysSafe(c) {
        AlwaysIncludesStart(c);
      }
    }
  }

  lemma RoundsPositive(c: Config)
    ensures ValidConfig(c) ==> c.rounds >= 1
  {
  }

  lemma AlwaysIncludesStart(c: Config)
    requires ValidConfig(c)
    ensures AlwaysSafe(c) ==> SafeBelow(c, TOP_START)
  {
  }

  lemma FirstRoundIsRight(c: Config, s: Stream)
    requires ValidConfig(c) && !Blank(c.domain) && Lawful(s) && SafeBelow(c, TOP_START)
    ensures RoundRight(c, s, 0)
  {
    hide SafeBelow, Blank, Lawful, Playable, SimulateRound, InitialState, ValidConfig;
    NoRoundsYet(c, s);
    FirstRoundSafe(c, s);
  }

  lemma FirstRoundIsWrong(c: Config, s: Stream)
    requires ValidConfig(c) && Lawful(s) && Playable(c, s, InitialState(c, s))
    requires var r := SimulateRound(c, s, InitialState(c, s), 0);
             r.Success? && !r.value.1.correct
    ensures !RoundRight(c, s, 0)
  {
    hide Lawful, Playable, SimulateRound, InitialState, ValidConfig;
    NoRoundsYet(c, s);
  }

  /** Safety against reputations of 1 is more than that. */
  lemma SafeIsAlwaysSafe(c: Config)
    requires ValidConfig(c) && Safe(c)
    ensures AlwaysSafe(c)
  {
    hide ColluderCount, BiasedSeats, Overlap, Times, Adversaries;
    SeatsAreNat(c);
    var C, B := ColluderCount(c) as real, BiasedSeats(c) as real;
    TimesMonotone(TOP_START, 1.0, C);
    TimesMonotone(TOP_START, 1.0, 0.8 * (1.0 - c.biasStrength));
    TimesMonotone(BiasedCost(c, TOP_START), BiasedCost(c, 1.0), B);
  }
}
