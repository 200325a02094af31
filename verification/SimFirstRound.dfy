/** Exactly which configurations get their first round right for every stream. */
module SimFirstRound {
  import opened Reals
  import opened Reputation
  import opened ReputationLaws
  import opened SimModel
  import opened SimPool
  import opened SimRound
  import opened SimSafety
  import opened SimWorst
  import opened Sums
  import opened Text

  /** The highest score that injection can produce. */
  const TOP_START: real := 0.95

  ghost predicate FirstRoundCorrect(c: Config, s: Stream)
    requires ValidConfig(c)
  {
    && Playable(c, s, InitialState(c, s))
    && var r := SimulateRound(c, s, InitialState(c, s), 0);
       r.Success? && r.value.1.correct
  }

  // ----- enough -----

  lemma TargetBelowOne(s: Stream, i: nat)
    ensures InBand(TargetReputation(s, i)) && TargetReputation(s, i) < 1.0
  {
    TargetsInBand(s, i);
    ScaledBelowOne(s.floats(2 * i));
    ScaledBelowOne(s.floats(2 * i + 1));
    hide Scaled;
  }

  lemma ScaledBelowOne(draw: Draw)
    ensures Scaled(draw) < 1.0
  {
  }

  lemma StartsBelowTop(c: Config, s: Stream)
    requires ValidConfig(c) && !Blank(c.domain)
    ensures ScoresAtMost(c, BuildPool(c, s, c.validatorPoolSize), TOP_START)
  {
    hide DomainScore, InjectDomainReputation, FreshRecord, TargetReputation, Blank, ColluderCount, BiasedCount;
    var pool := BuildPool(c, s, c.validatorPoolSize);
    forall v | v in pool ensures DomainScore(v.record, c.domain) <= TOP_START {
      var i: nat :| i < |pool| && pool[i] == v;
      TargetBelowOne(s, i);
      StartingScore(i, c.domain, TargetReputation(s, i));
    }
  }

  lemma FirstRoundSafe(c: Config, s: Stream)
    requires ValidConfig(c) && !Blank(c.domain) && Lawful(s) && SafeBelow(c, TOP_START)
    ensures FirstRoundCorrect(c, s)
  {
    hide PoolOk, SafeBelow, ScoresAtMost, Playable, SimulateRound, Blank, BuildPool, Lawful, ValidConfig;
    var st := InitialStateIs(c, s);
    InitialPoolOk(c, s);
    PoolPlays(c, s, st);
    StartsBelowTop(c, s);
    CappedRoundIsCorrect(c, s, st, 0, TOP_START);
  }

  lemma InitialStateIs(c: Config, s: Stream) returns (st: State)
    requires ValidConfig(c)
    ensures c.validatorPoolSize >= 0
    ensures st == InitialState(c, s) && st.pool == BuildPool(c, s, c.validatorPoolSize)
    ensures st.floatsUsed == 2 * c.validatorPoolSize && st.permsUsed == 0
  {
    st := InitialState(c, s);
  }

  // ----- the worst pool -----

  /** Best targets for the adversaries, and worst ones for the rest. */
  function PoolDraw(c: Config, j: nat): Draw
    requires ValidConfig(c)
  {
    if j < 2 * Adversaries(c) then 0.99 else 0.0
  }

  ghost predicate DrawsWorstPool(c: Config, s: Stream)
    requires ValidConfig(c)
  {
    forall j: nat | j < 2 * c.validatorPoolSize :: s.floats(j) == PoolDraw(c, j)
  }

  lemma WorstTargets(c: Config, s: Stream, i: nat)
    requires ValidConfig(c) && DrawsWorstPool(c, s) && i < c.validatorPoolSize
    ensures var target := TargetReputation(s, i);
            InBand(target) && target < 1.0 && if i < Adversaries(c) then target > 0.95 else target == REPUTATION_FLOOR
  {
    hide ColluderCount, BiasedSeats, ValidConfig;
    assert 2 * i + 1 < 2 * c.validatorPoolSize;
    assert s.floats(2 * i) == PoolDraw(c, 2 * i) && s.floats(2 * i + 1) == PoolDraw(c, 2 * i + 1);
    assert 2 * i + 1 < 2 * Adversaries(c) <==> i < Adversaries(c);
  }

  lemma WorstStart(c: Config, s: Stream, i: nat)
    requires ValidConfig(c) && DrawsWorstPool(c, s) && !Blank(c.domain) && i < c.validatorPoolSize
    ensures DomainScore(ValidatorAt(c, s, i).record, c.domain) == if i < Adversaries(c) then TOP_START else WEAK_SCORE
  {
    hide DomainScore, InjectDomainReputation, FreshRecord, TargetReputation, Blank, ColluderCount, BiasedCount,
      DrawsWorstPool, ValidConfig;
    WorstTargets(c, s, i);
    StartingScore(i, c.domain, TargetReputation(s, i));
  }

  // ----- the stream with a wrong first round -----

  function Identity(n: nat): (p: seq<nat>)
    ensures |p| == n && forall i | 0 <= i < n :: p[i] == i
  {
    seq(n, i requires 0 <= i < n => i)
  }

  /** After the pool: a truth that is not the lie, and confidence x for the adversaries, who
      always flip. */
  function FirstDraw(c: Config, x: Draw, j: nat): Draw
    requires ValidConfig(c)
  {
    var pool := 2 * c.validatorPoolSize;
    if j < pool then PoolDraw(c, j)
    else if j == pool then TruthDraw(WorstTruth(c))
    else VoteDraw(c, x, 0.0, x, j - pool - 1)
  }

  function FirstStream(c: Config, x: Draw): Stream
    requires ValidConfig(c)
  {
    Stream((j: nat) => FirstDraw(c, x, j), (_: nat, n: nat) => Identity(n))
  }

  lemma FirstStreamIs(c: Config, x: Draw)
    requires ValidConfig(c)
    ensures var s := FirstStream(c, x);
            && Lawful(s)
            && DrawsWorstPool(c, s)
            && s.floats(2 * c.validatorPoolSize) == TruthDraw(WorstTruth(c))
            && forall t: nat :: s.floats(2 * c.validatorPoolSize + 1 + t) == VoteDraw(c, x, 0.0, x, t)
  {
    hide VoteDraw, PoolDraw, TruthDraw;
  }

  /** The state in which this stream finds its first round. */
  lemma FirstStart(c: Config, x: Draw) returns (st: State)
    requires ValidConfig(c) && !Blank(c.domain)
    ensures st == InitialState(c, FirstStream(c, x)) && PoolOk(c, st.pool) && Playable(c, FirstStream(c, x), st)
    ensures PicksOf(c, FirstStream(c, x), st) == Identity(c.validatorSetSize)
    ensures WorstRound(c, FirstStream(c, x), st, x, TOP_START, {})
  {
    hide PoolOk, Blank, ValidatorAt, DomainScore, Lawful, DrawsWorstPool, VoteDraw, Offset, DrawsFor, ColluderCount,
      BiasedSeats, Adversaries;
    var s := FirstStream(c, x);
    FirstStreamIs(c, x);
    st := InitialStateIs(c, s);
    InitialPoolOk(c, s);
    PoolPlays(c, s, st);
    assert Identity(c.validatorPoolSize)[..c.validatorSetSize] == Identity(c.validatorSetSize);
    forall i: nat | i < c.validatorSetSize
      ensures WorstScore(c, TOP_START, {}, i, DomainScore(st.pool[i].record, c.domain))
              && DrawsFor(c, s, st.floatsUsed + 1 + Offset(c, i), x, 0.0, x, i)
    {
      WorstStart(c, s, i);
      StartIsWorst(c, i, DomainScore(st.pool[i].record, c.domain));
      DrawsAreFor(c, s, st.floatsUsed + 1, x, 0.0, x, i);
    }
    hide FirstStream;
  }

  lemma StartIsWorst(c: Config, i: nat, score: real)
    requires ValidConfig(c) && score == if i < Adversaries(c) then TOP_START else WEAK_SCORE
    ensures WorstScore(c, TOP_START, {}, i, score)
  {
    hide ValidConfig;
  }

  /** A share x of the adversaries' greatest weight that balances the honest weight. */
  function FirstShare(c: Config): Draw
    requires ValidConfig(c) && !SafeBelow(c, TOP_START)
  {
    if c.validatorSetSize <= Adversaries(c) then
      0.0
    else
      var honest := HONEST_WEIGHT * (c.validatorSetSize - Adversaries(c)) as real;
      var weight := AdversaryWeight(c, TOP_START);
      ShareIsDraw(honest, weight);
      honest / weight
  }

  lemma {:induction false} NoHits(picks: seq<nat>)
    ensures Hits(picks, {}) == 0
  {
    if picks != [] {
      NoHits(picks[..|picks| - 1]);
    }
  }

  lemma FirstBalance(c: Config, picks: seq<nat>)
    requires ValidConfig(c) && !SafeBelow(c, TOP_START) && picks == Identity(c.validatorSetSize)
    ensures var x := FirstShare(c);
            Sum(BudgetIn(c, Times(x, TOP_START), Times(x, BiasedCost(c, TOP_START))), picks) <= 0.0
  {
    var k, x := c.validatorSetSize, FirstShare(c);
    BiasedCostSign(c, TOP_START);
    MulNonNegative(x, TOP_START);
    MulNonNegative(x, BiasedCost(c, TOP_START));
    if k <= Adversaries(c) {
      OnlyAdversaries(c, Times(x, TOP_START), Times(x, BiasedCost(c, TOP_START)), picks);
    } else {
      AllAdversaries(c, x, TOP_START, picks);
      ShareIsDraw(HONEST_WEIGHT * (k - Adversaries(c)) as real, AdversaryWeight(c, TOP_START));
    }
    hide Sum, Times;
  }

  // ----- needed -----

  /** In a configuration that is not safe against starting reputations, there is a stream whose
      first round ends with a wrong verdict. */
  lemma FirstRoundUnsafe(c: Config) returns (s: Stream)
    requires ValidConfig(c) && !Blank(c.domain) && !SafeBelow(c, TOP_START)
    ensures Lawful(s) && Playable(c, s, InitialState(c, s))
    ensures var r := SimulateRound(c, s, InitialState(c, s), 0);
            r.Success? && !r.value.1.correct
  {
    hide SafeBelow, Blank, Lawful, Playable, PoolOk, PicksOf, SimulateRound, FirstShare, FirstStream, WorstRound,
      Times, Sum, BiasedCost, Identity, InitialState;
    var x := FirstShare(c);
    s := FirstStream(c, x);
    FirstStreamIs(c, x);
    var st := FirstStart(c, x);
    FirstBalance(c, PicksOf(c, s, st));
    NoHits(PicksOf(c, s, st));
    WorstRoundIsWrong(c, s, st, 0, x, TOP_START, {});
  }

  /** Exactly: the first round ends with the truth for every stream if and only if honest
      validators remain when all adversaries are selected, and at their least weight they carry
      at least what all adversaries could carry with a reputation of 0.95. */
  lemma FirstRoundExactly(c: Config)
    requires ValidConfig(c) && !Blank(c.domain)
    ensures (forall s | Lawful(s) :: FirstRoundCorrect(c, s)) <==> SafeBelow(c, TOP_START)
  {
    hide SafeBelow, Blank, Lawful, SimulateRound, Playable;
    if SafeBelow(c, TOP_START) {
      forall s | Lawful(s) ensures FirstRoundCorrect(c, s) {
        FirstRoundSafe(c, s);
      }
    } else {
      var s := FirstRoundUnsafe(c);
      assert !FirstRoundCorrect(c, s);
    }
  }
}
