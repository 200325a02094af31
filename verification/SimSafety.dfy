/** Why a bounded adversary cannot turn the verdict of a round: honest validators carry at
    least 0.4 x 0.15 each, colluders less than their reputation, biased validators less than
    0.8 x (1 - bias) of it. */
module SimSafety {
  import opened Consensus
  import opened ConsensusLaws
  import opened Reals
  import opened Reputation
  import opened ReputationLaws
  import opened SimModel
  import opened SimRound
  import opened Sums
  import opened Text
  import opened Verdicts

  const HONEST_WEIGHT: real := 0.06

  // ----- who sits where in the pool -----

  /** Validators that may vote against the truth without being colluders. */
  function BiasedSeats(c: Config): int {
    if c.biasStrength > 0.0 then BiasedCount(c) else 0
  }

  /** More than a biased vote weighs, when no reputation is above `top`. */
  function BiasedCost(c: Config, top: real): real {
    Times(top, 0.8 * (1.0 - c.biasStrength))
  }

  /** More than all adversaries of the pool together can weigh. */
  function AdversaryWeight(c: Config, top: real): real {
    Times(top, ColluderCount(c) as real) + Times(BiasedCost(c, top), BiasedSeats(c) as real)
  }

  /** Some honest validators are selected even if all adversaries are, and their least weight
      is enough against an adversary whose reputations are at most `top`. */
  predicate SafeBelow(c: Config, top: real) {
    && c.validatorSetSize > ColluderCount(c) + BiasedSeats(c)
    && HONEST_WEIGHT * (c.validatorSetSize - ColluderCount(c) - BiasedSeats(c)) as real >= AdversaryWeight(c, top)
  }

  /** Safe whatever the reputations. With c colluders, no biased validators and a set of k this
      reads k > c and 0.06 (k - c) >= c. */
  predicate Safe(c: Config) {
    SafeBelow(c, 1.0)
  }

  /** What the validator at a pool position adds to the margin of the truth, if a colluder
      takes away u and a biased validator v. */
  function BudgetAt(c: Config, u: real, v: real, i: nat): real {
    if i < ColluderCount(c) then -u
    else if i < ColluderCount(c) + BiasedSeats(c) then -v
    else HONEST_WEIGHT
  }

  function BudgetIn(c: Config, u: real, v: real): nat -> real {
    (i: nat) => BudgetAt(c, u, v, i)
  }

  ghost predicate ScoresAtMost(c: Config, pool: seq<SimValidator>, top: real) {
    forall v | v in pool :: DomainScore(v.record, c.domain) <= top
  }

  /** The votes of an adversary are strictly better than their budget, unless they are biased
      votes without weight. */
  predicate BeatsBudget(c: Config, i: nat) {
    i < ColluderCount(c) || (i < ColluderCount(c) + BiasedSeats(c) && c.biasStrength < 1.0)
  }

  lemma VoteMeetsBudget(c: Config, i: nat, v: SimValidator, truth: Verdict, vote: Vote, top: real)
    requires ValidatorOk(c, v) && Cast(c, i, v) && Fits(c, v, truth, vote) && truth in CANDIDATES
    requires 0.0 <= c.biasStrength <= 1.0 && DomainScore(v.record, c.domain) <= top
    ensures MarginFor(truth)(vote) >= BudgetAt(c, top, BiasedCost(c, top), i)
    ensures BeatsBudget(c, i) ==> MarginFor(truth)(vote) > BudgetAt(c, top, BiasedCost(c, top), i)
  {
    hide Sound, DomainScore, ColluderCount, BiasedCount, AdjustedWeight, Blank, Times;
    FittingVoteIsValid(c, v, truth, vote);
    FittingWeight(vote);
    CappedWeight(vote, top);
  }

  /** How much a vote weighs at most when its reputation is at most `top`. */
  lemma CappedWeight(vote: Vote, top: real)
    requires ValidVote(vote) && 0.15 <= vote.domainReputation <= top
    ensures vote.confidence < 1.0 ==> AdjustedWeight(vote) < top
    ensures vote.confidence < 0.8 ==>
              var cost := Times(top, 0.8 * (1.0 - vote.biasCoefficient));
              && AdjustedWeight(vote) <= cost
              && (vote.biasCoefficient < 1.0 ==> AdjustedWeight(vote) < cost)
    ensures AdjustedWeight(vote) >= 0.0
  {
    hide AdjustedWeight, Times;
    var confidence, reputation, correction := vote.confidence, vote.domainReputation, 1.0 - vote.biasCoefficient;
    var plain := Times(confidence, reputation);
    WeightIsTimes(vote);
    TimesInUnit(confidence, reputation);
    TimesInUnit(plain, correction);
    if confidence < 1.0 {
      ProductBelow(confidence, 1.0, reputation, top);
      TimesOne(top);
    }
    if confidence < 0.8 {
      ProductBelow(confidence, 0.8, reputation, top);
      CorrectedBelow(plain, top, correction);
    }
  }

  lemma WeightIsTimes(v: Vote)
    ensures AdjustedWeight(v) == Times(Times(v.confidence, v.domainReputation), 1.0 - v.biasCoefficient)
  {
  }

  lemma TimesOne(x: real)
    ensures Times(1.0, x) == x
  {
  }

  lemma ProductBelow(x: real, bound: real, k: real, top: real)
    requires 0.0 <= x < bound && 0.0 < k <= top
    ensures Times(x, k) < Times(bound, top)
  {
    hide Times;
    TimesStrict(x, bound, k);
    TimesMonotone(k, top, bound);
    TimesCommutes(k, bound);
    TimesCommutes(top, bound);
  }

  lemma CorrectedBelow(plain: real, top: real, correction: real)
    requires 0.0 <= correction <= 1.0 && plain < Times(0.8, top)
    ensures Times(plain, correction) <= Times(top, 0.8 * correction)
    ensures correction > 0.0 ==> Times(plain, correction) < Times(top, 0.8 * correction)
  {
    CapIs(top, correction);
    hide Times;
    TimesMonotone(plain, Times(0.8, top), correction);
    if correction > 0.0 {
      TimesStrict(plain, Times(0.8, top), correction);
    }
  }

  lemma CapIs(top: real, correction: real)
    ensures Times(top, 0.8 * correction) == Times(Times(0.8, top), correction)
  {
  }

  /** An honest vote weighs at least 0.4 x 0.15. */
  lemma FittingWeight(vote: Vote)
    requires ValidVote(vote) && 0.4 <= vote.confidence && 0.15 <= vote.domainReputation
    ensures vote.biasCoefficient == 0.0 ==> AdjustedWeight(vote) >= HONEST_WEIGHT
  {
    if vote.biasCoefficient == 0.0 {
      ProductMonotone(0.4, 0.15, 1.0, vote.confidence, vote.domainReputation, 1.0);
    }
  }

  lemma {:induction false} MarginMeetsBudget(c: Config, pool: seq<SimValidator>, picks: seq<nat>,
      votes: seq<Vote>, truth: Verdict, top: real)
    requires PoolOk(c, pool) && ScoresAtMost(c, pool, top) && truth in CANDIDATES && 0.0 <= c.biasStrength <= 1.0
    requires |picks| == |votes| && forall i | 0 <= i < |picks| :: picks[i] < |pool|
    requires forall i | 0 <= i < |picks| :: Fits(c, pool[picks[i]], truth, votes[i])
    ensures Margin(votes, truth) >= Sum(BudgetIn(c, top, BiasedCost(c, top)), picks)
    ensures (exists i | 0 <= i < |picks| :: BeatsBudget(c, picks[i])) ==>
              Margin(votes, truth) > Sum(BudgetIn(c, top, BiasedCost(c, top)), picks)
  {
    hide ValidatorOk, Cast, Fits, BudgetAt, AdjustedWeight, BiasedCost, BeatsBudget;
    if picks != [] {
      var m := |picks| - 1;
      MarginMeetsBudget(c, pool, picks[..m], votes[..m], truth, top);
      VoteMeetsBudget(c, picks[m], pool[picks[m]], truth, votes[m], top);
      if i :| 0 <= i < m && BeatsBudget(c, picks[i]) {
        assert BeatsBudget(c, picks[..m][i]);
      }
    }
  }

  // ----- at most every adversary is selected -----

  function Hits(picks: seq<nat>, seats: set<nat>): nat {
    if picks == [] then 0
    else Hits(picks[..|picks| - 1], seats) + if picks[|picks| - 1] in seats then 1 else 0
  }

  function Seats(lo: int, hi: int): (seats: set<nat>)
    requires lo >= 0
    ensures forall i :: i in seats <==> lo <= i < hi
    decreases hi - lo
  {
    if hi <= lo then {} else Seats(lo, hi - 1) + {hi - 1}
  }

  lemma {:induction false} SeatsSize(lo: nat, hi: nat)
    requires lo <= hi
    ensures |Seats(lo, hi)| == hi - lo
  {
    if lo < hi {
      SeatsSize(lo, hi - 1);
      assert hi - 1 !in Seats(lo, hi - 1);
    }
  }

  lemma {:induction false} HitsWithout(picks: seq<nat>, seats: set<nat>, seat: nat)
    requires seat !in picks
    ensures Hits(picks, seats) == Hits(picks, seats - {seat})
  {
    if picks != [] {
      HitsWithout(picks[..|picks| - 1], seats, seat);
      assert picks[|picks| - 1] in picks;
    }
  }

  /** Distinct picks hit each seat at most once. */
  lemma {:induction false} HitsAtMostSeats(picks: seq<nat>, seats: set<nat>)
    requires forall i, j | 0 <= i < j < |picks| :: picks[i] != picks[j]
    ensures Hits(picks, seats) <= |seats|
  {
    if picks != [] {
      var m := |picks| - 1;
      var last := picks[m];
      if last in seats {
        HitsAtMostSeats(picks[..m], seats - {last});
        HitsWithout(picks[..m], seats, last);
      } else {
        HitsAtMostSeats(picks[..m], seats);
      }
    }
  }

  lemma {:induction false} HitsSplit(picks: seq<nat>, a: set<nat>, b: set<nat>)
    requires a !! b
    ensures Hits(picks, a + b) == Hits(picks, a) + Hits(picks, b)
  {
    if picks != [] {
      HitsSplit(picks[..|picks| - 1], a, b);
    }
  }

  lemma {:induction false} AllHit(picks: seq<nat>, seats: set<nat>)
    requires forall p | p in picks :: p in seats
    ensures Hits(picks, seats) == |picks|
  {
    if picks != [] {
      var m := |picks| - 1;
      assert picks[m] in picks && forall p | p in picks[..m] :: p in picks;
      AllHit(picks[..m], seats);
    }
  }

  /** Where some seat is hit, some pick is in it. */
  lemma {:induction false} HitIsPick(picks: seq<nat>, seats: set<nat>)
    ensures Hits(picks, seats) > 0 ==> exists i | 0 <= i < |picks| :: picks[i] in seats
  {
    if picks != [] {
      var m := |picks| - 1;
      HitIsPick(picks[..m], seats);
      if i :| 0 <= i < m && picks[..m][i] in seats {
        assert picks[i] in seats;
      }
    }
  }

  function ColluderSeatSet(c: Config): set<nat> {
    Seats(0, ColluderCount(c))
  }

  function BiasedSeatSet(c: Config): set<nat>
    requires ColluderCount(c) >= 0
  {
    Seats(ColluderCount(c), ColluderCount(c) + BiasedSeats(c))
  }

  lemma {:induction false} BudgetByHits(c: Config, u: real, v: real, picks: seq<nat>)
    requires ColluderCount(c) >= 0 && BiasedSeats(c) >= 0
    ensures Sum(BudgetIn(c, u, v), picks) ==
              HONEST_WEIGHT * |picks| as real
              - Times(HONEST_WEIGHT + u, Hits(picks, ColluderSeatSet(c)) as real)
              - Times(HONEST_WEIGHT + v, Hits(picks, BiasedSeatSet(c)) as real)
  {
    hide Times, ColluderCount, BiasedSeats;
    TimesCount(HONEST_WEIGHT + u, 0);
    TimesCount(HONEST_WEIGHT + v, 0);
    if picks != [] {
      var m := |picks| - 1;
      BudgetByHits(c, u, v, picks[..m]);
      TimesCount(HONEST_WEIGHT + u, Hits(picks[..m], ColluderSeatSet(c)));
      TimesCount(HONEST_WEIGHT + v, Hits(picks[..m], BiasedSeatSet(c)));
    }
  }

  lemma TimesCount(w: real, n: nat)
    ensures Times(w, 0 as real) == 0.0
    ensures Times(w, (n + 1) as real) == Times(w, n as real) + w
  {
  }

  lemma SeatsAreNat(c: Config)
    requires ValidConfig(c)
    ensures ColluderCount(c) >= 0 && BiasedSeats(c) >= 0
  {
    PortionIsNat(c.validatorPoolSize, c.collusionRate);
    PortionIsNat(c.validatorPoolSize, c.biasRate);
    hide Portion;
  }

  /** The balance of a selection with x colluders and y biased validators. */
  function Balance(size: nat, u: real, v: real, x: nat, y: nat): real {
    HONEST_WEIGHT * size as real - Times(HONEST_WEIGHT + u, x as real) - Times(HONEST_WEIGHT + v, y as real)
  }

  /** If the balance and a bonus are not negative together with every adversary selected, they
      never are, and they can be 0 only with every adversary selected and some weight among them. */
  lemma BalanceNonNegative(size: nat, u: real, v: real, colluders: nat, biased: nat, x: nat, y: nat, bonus: real)
    requires u > 0.0 && v >= 0.0 && x <= colluders && y <= biased && colluders + biased < size && bonus >= 0.0
    requires HONEST_WEIGHT * (size - colluders - biased) as real + bonus
             >= Times(u, colluders as real) + Times(v, biased as real)
    ensures Balance(size, u, v, x, y) + bonus >= 0.0
    ensures Balance(size, u, v, x, y) + bonus == 0.0 ==> x > 0 || (y > 0 && v > 0.0)
  {
    FewerCost(HONEST_WEIGHT + u, x, colluders);
    FewerCost(HONEST_WEIGHT + v, y, biased);
    TimesDistributes(u, HONEST_WEIGHT, colluders as real);
    TimesDistributes(v, HONEST_WEIGHT, biased as real);
    TimesHonest(colluders);
    TimesHonest(biased);
    TimesCount(u, 0);
    TimesCount(v, 0);
    TimesZero(biased as real);
    hide Times;
  }

  lemma TimesZero(x: real)
    ensures Times(0.0, x) == 0.0
  {
  }

  lemma FewerCost(w: real, x: nat, n: nat)
    requires x <= n && w > 0.0
    ensures Times(w, x as real) <= Times(w, n as real)
    ensures x < n ==> Times(w, x as real) < Times(w, n as real)
  {
    TimesMonotone(x as real, n as real, w);
    if x < n {
      TimesStrict(x as real, n as real, w);
    }
    TimesCommutes(x as real, w);
    TimesCommutes(n as real, w);
    hide Times;
  }

  lemma BiasedCostSign(c: Config, top: real)
    requires ValidConfig(c) && top > 0.0
    ensures BiasedCost(c, top) >= 0.0
    ensures BiasedCost(c, top) > 0.0 <==> c.biasStrength < 1.0
  {
    var w := 0.8 * (1.0 - c.biasStrength);
    if w > 0.0 {
      MulPositive(top, w);
    } else {
      TimesZero(top);
      TimesCommutes(top, 0.0);
    }
    assert BiasedCost(c, top) == Times(top, w);
    assert w > 0.0 ==> Times(top, w) == top * w;
  }

  lemma SafeSelection(c: Config, picks: seq<nat>, top: real)
    requires ValidConfig(c) && SafeBelow(c, top) && top > 0.0 && |picks| == c.validatorSetSize
    requires forall i, j | 0 <= i < j < |picks| :: picks[i] != picks[j]
    ensures var sum := Sum(BudgetIn(c, top, BiasedCost(c, top)), picks);
            sum >= 0.0 && (sum > 0.0 || exists i | 0 <= i < |picks| :: BeatsBudget(c, picks[i]))
  {
    hide ColluderCount, BiasedSeats, Hits, Seats, Times, BiasedCost, BudgetAt, ValidConfig, Balance, Sum;
    SeatsAreNat(c);
    BiasedCostSign(c, top);
    var C, B, v := ColluderCount(c), BiasedSeats(c), BiasedCost(c, top);
    SeatsSize(0, C);
    SeatsSize(C, C + B);
    HitsAtMostSeats(picks, ColluderSeatSet(c));
    HitsAtMostSeats(picks, BiasedSeatSet(c));
    var x, y := Hits(picks, ColluderSeatSet(c)), Hits(picks, BiasedSeatSet(c));
    BudgetByHits(c, top, v, picks);
    BalanceNonNegative(|picks|, top, v, C, B, x, y, 0.0);
    BalanceIs(|picks|, top, v, x, y);
    HitIsPick(picks, ColluderSeatSet(c));
    HitIsPick(picks, BiasedSeatSet(c));
  }

  lemma BalanceIs(size: nat, u: real, v: real, x: nat, y: nat)
    ensures Balance(size, u, v, x, y) ==
            HONEST_WEIGHT * size as real - Times(HONEST_WEIGHT + u, x as real) - Times(HONEST_WEIGHT + v, y as real)
  {
  }

  lemma TimesHonest(n: nat)
    ensures Times(HONEST_WEIGHT, n as real) == HONEST_WEIGHT * n as real
  {
  }

  lemma SafeRoundMargin(c: Config, s: Stream, st: State, top: real)
    requires ValidConfig(c) && SafeBelow(c, top) && top > 0.0 && Playable(c, s, st) && PoolOk(c, st.pool)
    requires ScoresAtMost(c, st.pool, top)
    ensures Margin(VotesOf(c, s, st), TruthOf(s, st)) > 0.0
  {
    hide PicksOf, VotesOf, Playable, PoolOk, Fits, SafeBelow, AllFit, AllValid, Margin, BudgetAt, ScoresAtMost,
      BeatsBudget, Sum;
    var picks := PicksOf(c, s, st);
    RoundVotes(c, s, st);
    FitsAtPicks(c, s, st);
    MarginMeetsBudget(c, st.pool, picks, VotesOf(c, s, st), TruthOf(s, st), top);
    SafeSelection(c, picks, top);
  }

  lemma ScoresAtMostOne(c: Config, pool: seq<SimValidator>)
    requires PoolOk(c, pool)
    ensures ScoresAtMost(c, pool, 1.0)
  {
    hide Sound, DomainScore;
    forall v | v in pool ensures DomainScore(v.record, c.domain) <= 1.0 {
      var i :| 0 <= i < |pool| && pool[i] == v;
    }
  }

  lemma FitsAtPicks(c: Config, s: Stream, st: State)
    requires Playable(c, s, st) && AllFit(c, s, st)
    ensures var picks := PicksOf(c, s, st);
            forall i | 0 <= i < |picks| :: Fits(c, st.pool[picks[i]], TruthOf(s, st), VotesOf(c, s, st)[i])
  {
    hide PicksOf, VotesOf, Fits, Playable;
  }

  /** In a safe configuration the truth outweighs everything else in every round, whatever
      the stream selects and draws. */
  lemma SafeRoundIsCorrect(c: Config, s: Stream, st: State, round: nat)
    requires ValidConfig(c) && Safe(c) && Playable(c, s, st) && PoolOk(c, st.pool) && !Blank(c.domain)
    ensures var r := SimulateRound(c, s, st, round);
            r.Success? && r.value.1.consensusVerdict == TruthOf(s, st) && r.value.1.correct
  {
    ScoresAtMostOne(c, st.pool);
    CappedRoundIsCorrect(c, s, st, round, 1.0);
  }

  /** It is enough to be safe against the reputations that the pool has at the time. */
  lemma CappedRoundIsCorrect(c: Config, s: Stream, st: State, round: nat, top: real)
    requires ValidConfig(c) && SafeBelow(c, top) && top > 0.0 && Playable(c, s, st) && PoolOk(c, st.pool)
    requires ScoresAtMost(c, st.pool, top) && !Blank(c.domain)
    ensures var r := SimulateRound(c, s, st, round);
            r.Success? && r.value.1.consensusVerdict == TruthOf(s, st) && r.value.1.correct
  {
    hide PicksOf, VotesOf, Playable, PoolOk, SafeBelow, SimulateRound, Decide, Margin, Blank, AllEvolved,
      ScoresAtMost;
    SafeRoundMargin(c, s, st, top);
    RoundSucceeds(c, s, st, round);
    RoundDecision(c, s, st);
  }

  /** The documented meaning of `correct`: a match that is not INDETERMINATE. */
  predicate DocumentedCorrect(r: RoundResult, truth: Verdict) {
    r.consensusVerdict == truth && r.consensusVerdict != Indeterminate
  }

  /** Exactly when a round's `correct` has its documented meaning: unless the verdict and the
      truth are both INDETERMINATE. */
  lemma CorrectAsDocumented(c: Config, s: Stream, st: State, round: nat)
    requires Playable(c, s, st) && PoolOk(c, st.pool) && !Blank(c.domain) && c.validatorSetSize > 0
    ensures var r := SimulateRound(c, s, st, round);
            && r.Success?
            && (r.value.1.correct == DocumentedCorrect(r.value.1, TruthOf(s, st)) <==>
                 !(r.value.1.consensusVerdict == TruthOf(s, st) == Indeterminate))
  {
    hide PoolOk, Playable, SimulateRound, Blank, AllEvolved, Decide, VotesOf;
    RoundSucceeds(c, s, st, round);
  }

  /** In a safe configuration that is decided by the first draw of the round. */
  lemma SafeCorrectAsDocumented(c: Config, s: Stream, st: State, round: nat)
    requires ValidConfig(c) && Safe(c) && Playable(c, s, st) && PoolOk(c, st.pool) && !Blank(c.domain)
    ensures var r := SimulateRound(c, s, st, round);
            && r.Success?
            && (r.value.1.correct != DocumentedCorrect(r.value.1, TruthOf(s, st)) <==> s.floats(st.floatsUsed) >= 0.95)
  {
    hide PoolOk, Playable, SimulateRound, Blank, Safe;
    SafeRoundIsCorrect(c, s, st, round);
  }
}
