/** A round as bad as it can be: all adversaries are selected first, vote against the truth
    with a given share of their weight, and honest validators vote as weakly as they can. */
module SimWorst {
  import opened Consensus
  import opened ConsensusLaws
  import opened Reals
  import opened Reputation
  import opened SimModel
  import opened SimRound
  import opened SimSafety
  import opened Sums
  import opened Text
  import opened Verdicts

  function Adversaries(c: Config): (n: nat)
    requires ValidConfig(c)
    ensures n == ColluderCount(c) + BiasedSeats(c) && ColluderCount(c) >= 0 && BiasedSeats(c) >= 0
  {
    SeatsAreNat(c);
    ColluderCount(c) + BiasedSeats(c)
  }

  /** A decided truth that the colluders do not vote for. */
  function WorstTruth(c: Config): (truth: Verdict)
    ensures truth in {Supported, Unsupported} && truth != c.collusionVerdict
  {
    if c.collusionVerdict == Supported then Unsupported else Supported
  }

  /** A draw that makes this verdict the truth. */
  function TruthDraw(v: Verdict): (draw: Draw)
    ensures v in CANDIDATES ==> GroundTruth(draw) == v
  {
    match v
    case Supported => 0.0
    case Unsupported => 0.4
    case Misleading => 0.8
    case Indeterminate => 0.95
    case Unrecognised(_) => 0.0
  }

  predicate AdversariesFirst(c: Config, picks: seq<nat>)
    requires ValidConfig(c)
  {
    forall i | 0 <= i < |picks| :: if i < Adversaries(c) then picks[i] == i else picks[i] >= Adversaries(c)
  }

  // ----- where the votes find their draws -----

  /** How many draws the votes before the i-th take, if the adversaries come first. */
  function Offset(c: Config, i: nat): (t: nat)
    requires ValidConfig(c)
  {
    var colluders, adversaries := ColluderCount(c), Adversaries(c);
    if i <= colluders then i
    else if i <= adversaries then 2 * i - colluders
    else adversaries - colluders + i
  }

  /** The draw at each offset: one kind for the confidence of colluders, two for the flips and
      the confidence of biased validators, and 0 for the rest. */
  function VoteDraw(c: Config, colluding: Draw, flip: Draw, biased: Draw, t: nat): Draw
    requires ValidConfig(c)
  {
    var colluders, adversaries := ColluderCount(c), Adversaries(c);
    if t < colluders then colluding
    else if t < 2 * adversaries - colluders then
      if (t - colluders) % 2 == 0 then flip else biased
    else 0.0
  }

  /** The draws that the i-th vote finds. */
  predicate DrawsFor(c: Config, s: Stream, at: nat, colluding: Draw, flip: Draw, biased: Draw, i: nat)
    requires ValidConfig(c)
  {
    if i < ColluderCount(c) then s.floats(at) == colluding
    else if i < Adversaries(c) then s.floats(at) == flip && s.floats(at + 1) == biased
    else s.floats(at) == 0.0
  }

  lemma DrawsAreFor(c: Config, s: Stream, start: nat, colluding: Draw, flip: Draw, biased: Draw, i: nat)
    requires ValidConfig(c)
    requires forall t: nat | t <= Offset(c, i) + 1 && (i >= Adversaries(c) ==> t <= Offset(c, i)) ::
               s.floats(start + t) == VoteDraw(c, colluding, flip, biased, t)
    ensures DrawsFor(c, s, start + Offset(c, i), colluding, flip, biased, i)
  {
    hide ColluderCount, BiasedSeats, ValidConfig;
    var at := Offset(c, i);
    assert s.floats(start + at) == VoteDraw(c, colluding, flip, biased, at);
    if i < Adversaries(c) {
      assert s.floats(start + (at + 1)) == VoteDraw(c, colluding, flip, biased, at + 1);
    }
  }

  /** Each selected validator plays the part of its position. */
  ghost predicate CastAt(c: Config, selected: seq<SimValidator>, picks: seq<nat>) {
    |selected| == |picks| && forall i | 0 <= i < |picks| :: Cast(c, picks[i], selected[i])
  }

  lemma {:induction false} DrawsBefore(c: Config, selected: seq<SimValidator>, picks: seq<nat>, truth: Verdict,
      s: Stream, at: nat, i: nat)
    requires ValidConfig(c) && i <= |selected| && CastAt(c, selected, picks) && AdversariesFirst(c, picks)
    ensures BuildVotes(c, selected[..i], truth, s, at).1 == at + Offset(c, i)
  {
    hide ColluderCount, BiasedCount, ValidatorName, BuildVote;
    if i > 0 {
      assert selected[..i][..i - 1] == selected[..i - 1];
      DrawsBefore(c, selected, picks, truth, s, at, i - 1);
      assert Cast(c, picks[i - 1], selected[i - 1]);
    }
  }

  lemma {:induction false} VoteIs(c: Config, selected: seq<SimValidator>, truth: Verdict, s: Stream, at: nat, i: nat)
    requires i < |selected|
    ensures BuildVotes(c, selected, truth, s, at).0[i]
            == BuildVote(c, selected[i], truth, s, BuildVotes(c, selected[..i], truth, s, at).1)
  {
    hide BuildVote, DrawsOf;
    var m := |selected| - 1;
    if i < m {
      VoteIs(c, selected[..m], truth, s, at, i);
      assert selected[..m][..i] == selected[..i];
    }
  }

  /** The i-th vote of a round that selects the adversaries first. */
  lemma RoundVote(c: Config, s: Stream, st: State, i: nat)
    requires ValidConfig(c) && Playable(c, s, st) && PoolOk(c, st.pool) && AdversariesFirst(c, PicksOf(c, s, st))
    requires i < |PicksOf(c, s, st)|
    ensures var p := PicksOf(c, s, st)[i];
            && Cast(c, p, st.pool[p])
            && VotesOf(c, s, st)[i] == BuildVote(c, st.pool[p], TruthOf(s, st), s, st.floatsUsed + 1 + Offset(c, i))
  {
    hide PicksOf, ValidatorOk, Cast, BuildVote, Offset, BuildVotes, ColluderCount, BiasedSeats, AdversariesFirst;
    var selected, at := SelectedOf(c, s, st), st.floatsUsed + 1;
    DrawsBefore(c, selected, PicksOf(c, s, st), TruthOf(s, st), s, at, i);
    VoteIs(c, selected, TruthOf(s, st), s, at, i);
  }

  /** The stream position after such a round. */
  lemma RoundDraws(c: Config, s: Stream, st: State)
    requires ValidConfig(c) && Playable(c, s, st) && PoolOk(c, st.pool) && AdversariesFirst(c, PicksOf(c, s, st))
    ensures VotesAndNext(c, s, st).1 == st.floatsUsed + 1 + Offset(c, c.validatorSetSize)
  {
    hide PicksOf, ValidatorOk, Cast, Offset, BuildVotes, ColluderCount, BiasedSeats, AdversariesFirst;
    var selected := SelectedOf(c, s, st);
    DrawsBefore(c, selected, PicksOf(c, s, st), TruthOf(s, st), s, st.floatsUsed + 1, |selected|);
    assert selected[..|selected|] == selected;
  }

  // ----- what the votes weigh -----

  const WEAK_SCORE: real := 0.15
  const RAISED_SCORE: real := 0.16
  const RAISED_WEIGHT: real := 0.004

  /** The score of the validator at position p: `top` for adversaries, unless their votes have
      no weight, and for the rest the floor, or a little more at the positions in `raised`. */
  predicate WorstScore(c: Config, top: real, raised: set<nat>, p: nat, score: real)
    requires ValidConfig(c)
  {
    if p < ColluderCount(c) then score == top
    else if p < Adversaries(c) then score == top || c.biasStrength == 1.0
    else score == if p in raised then RAISED_SCORE else WEAK_SCORE
  }

  function Bonus(raised: set<nat>, p: nat): real {
    if p in raised then RAISED_WEIGHT else 0.0
  }

  /** What an adversary's weight is at least, as a share x of its cost. */
  lemma ShareOfCost(c: Config, x: Draw, top: real)
    requires ValidConfig(c) && top > 0.0
    ensures (0.8 + x * 0.2) * top * (1.0 - 0.0) >= Times(x, top)
    ensures (0.4 + x * 0.4) * top * (1.0 - c.biasStrength) >= Times(x, BiasedCost(c, top))
  {
    var scaled := Times(top, 1.0 - c.biasStrength);
    MulNonNegative(top, 1.0 - c.biasStrength);
    ShareBelow(x, top);
    ShareBelow(x, scaled);
    BiasedShare(x, top, 1.0 - c.biasStrength);
    CostIs(c, top);
    hide Times, BiasedCost;
    ColludingShare(x, top);
  }

  lemma CostIs(c: Config, top: real)
    ensures BiasedCost(c, top) == 0.8 * Times(top, 1.0 - c.biasStrength)
  {
  }

  lemma ShareBelow(x: Draw, y: real)
    requires y >= 0.0
    ensures Times(x, y) <= y
    ensures Times(x, 0.8 * y) == 0.8 * Times(x, y)
  {
    MulMonotone(x, 1.0, y);
  }

  lemma ColludingShare(x: real, top: real)
    ensures (0.8 + x * 0.2) * top * (1.0 - 0.0) == 0.8 * top + 0.2 * Times(x, top)
  {
  }

  lemma BiasedShare(x: real, top: real, correction: real)
    ensures (0.4 + x * 0.4) * top * correction == 0.4 * Times(top, correction) + 0.4 * Times(x, Times(top, correction))
  {
    var scaled := top * correction;
    assert (0.4 + x * 0.4) * top * correction == (0.4 + x * 0.4) * scaled;
  }

  lemma WorstVote(c: Config, x: Draw, top: real, raised: set<nat>, v: SimValidator, p: nat, i: nat, s: Stream, at: nat)
    requires ValidConfig(c) && top > 0.0 && Cast(c, p, v)
    requires if i < Adversaries(c) then p == i else p >= Adversaries(c)
    requires WorstScore(c, top, raised, p, DomainScore(v.record, c.domain)) && DrawsFor(c, s, at, x, 0.0, x, i)
    requires forall r | r in raised :: r >= Adversaries(c)
    ensures var vote := BuildVote(c, v, WorstTruth(c), s, at);
            MarginFor(WorstTruth(c))(vote)
              <= BudgetAt(c, Times(x, top), Times(x, BiasedCost(c, top)), p) + Bonus(raised, p)
  {
    hide ColluderCount, BiasedCount, DomainScore, ValidatorName, Times, WorstTruth;
    ShareOfCost(c, x, top);
    if c.biasStrength == 1.0 {
      NoCost(c, x, top);
    }
    hide BiasedCost;
  }

  lemma NoCost(c: Config, x: real, top: real)
    requires c.biasStrength == 1.0
    ensures Times(x, BiasedCost(c, top)) == 0.0
  {
  }

  lemma {:induction false} MarginBelowBudget(c: Config, u: real, v: real, raised: set<nat>, picks: seq<nat>,
      votes: seq<Vote>, truth: Verdict)
    requires |votes| == |picks|
    requires forall i | 0 <= i < |votes| ::
               MarginFor(truth)(votes[i]) <= BudgetAt(c, u, v, picks[i]) + Bonus(raised, picks[i])
    ensures Margin(votes, truth) <= Sum(BudgetIn(c, u, v), picks) + RAISED_WEIGHT * Hits(picks, raised) as real
  {
    hide BudgetAt, AdjustedWeight;
    if votes != [] {
      var m := |votes| - 1;
      MarginBelowBudget(c, u, v, raised, picks[..m], votes[..m], truth);
    }
  }

  // ----- the round -----

  /** The margin of the truth is not positive, so the verdict is another one. */
  lemma NoMarginNoTruth(c: Config, s: Stream, st: State, round: nat)
    requires ValidConfig(c) && Playable(c, s, st) && PoolOk(c, st.pool) && !Blank(c.domain)
    requires TruthOf(s, st) != Indeterminate && Margin(VotesOf(c, s, st), TruthOf(s, st)) <= 0.0
    ensures var r := SimulateRound(c, s, st, round);
            r.Success? && !r.value.1.correct
  {
    hide PoolOk, Playable, SimulateRound, Blank, Decide, Margin, VotesOf, AllEvolved, AllFit, Quorum;
    RoundSucceeds(c, s, st, round);
    RoundVotes(c, s, st);
    VerdictExactly(VotesOf(c, s, st), c.validatorSetSize, TruthOf(s, st));
  }

  /** The scores and the draws that a round finds are the worst ones. */
  ghost predicate WorstRound(c: Config, s: Stream, st: State, x: Draw, top: real, raised: set<nat>)
    requires ValidConfig(c) && Playable(c, s, st)
  {
    var picks := PicksOf(c, s, st);
    && AdversariesFirst(c, picks)
    && TruthOf(s, st) == WorstTruth(c)
    && (forall r | r in raised :: r >= Adversaries(c))
    && (forall i: nat | i < |picks| ::
         && WorstScore(c, top, raised, picks[i], DomainScore(st.pool[picks[i]].record, c.domain))
         && DrawsFor(c, s, st.floatsUsed + 1 + Offset(c, i), x, 0.0, x, i))
  }

  /** Such a round is lost if the adversaries' share of their weight balances the rest. */
  lemma WorstRoundIsWrong(c: Config, s: Stream, st: State, round: nat, x: Draw, top: real, raised: set<nat>)
    requires ValidConfig(c) && Playable(c, s, st) && PoolOk(c, st.pool) && !Blank(c.domain) && top > 0.0
    requires WorstRound(c, s, st, x, top, raised)
    requires Sum(BudgetIn(c, Times(x, top), Times(x, BiasedCost(c, top))), PicksOf(c, s, st))
             + RAISED_WEIGHT * Hits(PicksOf(c, s, st), raised) as real <= 0.0
    ensures var r := SimulateRound(c, s, st, round);
            r.Success? && !r.value.1.correct
  {
    hide PicksOf, Playable, PoolOk, Cast, DomainScore, BuildVote, BudgetAt, Bonus, Times, BiasedCost, AdjustedWeight,
      WorstTruth, Offset, VotesOf, WorstScore, DrawsFor, Blank, Sum, Hits, SimulateRound, Margin, ValidConfig;
    var picks, votes := PicksOf(c, s, st), VotesOf(c, s, st);
    var u, v := Times(x, top), Times(x, BiasedCost(c, top));
    forall i: nat | i < |picks|
      ensures MarginFor(WorstTruth(c))(votes[i]) <= BudgetAt(c, u, v, picks[i]) + Bonus(raised, picks[i])
    {
      RoundVote(c, s, st, i);
      WorstVote(c, x, top, raised, st.pool[picks[i]], picks[i], i, s, st.floatsUsed + 1 + Offset(c, i));
    }
    MarginBelowBudget(c, u, v, raised, picks, votes, WorstTruth(c));
    NoMarginNoTruth(c, s, st, round);
  }

  // ----- balances -----

  lemma {:induction false} FirstHits(c: Config, picks: seq<nat>, lo: nat, hi: nat)
    requires ValidConfig(c) && AdversariesFirst(c, picks) && lo <= hi <= Adversaries(c)
    ensures Hits(picks, Seats(lo, hi)) == if |picks| <= lo then 0 else if |picks| <= hi then |picks| - lo else hi - lo
  {
    hide ColluderCount, BiasedSeats, ValidConfig;
    if picks != [] {
      FirstHits(c, picks[..|picks| - 1], lo, hi);
    }
  }

  /** With all adversaries selected and a share x of their weight. */
  lemma AllAdversaries(c: Config, x: real, top: real, picks: seq<nat>)
    requires ValidConfig(c) && AdversariesFirst(c, picks) && Adversaries(c) <= |picks|
    ensures Sum(BudgetIn(c, Times(x, top), Times(x, BiasedCost(c, top))), picks) ==
            HONEST_WEIGHT * (|picks| - Adversaries(c)) as real - Times(x, AdversaryWeight(c, top))
  {
    hide ColluderCount, BiasedSeats, Times, Seats, Hits, Sum, BudgetIn, AdversariesFirst, BiasedCost, ValidConfig;
    var C, B := ColluderCount(c), BiasedSeats(c);
    var u, v := Times(x, top), Times(x, BiasedCost(c, top));
    assert Adversaries(c) == C + B;
    FirstHits(c, picks, 0, C);
    FirstHits(c, picks, C, C + B);
    BudgetByHits(c, u, v, picks);
    TimesDistributes(u, HONEST_WEIGHT, C as real);
    TimesDistributes(v, HONEST_WEIGHT, B as real);
    TimesHonest(C);
    TimesHonest(B);
    TimesAssociates(x, top, C as real);
    TimesAssociates(x, BiasedCost(c, top), B as real);
    TimesOverSum(x, Times(top, C as real), Times(BiasedCost(c, top), B as real));
  }

  lemma TimesOverSum(x: real, a: real, b: real)
    ensures Times(x, a + b) == Times(x, a) + Times(x, b)
  {
  }

  /** With nobody but adversaries selected. */
  lemma {:induction false} OnlyAdversaries(c: Config, u: real, v: real, picks: seq<nat>)
    requires ValidConfig(c) && u >= 0.0 && v >= 0.0 && forall p | p in picks :: p < Adversaries(c)
    ensures Sum(BudgetIn(c, u, v), picks) <= 0.0
  {
    hide ColluderCount, BiasedSeats;
    if picks != [] {
      var m := |picks| - 1;
      assert picks[m] in picks && forall p | p in picks[..m] :: p in picks;
      OnlyAdversaries(c, u, v, picks[..m]);
    }
  }

  lemma ShareIsDraw(honest: real, weight: real)
    requires 0.0 < honest < weight
    ensures 0.0 <= honest / weight < 1.0
    ensures Times(honest / weight, weight) == honest
  {
    QuotientAtLeast(honest, weight, 0.0);
    QuotientAtLeast(honest, weight, 1.0);
  }
}
