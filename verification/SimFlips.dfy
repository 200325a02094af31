/** A biased validator that does not always flip can be flagged and forgotten in every run of
    seven rounds or more: a stream lets it flip alone at first, and nobody afterwards. */
module SimFlips {
  import opened Bias
  import opened Consensus
  import opened Reals
  import opened Reputation
  import opened SimAllRounds
  import opened SimFirstRound
  import opened SimFlags
  import opened SimModel
  import opened SimRound
  import opened SimRuns
  import opened SimSafety
  import opened SimScript
  import opened SimSecondRound
  import opened SimWindows
  import opened SimWorst
  import opened Sums
  import opened Text
  import opened Verdicts

  /** Some position of the pool is a biased validator's, and it does not always flip. */
  predicate HasFlipper(c: Config) {
    && BiasedSeats(c) > 0
    && ColluderCount(c) < c.validatorPoolSize
    && c.biasStrength < 1.0
  }

  // ----- the stream -----

  /** The truth of every round, which is what the colluders vote for. */
  function AgreedTruth(c: Config): Verdict {
    FirstTruth(c)
  }

  /** The first biased validator in front, and everybody else in place. */
  function Swapped(c: Config, n: nat): (p: seq<nat>)
    requires ValidConfig(c)
    ensures |p| == n
  {
    SeatsAreNat(c);
    var C := ColluderCount(c);
    if C < n then Identity(n)[0 := C][C := 0] else Identity(n)
  }

  lemma SwappedIsPermutation(c: Config, n: nat)
    requires ValidConfig(c)
    ensures IsPermutation(Swapped(c, n), n)
  {
    SeatsAreNat(c);
    hide ColluderCount, ValidConfig;
    if n == 0 {
    } else if ColluderCount(c) == 0 {
    }
  }

  function FlipPicks(c: Config): (picks: seq<nat>)
    requires ValidConfig(c)
    ensures |picks| == c.validatorSetSize
  {
    CollusionFits(c);
    Swapped(c, c.validatorPoolSize)[..c.validatorSetSize]
  }

  function DrawsAtPosition(c: Config, p: nat): nat {
    if ColluderCount(c) <= p < ColluderCount(c) + BiasedSeats(c) then 2 else 1
  }

  function TotalDraws(c: Config, picks: seq<nat>): nat {
    if picks == [] then 0 else TotalDraws(c, picks[..|picks| - 1]) + DrawsAtPosition(c, picks[|picks| - 1])
  }

  function FlipLength(c: Config): (n: nat)
    requires ValidConfig(c)
    ensures n > 0
  {
    1 + TotalDraws(c, FlipPicks(c))
  }

  /** The truth, then the draw for the flip of the first validator, and then draws that make
      nobody flip. */
  function FlipDraw(c: Config, flips: nat, j: nat): Draw
    requires ValidConfig(c)
  {
    var pool := 2 * c.validatorPoolSize;
    if j < pool then 0.0
    else
      var round, t := (j - pool) / FlipLength(c), (j - pool) % FlipLength(c);
      if t == 0 then TruthDraw(AgreedTruth(c))
      else if t == 1 && round < flips then 0.0
      else Steady(c)
  }

  function FlipStream(c: Config, flips: nat): Stream
    requires ValidConfig(c)
  {
    Stream((j: nat) => FlipDraw(c, flips, j), (_: nat, n: nat) => Swapped(c, n))
  }

  lemma FlipIsLawful(c: Config, flips: nat)
    requires ValidConfig(c)
    ensures Lawful(FlipStream(c, flips))
  {
    hide IsPermutation, Swapped, ValidConfig;
    forall i: nat, n: nat ensures IsPermutation(FlipStream(c, flips).perms(i, n), n) {
      SwappedIsPermutation(c, n);
    }
  }

  function FlipPosition(c: Config, n: nat): nat
    requires ValidConfig(c)
  {
    2 * c.validatorPoolSize + n * FlipLength(c)
  }

  lemma NextFlipPosition(c: Config, n: nat)
    requires ValidConfig(c)
    ensures FlipPosition(c, 0) == 2 * c.validatorPoolSize
    ensures FlipPosition(c, n + 1) == FlipPosition(c, n) + FlipLength(c)
  {
    var k := FlipLength(c);
    assert (n + 1) * k == n * k + k;
  }

  lemma WithinRound(n: nat, k: nat, t: nat)
    requires t < k
    ensures n * k + t >= 0 && (n * k + t) / k == n && (n * k + t) % k == t
  {
    NatProduct(n, k);
    var x := n * k + t;
    var q, r := x / k, x % k;
    DivMod(x, k);
    var d := n - q;
    assert d * k == r - t;
    AtLeastOnce(d, k);
    AtLeastOnce(-d, k);
    assert (-d) * k == -(d * k);
  }

  lemma FlipDrawAt(c: Config, flips: nat, n: nat, t: nat)
    requires ValidConfig(c) && t < FlipLength(c)
    ensures FlipDraw(c, flips, FlipPosition(c, n) + t) ==
            if t == 0 then TruthDraw(AgreedTruth(c)) else if t == 1 && n < flips then 0.0 else Steady(c)
  {
    hide FlipLength, TruthDraw, AgreedTruth, Steady;
    WithinRound(n, FlipLength(c), t);
    NatProduct(n, FlipLength(c));
    assert FlipPosition(c, n) + t - 2 * c.validatorPoolSize == n * FlipLength(c) + t;
  }

  // ----- a round of it -----

  lemma DrawsAre(c: Config, p: nat, v: SimValidator)
    requires ValidConfig(c) && Cast(c, p, v)
    ensures DrawsOf(v) == DrawsAtPosition(c, p)
  {
    hide ColluderCount, BiasedCount, ValidatorName;
  }

  lemma {:induction false} DrawsInAll(c: Config, selected: seq<SimValidator>, picks: seq<nat>, truth: Verdict,
      s: Stream,
      at: nat)
    requires ValidConfig(c) && CastAt(c, selected, picks)
    ensures BuildVotes(c, selected, truth, s, at).1 == at + TotalDraws(c, picks)
  {
    hide DrawsOf, BuildVote, Cast, DrawsAtPosition, ValidConfig;
    if selected != [] {
      var m := |selected| - 1;
      assert Cast(c, picks[m], selected[m]);
      DrawsAre(c, picks[m], selected[m]);
      DrawsInAll(c, selected[..m], picks[..m], truth, s, at);
    }
  }

  lemma {:induction false} PrefixDraws(c: Config, picks: seq<nat>, i: nat)
    requires i <= |picks|
    ensures TotalDraws(c, picks) >= TotalDraws(c, picks[..i]) + |picks| - i
    ensures TotalDraws(c, picks[..i]) >= i
  {
    hide ColluderCount, BiasedSeats;
    if i == |picks| {
      assert picks[..i] == picks;
      if i > 0 {
        PrefixDraws(c, picks[..i - 1], i - 1);
        assert picks[..i - 1][..i - 1] == picks[..i - 1];
      }
    } else {
      PrefixDraws(c, picks[..|picks| - 1], i);
      assert picks[..|picks| - 1][..i] == picks[..i];
    }
  }

  lemma FlipRunStandsAt(c: Config, flips: nat, n: nat)
    requires ValidConfig(c) && !Blank(c.domain)
    ensures Lawful(FlipStream(c, flips))
    ensures var s := FlipStream(c, flips);
            && RunRounds(c, s, n).Success?
            && StateAfter(c, s, n).floatsUsed == FlipPosition(c, n)
            && Playable(c, s, StateAfter(c, s, n)) && PoolOk(c, StateAfter(c, s, n).pool)
            && PicksOf(c, s, StateAfter(c, s, n)) == FlipPicks(c)
  {
    hide SimulateRound, Blank, Lawful, RunRounds, Playable, VotesAndNext, FlipPosition, ValidConfig, UpdatedPool,
      InitialState, FlipLength, FlipDraw, Swapped, ReportOk, ValidatorOk, Cast;
    var s := FlipStream(c, flips);
    FlipIsLawful(c, flips);
    EveryRunProceeds(c, s, n);
    if n == 0 {
      StartsAt(c, s);
      NextFlipPosition(c, 0);
    } else {
      FlipRunStandsAt(c, flips, n - 1);
      NextState(c, s, n - 1);
      var st := StateAfter(c, s, n - 1);
      RoundState(c, s, st, n - 1);
      FlipRoundTakes(c, s, st);
      NextFlipPosition(c, n - 1);
    }
    FlipPicksAre(c, flips, StateAfter(c, s, n));
  }

  lemma FlipPicksAre(c: Config, flips: nat, st: State)
    requires ValidConfig(c) && Playable(c, FlipStream(c, flips), st) && PoolOk(c, st.pool)
    ensures PicksOf(c, FlipStream(c, flips), st) == FlipPicks(c)
  {
    hide ValidatorOk, Cast, ValidConfig, Swapped, FlipDraw;
  }

  lemma FlipRoundTakes(c: Config, s: Stream, st: State)
    requires ValidConfig(c) && Playable(c, s, st) && PoolOk(c, st.pool) && PicksOf(c, s, st) == FlipPicks(c)
    ensures VotesAndNext(c, s, st).1 == st.floatsUsed + FlipLength(c)
  {
    hide PicksOf, ValidatorOk, Cast, BuildVotes, TotalDraws, FlipPicks, Playable, ValidConfig;
    DrawsInAll(c, SelectedOf(c, s, st), PicksOf(c, s, st), TruthOf(s, st), s, st.floatsUsed + 1);
  }

  // ----- the votes of a round -----

  lemma FlipPicksFacts(c: Config, i: nat)
    requires ValidConfig(c) && HasFlipper(c) && i < c.validatorSetSize
    ensures ColluderCount(c) >= 0 && FlipPicks(c)[0] == ColluderCount(c)
    ensures i > 0 ==> FlipPicks(c)[i] != ColluderCount(c)
  {
    CollusionFits(c);
    hide ColluderCount, BiasedSeats, ValidConfig;
  }

  /** The draws of the votes before the i-th, which are at least two once the flipper voted. */
  lemma DrawsBeforeVote(c: Config, i: nat)
    requires ValidConfig(c) && HasFlipper(c) && i < c.validatorSetSize
    ensures 1 + TotalDraws(c, FlipPicks(c)[..i]) < FlipLength(c)
    ensures if i == 0 then TotalDraws(c, FlipPicks(c)[..i]) == 0 else TotalDraws(c, FlipPicks(c)[..i]) >= 2
  {
    hide ValidConfig, FlipPicks, ColluderCount, BiasedSeats;
    var picks := FlipPicks(c);
    PrefixDraws(c, picks, i);
    FlipPicksFacts(c, i);
    if i > 0 {
      FirstTakesTwo(c, picks[..i]);
    }
  }

  lemma {:induction false} FirstTakesTwo(c: Config, picks: seq<nat>)
    requires picks != [] && picks[0] == ColluderCount(c) && BiasedSeats(c) > 0
    ensures TotalDraws(c, picks) >= 2
  {
    hide ColluderCount, BiasedSeats;
    if |picks| > 1 {
      FirstTakesTwo(c, picks[..|picks| - 1]);
    } else {
      assert picks[..0] == [];
    }
  }

  /** One validator's vote: the flipper flips with a draw of 0, and nobody with a steady draw. */
  lemma SteadyVote(c: Config, p: nat, v: SimValidator, s: Stream, at: nat, flip: bool)
    requires ValidConfig(c) && HasFlipper(c) && Cast(c, p, v)
    requires flip ==> p == ColluderCount(c)
    requires s.floats(at) == if flip then 0.0 else Steady(c)
    ensures BuildVote(c, v, AgreedTruth(c), s, at).verdict
            == if flip then OppositeVerdict(AgreedTruth(c)) else AgreedTruth(c)
  {
    hide DomainScore, ColluderCount, BiasedCount, ValidatorName, FirstTruth;
    FirstTruthIsCandidate(c);
  }

  lemma FlipVotes(c: Config, flips: nat, n: nat)
    requires ValidConfig(c) && !Blank(c.domain) && HasFlipper(c)
    ensures Lawful(FlipStream(c, flips)) && RunRounds(c, FlipStream(c, flips), n).Success?
    ensures Playable(c, FlipStream(c, flips), StateAfter(c, FlipStream(c, flips), n))
    ensures var votes := VotesOf(c, FlipStream(c, flips), StateAfter(c, FlipStream(c, flips), n));
            && |votes| == c.validatorSetSize
            && forall i | 0 <= i < |votes| ::
                 votes[i].verdict
                 == if i == 0 && n < flips then OppositeVerdict(AgreedTruth(c)) else AgreedTruth(c)
  {
    hide Blank, Lawful, RunRounds, FlipDraw, FlipLength, FlipPosition, ValidConfig, BuildVote, BuildVotes,
      ValidatorOk, Cast, AgreedTruth, TruthDraw, Steady, FlipPicks, TotalDraws, HasFlipper, PicksOf, Playable,
      TruthOf;
    var s := FlipStream(c, flips);
    FlipRunStandsAt(c, flips, n);
    var st := StateAfter(c, s, n);
    var selected, picks, at := SelectedOf(c, s, st), FlipPicks(c), st.floatsUsed + 1;
    FlipTruth(c, flips, n, st);
    CollusionFits(c);
    forall i: nat | i < |selected|
      ensures VotesOf(c, s, st)[i].verdict
              == if i == 0 && n < flips then OppositeVerdict(AgreedTruth(c)) else AgreedTruth(c)
    {
      VoteIs(c, selected, TruthOf(s, st), s, at, i);
      DrawsInAll(c, selected[..i], picks[..i], TruthOf(s, st), s, at);
      DrawsBeforeVote(c, i);
      var t := 1 + TotalDraws(c, picks[..i]);
      FlipDrawAt(c, flips, n, t);
      assert s.floats(FlipPosition(c, n) + t) == FlipDraw(c, flips, FlipPosition(c, n) + t);
      FlipPicksFacts(c, i);
      SteadyVote(c, picks[i], selected[i], s, at + TotalDraws(c, picks[..i]), i == 0 && n < flips);
    }
  }

  lemma FlipTruth(c: Config, flips: nat, n: nat, st: State)
    requires ValidConfig(c) && st.floatsUsed == FlipPosition(c, n)
    ensures TruthOf(FlipStream(c, flips), st) == AgreedTruth(c)
  {
    hide FlipLength, FirstTruth, TruthDraw, ValidConfig, FlipPosition, FlipDraw;
    FlipDrawAt(c, flips, n, 0);
    FirstTruthIsCandidate(c);
    assert FlipStream(c, flips).floats(st.floatsUsed) == FlipDraw(c, flips, FlipPosition(c, n) + 0);
  }

  // ----- the flipper's deviation -----

  function FlipGap(c: Config): real {
    if AgreedTruth(c) in {Supported, Unsupported} then 1.0 else 0.5
  }

  function FlipDeviation(c: Config): real
    requires c.validatorSetSize > 0
  {
    Ratio(Times(FlipGap(c), (c.validatorSetSize - 1) as real), c.validatorSetSize)
  }

  lemma {:induction false} SumOfRest(votes: seq<Vote>, first: Verdict, rest: Verdict)
    requires votes != []
    requires forall i | 0 <= i < |votes| :: votes[i].verdict == if i == 0 then first else rest
    ensures Sum(VoteScore, votes) == SupportScore(first) + Times(SupportScore(rest), (|votes| - 1) as real)
  {
    hide Times, SupportScore;
    TimesCount(SupportScore(rest), |votes| - 1);
    if |votes| > 1 {
      var m := |votes| - 1;
      SumOfRest(votes[..m], first, rest);
      TimesCount(SupportScore(rest), m - 1);
    } else {
      assert votes[..0] == [];
    }
  }

  lemma LoneDeviation(votes: seq<Vote>, first: Verdict, rest: Verdict, round: nat)
    requires votes != []
    requires forall i | 0 <= i < |votes| :: votes[i].verdict == if i == 0 then first else rest
    ensures var diff := SupportScore(first) - SupportScore(rest);
            Deviation(ObservationOf(votes[0], PopulationAverage(votes), round))
            == Ratio(Times(if diff < 0.0 then -diff else diff, (|votes| - 1) as real), |votes|)
  {
    hide Ratio, ClaimName, SupportScore;
    SumOfRest(votes, first, rest);
    var n, average := |votes| as real, PopulationAverage(votes);
    var a, b := SupportScore(first), SupportScore(rest);
    QuotientTimes(Sum(VoteScore, votes), n);
    LoneDistance(a, b, average, n);
    Distance(a, average, a - b, n - 1.0, |votes|);
    hide Sum, Times;
  }

  lemma LoneDistance(a: real, b: real, average: real, n: real)
    requires Times(average, n) == a + Times(b, n - 1.0)
    ensures Times(a - average, n) == Times(a - b, n - 1.0)
  {
    assert (a - average) * n == a * n - average * n;
    assert (a - b) * (n - 1.0) == a * n - a - b * (n - 1.0);
  }

  lemma GapsOfTruth(c: Config)
    requires AgreedTruth(c) in CANDIDATES
    ensures var diff := SupportScore(OppositeVerdict(AgreedTruth(c))) - SupportScore(AgreedTruth(c));
            (if diff < 0.0 then -diff else diff) == FlipGap(c)
  {
    hide FirstTruth;
  }

  lemma NoDifference(k: nat)
    requires k > 0
    ensures Ratio(Times(0.0, (k - 1) as real), k) == 0.0
  {
  }

  /** A round of the stream adds an observation with that deviation, or with none. */
  lemma FlipStep(c: Config, flips: nat, n: nat) returns (obs: Observation)
    requires ValidConfig(c) && !Blank(c.domain) && HasFlipper(c)
    ensures Lawful(FlipStream(c, flips)) && c.validatorSetSize > 0 && ColluderCount(c) >= 0
    ensures var s, p := FlipStream(c, flips), ColluderCount(c);
            && RunRounds(c, s, n).Success? && RunRounds(c, s, n + 1).Success?
            && WindowAfter(c, s, n + 1, p) == Slide(WindowAfter(c, s, n, p), DEFAULT_WINDOW_SIZE, obs)
    ensures Deviation(obs) == if n < flips then FlipDeviation(c) else 0.0
  {
    hide SimulateRound, PoolOk, Blank, Lawful, Playable, RunRounds, WindowOf, ClaimName, Slide, PicksOf, VotesOf,
      PopulationAverage, Deviation, ColluderCount, HasFlipper, ValidConfig, FlipStream, Ratio, Times, FlipPicks,
      AgreedTruth, FlipGap, SupportScore;
    var s, p := FlipStream(c, flips), ColluderCount(c);
    CollusionFits(c);
    FlipRunStandsAt(c, flips, n);
    FlipVotes(c, flips, n);
    NextState(c, s, n);
    FlipPicksFacts(c, 0);
    FirstTruthIsCandidate(c);
    var st := StateAfter(c, s, n);
    var votes := VotesOf(c, s, st);
    RoundHolds(c, s, st, n, p);
    obs := ObservationOf(votes[0], PopulationAverage(votes), n);
    AgreedIs(c);
    LoneDeviation(votes, if n < flips then OppositeVerdict(AgreedTruth(c)) else AgreedTruth(c), AgreedTruth(c), n);
    GapsOfTruth(c);
    NoDifference(c.validatorSetSize);
  }

  lemma AgreedIs(c: Config)
    ensures AgreedTruth(c) == FirstTruth(c)
  {
  }

  // ----- the flipper's window -----

  lemma {:induction false} FlipWindow(c: Config, flips: nat, n: nat)
    requires ValidConfig(c) && !Blank(c.domain) && HasFlipper(c) && flips <= 5 && n <= 5
    ensures Lawful(FlipStream(c, flips)) && c.validatorSetSize > 0 && ColluderCount(c) >= 0
    ensures RunRounds(c, FlipStream(c, flips), n).Success?
    ensures var w := WindowAfter(c, FlipStream(c, flips), n, ColluderCount(c));
            |w| == n && Sum(Deviation, w) == Times(FlipDeviation(c), (if n < flips then n else flips) as real)
  {
    hide FlipStream, Blank, Lawful, RunRounds, WindowAfter, Deviation, ColluderCount, HasFlipper, ValidConfig, Slide,
      FlipDeviation, Times;
    CollusionFits(c);
    TimesCount(FlipDeviation(c), if n == 0 then 0 else n - 1);
    if n == 0 {
      FlipIsLawful(c, flips);
      NothingHeldYet(c, FlipStream(c, flips), ColluderCount(c));
    } else {
      FlipWindow(c, flips, n - 1);
      var obs := FlipStep(c, flips, n - 1);
      SlideBelowSize(WindowAfter(c, FlipStream(c, flips), n - 1, ColluderCount(c)), obs);
    }
  }

  lemma {:induction false} FlipFades(c: Config, flips: nat, n: nat)
    requires ValidConfig(c) && !Blank(c.domain) && HasFlipper(c) && flips <= 5 <= n
    ensures Lawful(FlipStream(c, flips)) && c.validatorSetSize > 0 && ColluderCount(c) >= 0
    ensures RunRounds(c, FlipStream(c, flips), n).Success?
    ensures var w := WindowAfter(c, FlipStream(c, flips), n, ColluderCount(c));
            && |w| == (if n < DEFAULT_WINDOW_SIZE then n else DEFAULT_WINDOW_SIZE)
            && Sum(Deviation, w) <= Times(FlipDeviation(c), flips as real)
    decreases n
  {
    hide FlipStream, Blank, Lawful, RunRounds, WindowAfter, Deviation, ColluderCount, HasFlipper, ValidConfig, Slide,
      FlipDeviation, Sum, Times;
    if n == 5 {
      FlipWindow(c, flips, 5);
    } else {
      FlipFades(c, flips, n - 1);
      var obs := FlipStep(c, flips, n - 1);
      SlideNothing(WindowAfter(c, FlipStream(c, flips), n - 1, ColluderCount(c)), obs);
    }
  }

  lemma FlipDeviationRange(c: Config)
    requires ValidConfig(c)
    ensures c.validatorSetSize > 0
    ensures var d := FlipDeviation(c);
            1.5 <= Times(d, Fulls(d) as real) < 2.1 && Fulls(d) <= 5
  {
    hide AgreedTruth;
    var k := c.validatorSetSize as real;
    var share := (k - 1.0) / k;
    assert share * k == k - 1.0;
    QuotientAtLeast(k - 1.0, k, 2.0 / 3.0);
    QuotientAtMost(k - 1.0, k, 1.0);
    if c.validatorSetSize > 3 {
      QuotientAtLeast(k - 1.0, k, 0.75);
    } else {
      QuotientAtMost(k - 1.0, k, 2.0 / 3.0);
    }
    var d := FlipDeviation(c);
    FlipDeviationIs(c, share);
    hide FlipDeviation, ValidConfig;
  }

  lemma FlipDeviationIs(c: Config, share: real)
    requires c.validatorSetSize > 0 && share == (c.validatorSetSize as real - 1.0) / c.validatorSetSize as real
    ensures FlipDeviation(c) == share || FlipDeviation(c) == share / 2.0
  {
    HalfOfPeak((c.validatorSetSize - 1) as real, c.validatorSetSize);
  }

  // ----- losing the flag -----

  lemma FlipperLoses(c: Config)
    requires ValidConfig(c) && !Blank(c.domain) && HasFlipper(c) && c.rounds >= 7
    ensures exists s :: Lawful(s) && !CountsEveryFlag(c, s)
  {
    hide Blank, Lawful, RunRounds, WindowAfter, Deviation, ColluderCount, HasFlipper, ValidConfig, Sum, Coefficient,
      FlipStream, FlipDeviation, CountsEveryFlag, Fulls, Times;
    FlipDeviationRange(c);
    var flips := Fulls(FlipDeviation(c));
    var s, p := FlipStream(c, flips), ColluderCount(c);
    FlipWindow(c, flips, 5);
    FlipFades(c, flips, c.rounds);
    CoefficientAtLeast(WindowAfter(c, s, 5, p), BIAS_MODERATE_THRESHOLD);
    CoefficientAtLeast(WindowAfter(c, s, c.rounds, p), BIAS_MODERATE_THRESHOLD);
    assert FlaggedAfter(c, s, 5, p);
    assert !FlaggedAfter(c, s, c.rounds, p);
    FlipperIsInPool(c);
    CountsIfNoneLost(c, s);
  }

  lemma FlipperIsInPool(c: Config)
    ensures HasFlipper(c) ==> ColluderCount(c) < c.validatorPoolSize
  {
  }

  /** Exactly when the final count is the number of validators flagged at least once, for every
      stream and in runs of seven rounds or more: if there is no biased validator, and neither
      a colluder nor an honest validator can be flagged. */
  lemma LongRunsExactly(c: Config)
    requires ValidConfig(c) && !Blank(c.domain) && c.rounds >= 7 && (BiasedSeats(c) == 0 || HasFlipper(c))
    ensures (forall s | Lawful(s) :: CountsEveryFlag(c, s)) <==>
            && BiasedSeats(c) == 0
            && Peak(c, true) < BIAS_MODERATE_THRESHOLD
            && Peak(c, false) < BIAS_MODERATE_THRESHOLD
  {
    hide Blank, Lawful, CountsEveryFlag, ValidConfig, Peak, FiveInReach, BiasedSeats;
    if BiasedSeats(c) == 0 {
      CountsEveryFlagExactly(c);
    } else {
      FlipperLoses(c);
    }
  }
}
