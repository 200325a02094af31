/** Streams that play a given script: in each round a given truth, with a given number of
    colluders selected, and always with the same validator among the selected. */
module SimScript {
  import opened Bias
  import opened BiasLaws
  import opened Reals
  import opened SimAllRounds
  import opened SimFirstRound
  import opened SimModel
  import opened SimQuiet
  import opened SimRound
  import opened SimRuns
  import opened SimSafety
  import opened SimWindows
  import opened SimWorst
  import opened Sums
  import opened Text
  import opened Verdicts

  // ----- the script -----

  /** The rounds that are written down, and then rounds in which the lie is the truth. */
  function PlanAt(c: Config, plans: seq<Plan>, round: nat): Plan
    requires plans != []
  {
    if round < |plans| then plans[round] else Plan(c.collusionVerdict, plans[0].colluders)
  }

  /** The position of a validator of this kind. */
  function Target(c: Config, colluder: bool): (p: nat)
    requires ValidConfig(c)
  {
    CollusionFits(c);
    if colluder then 0 else ColluderCount(c)
  }

  ghost predicate CanPlayAll(c: Config, colluder: bool, plans: seq<Plan>) {
    plans != [] && forall i | 0 <= i < |plans| :: CanPlay(c, colluder, plans[i])
  }

  /** j colluders first, then honest validators up to a set, and then everybody else. */
  function Arranged(c: Config, j: nat): (p: seq<nat>)
    requires ValidConfig(c) && Selects(c, j)
    ensures |p| == c.validatorPoolSize
  {
    CollusionFits(c);
    seq(c.validatorPoolSize, i requires 0 <= i < c.validatorPoolSize => ArrangedAt(c, j, i))
  }

  function ArrangedAt(c: Config, j: nat, i: nat): nat
    requires ValidConfig(c) && Selects(c, j)
  {
    CollusionFits(c);
    var k, C := c.validatorSetSize, ColluderCount(c);
    if i < j then i
    else if i < k then C + (i - j)
    else if i < k + C - j then j + (i - k)
    else i
  }

  lemma ArrangedIsPermutation(c: Config, j: nat)
    requires ValidConfig(c) && Selects(c, j)
    ensures IsPermutation(Arranged(c, j), c.validatorPoolSize)
  {
    CollusionFits(c);
    hide ColluderCount, ValidConfig;
  }

  lemma {:induction false} ArrangedHits(c: Config, j: nat, m: nat)
    requires ValidConfig(c) && Selects(c, j) && m <= c.validatorSetSize
    ensures m <= c.validatorPoolSize
    ensures Hits(Arranged(c, j)[..m], ColluderSeatSet(c)) == if m <= j then m else j
  {
    CollusionFits(c);
    hide ColluderCount, ValidConfig;
    if m > 0 {
      ArrangedHits(c, j, m - 1);
      assert Arranged(c, j)[..m][..m - 1] == Arranged(c, j)[..m - 1];
    }
  }

  /** Where the target stands among the selected. */
  function Seat(colluder: bool, j: nat): nat {
    if colluder then 0 else j
  }

  lemma TargetIsSelected(c: Config, colluder: bool, j: nat)
    requires ValidConfig(c) && SelectsWith(c, colluder, j)
    ensures 0 < c.validatorSetSize <= c.validatorPoolSize && Seat(colluder, j) < c.validatorSetSize
    ensures Arranged(c, j)[..c.validatorSetSize][Seat(colluder, j)] == Target(c, colluder)
    ensures Target(c, colluder) < ColluderCount(c) <==> colluder
    ensures Target(c, colluder) < c.validatorPoolSize
  {
    CollusionFits(c);
    hide ColluderCount, ValidConfig;
  }

  // ----- the stream -----

  /** The draws of a round without biased validators: the truth, and one for each vote. */
  function RoundLength(c: Config): (n: nat)
    requires ValidConfig(c)
    ensures n > 0
  {
    c.validatorSetSize + 1
  }

  function ScriptDraw(c: Config, plans: seq<Plan>, j: nat): Draw
    requires ValidConfig(c) && plans != []
  {
    var pool := 2 * c.validatorPoolSize;
    if j < pool || (j - pool) % RoundLength(c) != 0 then 0.0
    else TruthDraw(PlanAt(c, plans, (j - pool) / RoundLength(c)).truth)
  }

  function ScriptPerm(c: Config, plans: seq<Plan>, i: nat, n: nat): seq<nat>
    requires ValidConfig(c) && plans != []
  {
    var j := PlanAt(c, plans, i).colluders;
    if n == c.validatorPoolSize && Selects(c, j) then Arranged(c, j) else Identity(n)
  }

  function ScriptStream(c: Config, plans: seq<Plan>): Stream
    requires ValidConfig(c) && plans != []
  {
    Stream((j: nat) => ScriptDraw(c, plans, j), (i: nat, n: nat) => ScriptPerm(c, plans, i, n))
  }

  lemma ScriptIsLawful(c: Config, plans: seq<Plan>)
    requires ValidConfig(c) && plans != []
    ensures Lawful(ScriptStream(c, plans))
  {
    hide IsPermutation, Arranged, ValidConfig, Selects, Identity;
    forall i: nat, n: nat ensures IsPermutation(ScriptStream(c, plans).perms(i, n), n) {
      var j := PlanAt(c, plans, i).colluders;
      if Selects(c, j) {
        ArrangedIsPermutation(c, j);
      }
      IdentityPermutes(n);
    }
  }

  lemma IdentityPermutes(n: nat)
    ensures IsPermutation(Identity(n), n)
  {
  }

  function Position(c: Config, n: nat): nat
    requires ValidConfig(c)
  {
    2 * c.validatorPoolSize + n * RoundLength(c)
  }

  lemma NextPosition(c: Config, n: nat)
    requires ValidConfig(c)
    ensures Position(c, 0) == 2 * c.validatorPoolSize
    ensures Position(c, n + 1) == Position(c, n) + RoundLength(c)
  {
    var k := RoundLength(c);
    assert (n + 1) * k == n * k + k;
  }

  lemma DrawAtPosition(c: Config, plans: seq<Plan>, n: nat)
    requires ValidConfig(c) && plans != []
    ensures ScriptDraw(c, plans, Position(c, n)) == TruthDraw(PlanAt(c, plans, n).truth)
  {
    MultipleOf(n, RoundLength(c));
    hide PlanAt, TruthDraw;
  }

  lemma MultipleOf(n: nat, k: nat)
    requires k > 0
    ensures n * k >= 0 && (n * k) % k == 0 && (n * k) / k == n
  {
    var x := n * k;
    NatProduct(n, k);
    var q, r := x / k, x % k;
    DivMod(x, k);
    var d := n - q;
    assert d * k == r;
    AtLeastOnce(d, k);
  }

  lemma NatProduct(n: nat, k: nat)
    ensures n * k >= 0
  {
  }

  lemma DivMod(x: nat, k: nat)
    requires k > 0
    ensures x == (x / k) * k + x % k && 0 <= x % k < k
  {
  }

  lemma AtLeastOnce(d: int, k: nat)
    ensures d >= 1 ==> d * k >= k
    ensures d <= -1 && k > 0 ==> d * k < 0
  {
    if d >= 1 {
      NatProduct(d - 1, k);
      assert d * k == (d - 1) * k + k;
    } else if d <= -1 {
      NatProduct(-d - 1, k);
      assert d * k == -((-d - 1) * k) - k;
    }
  }

  // ----- where the run stands -----

  lemma OneDraw(c: Config, p: nat, v: SimValidator)
    requires ValidConfig(c) && BiasedSeats(c) == 0 && Cast(c, p, v)
    ensures DrawsOf(v) == 1
  {
    hide ColluderCount, ValidatorName;
    if p >= ColluderCount(c) {
      HonestSeat(c, p, v);
    }
  }

  lemma {:induction false} OneDrawEach(c: Config, selected: seq<SimValidator>, truth: Verdict, s: Stream, at: nat)
    requires forall v | v in selected :: DrawsOf(v) == 1
    ensures BuildVotes(c, selected, truth, s, at).1 == at + |selected|
  {
    hide DrawsOf, BuildVote;
    if selected != [] {
      var m := |selected| - 1;
      assert selected[m] in selected && forall v | v in selected[..m] :: v in selected;
      OneDrawEach(c, selected[..m], truth, s, at);
    }
  }

  lemma RoundTakes(c: Config, s: Stream, st: State)
    requires ValidConfig(c) && BiasedSeats(c) == 0 && Playable(c, s, st) && PoolOk(c, st.pool)
    ensures VotesAndNext(c, s, st).1 == st.floatsUsed + RoundLength(c)
  {
    hide PicksOf, ValidatorOk, Cast, BuildVotes, BiasedSeats, DrawsOf, Playable;
    var selected := SelectedOf(c, s, st);
    forall v | v in selected ensures DrawsOf(v) == 1 {
      var i :| 0 <= i < |selected| && selected[i] == v;
      OneDraw(c, PicksOf(c, s, st)[i], v);
    }
    OneDrawEach(c, selected, TruthOf(s, st), s, st.floatsUsed + 1);
  }

  lemma {:induction false} RunStandsAt(c: Config, s: Stream, n: nat)
    requires ValidConfig(c) && !Blank(c.domain) && Lawful(s) && BiasedSeats(c) == 0
    ensures RunRounds(c, s, n).Success?
    ensures StateAfter(c, s, n).floatsUsed == Position(c, n) && StateAfter(c, s, n).permsUsed == n
  {
    hide SimulateRound, Blank, Lawful, RunRounds, PoolOk, Playable, BiasedSeats, VotesAndNext, Position, ValidConfig,
      UpdatedPool, InitialState, RoundLength;
    if n == 0 {
      StartsAt(c, s);
      NextPosition(c, 0);
    } else {
      RunStandsAt(c, s, n - 1);
      NextState(c, s, n - 1);
      var st := StateAfter(c, s, n - 1);
      RoundState(c, s, st, n - 1);
      RoundTakes(c, s, st);
      NextPosition(c, n - 1);
    }
  }

  lemma StartsAt(c: Config, s: Stream)
    requires ValidConfig(c) && Lawful(s)
    ensures RunRounds(c, s, 0).Success?
    ensures StateAfter(c, s, 0).floatsUsed == 2 * c.validatorPoolSize && StateAfter(c, s, 0).permsUsed == 0
  {
  }

  // ----- a round of the script -----

  lemma ScriptPlan(c: Config, colluder: bool, plans: seq<Plan>, n: nat)
    requires ValidConfig(c) && CanPlayAll(c, colluder, plans) && ColluderCount(c) > 0
    ensures CanPlay(c, colluder, PlanAt(c, plans, n))
  {
    VerdictOfColluders(c);
    hide SelectsWith;
    assert CanPlay(c, colluder, plans[0]);
  }

  lemma ScriptRound(c: Config, colluder: bool, plans: seq<Plan>, n: nat)
    requires ValidConfig(c) && !Blank(c.domain) && BiasedSeats(c) == 0 && ColluderCount(c) > 0
    requires CanPlayAll(c, colluder, plans)
    ensures Lawful(ScriptStream(c, plans))
    ensures var s := ScriptStream(c, plans);
            && RunRounds(c, s, n).Success? && Playable(c, s, StateAfter(c, s, n))
            && TruthOf(s, StateAfter(c, s, n)) == PlanAt(c, plans, n).truth
            && PicksOf(c, s, StateAfter(c, s, n)) == Arranged(c, PlanAt(c, plans, n).colluders)[..c.validatorSetSize]
  {
    hide SimulateRound, Blank, Lawful, RunRounds, BiasedSeats, ColluderCount, ScriptDraw, Position, Arranged, PlanAt,
      TruthDraw, Selects, ReportOk, ValidatorOk, Cast;
    var s := ScriptStream(c, plans);
    ScriptIsLawful(c, plans);
    EveryRunProceeds(c, s, n);
    RunStandsAt(c, s, n);
    ScriptPlan(c, colluder, plans, n);
    DrawAtPosition(c, plans, n);
    var st := StateAfter(c, s, n);
    assert s.floats(st.floatsUsed) == ScriptDraw(c, plans, Position(c, n));
    assert |st.pool| == c.validatorPoolSize;
    assert s.perms(n, c.validatorPoolSize) == Arranged(c, PlanAt(c, plans, n).colluders);
  }

  /** The target's window gains an observation with the deviation that the plan says. */
  lemma ScriptStep(c: Config, colluder: bool, plans: seq<Plan>, n: nat) returns (obs: Observation)
    requires ValidConfig(c) && !Blank(c.domain) && BiasedSeats(c) == 0 && ColluderCount(c) > 0
    requires CanPlayAll(c, colluder, plans)
    ensures Lawful(ScriptStream(c, plans)) && c.validatorSetSize > 0
    ensures var s, p := ScriptStream(c, plans), Target(c, colluder);
            && RunRounds(c, s, n).Success? && RunRounds(c, s, n + 1).Success?
            && WindowAfter(c, s, n + 1, p) == Slide(WindowAfter(c, s, n, p), DEFAULT_WINDOW_SIZE, obs)
    ensures Deviation(obs) == DeviationIn(c, colluder)(PlanAt(c, plans, n))
  {
    hide SimulateRound, PoolOk, Blank, Lawful, Playable, RunRounds, WindowOf, ClaimName, Slide, PicksOf, VotesOf,
      PopulationAverage, Deviation, DeviationAs, Hits, TruthOf, ColluderCount, BiasedSeats, ValidConfig,
      ColluderSeatSet, ScriptStream, PlanAt, Arranged, Target, Seat, SelectsWith;
    var s, p, plan := ScriptStream(c, plans), Target(c, colluder), PlanAt(c, plans, n);
    ScriptRound(c, colluder, plans, n);
    ScriptPlan(c, colluder, plans, n);
    NextState(c, s, n);
    CollusionFits(c);
    var st := StateAfter(c, s, n);
    var picks, votes := PicksOf(c, s, st), VotesOf(c, s, st);
    TargetIsSelected(c, colluder, plan.colluders);
    SelectsAtAll(c, colluder, plan.colluders);
    ArrangedHits(c, plan.colluders, c.validatorSetSize);
    RoundHolds(c, s, st, n, p);
    var i := Seat(colluder, plan.colluders);
    RoundDeviation(c, s, st, n, i);
    obs := ObservationOf(votes[i], PopulationAverage(votes), n);
  }

  lemma SelectsAtAll(c: Config, colluder: bool, j: nat)
    ensures SelectsWith(c, colluder, j) ==> Selects(c, j) && j <= c.validatorSetSize
  {
  }

  // ----- the window of the script -----

  lemma SlideBelowSize(entries: seq<Observation>, obs: Observation)
    requires |entries| < DEFAULT_WINDOW_SIZE
    ensures Slide(entries, DEFAULT_WINDOW_SIZE, obs) == entries + [obs]
    ensures Sum(Deviation, Slide(entries, DEFAULT_WINDOW_SIZE, obs)) == Sum(Deviation, entries) + Deviation(obs)
  {
    SumSnoc(Deviation, entries, obs);
  }

  lemma {:induction false} ScriptWindow(c: Config, colluder: bool, plans: seq<Plan>, n: nat)
    requires ValidConfig(c) && !Blank(c.domain) && BiasedSeats(c) == 0 && ColluderCount(c) > 0
    requires CanPlayAll(c, colluder, plans) && n <= |plans| < DEFAULT_WINDOW_SIZE
    ensures Lawful(ScriptStream(c, plans)) && c.validatorSetSize > 0
    ensures RunRounds(c, ScriptStream(c, plans), n).Success?
    ensures var w := WindowAfter(c, ScriptStream(c, plans), n, Target(c, colluder));
            |w| == n && Sum(Deviation, w) == Sum(DeviationIn(c, colluder), plans[..n])
  {
    hide ScriptStream, Blank, Lawful, RunRounds, WindowAfter, Deviation, DeviationIn, ColluderCount, BiasedSeats,
      ValidConfig, Slide, Target;
    if n == 0 {
      ScriptIsLawful(c, plans);
      CollusionFits(c);
      NothingHeldYet(c, ScriptStream(c, plans), Target(c, colluder));
    } else {
      ScriptWindow(c, colluder, plans, n - 1);
      var obs := ScriptStep(c, colluder, plans, n - 1);
      SlideBelowSize(WindowAfter(c, ScriptStream(c, plans), n - 1, Target(c, colluder)), obs);
      SumPrefix(DeviationIn(c, colluder), plans, n - 1);
    }
  }

  lemma LieDeviatesNot(c: Config, colluder: bool, plans: seq<Plan>, n: nat)
    requires plans != [] && n >= |plans| && c.validatorSetSize > 0
    ensures DeviationIn(c, colluder)(PlanAt(c, plans, n)) == 0.0
  {
    assert Gap(c, c.collusionVerdict) == 0.0;
  }

  lemma DeviationsNonNegative(entries: seq<Observation>)
    ensures Sum(Deviation, entries) >= 0.0 && forall obs | obs in entries :: Deviation(obs) >= 0.0
  {
    SumBoundsBelow(Deviation, entries);
  }

  lemma SlideNothing(entries: seq<Observation>, obs: Observation)
    requires Deviation(obs) == 0.0 && 0 < |entries| <= DEFAULT_WINDOW_SIZE
    ensures var after := Slide(entries, DEFAULT_WINDOW_SIZE, obs);
            && |after| == (if |entries| < DEFAULT_WINDOW_SIZE then |entries| + 1 else DEFAULT_WINDOW_SIZE)
            && Sum(Deviation, after) <= Sum(Deviation, entries)
  {
    SlideSum(entries, DEFAULT_WINDOW_SIZE, obs);
    DeviationsNonNegative(entries);
    hide Sum, Deviation;
  }

  /** Once the written rounds are over, the deviations only leave the window. */
  lemma {:induction false} ScriptFades(c: Config, colluder: bool, plans: seq<Plan>, n: nat)
    requires ValidConfig(c) && !Blank(c.domain) && BiasedSeats(c) == 0 && ColluderCount(c) > 0
    requires CanPlayAll(c, colluder, plans) && |plans| <= n && |plans| < DEFAULT_WINDOW_SIZE
    ensures Lawful(ScriptStream(c, plans)) && c.validatorSetSize > 0
    ensures RunRounds(c, ScriptStream(c, plans), n).Success?
    ensures var w := WindowAfter(c, ScriptStream(c, plans), n, Target(c, colluder));
            && |w| == (if n < DEFAULT_WINDOW_SIZE then n else DEFAULT_WINDOW_SIZE)
            && Sum(Deviation, w) <= Sum(DeviationIn(c, colluder), plans)
    decreases n
  {
    hide ScriptStream, Blank, Lawful, RunRounds, WindowAfter, Deviation, DeviationIn, ColluderCount, BiasedSeats,
      ValidConfig, Slide, Target, Sum, PlanAt;
    if n == |plans| {
      ScriptWindow(c, colluder, plans, n);
      assert plans[..n] == plans;
    } else {
      ScriptFades(c, colluder, plans, n - 1);
      var obs := ScriptStep(c, colluder, plans, n - 1);
      LieDeviatesNot(c, colluder, plans, n - 1);
      SlideNothing(WindowAfter(c, ScriptStream(c, plans), n - 1, Target(c, colluder)), obs);
    }
  }

  // ----- raising and losing a flag -----

  lemma CoefficientAtLeast(entries: seq<Observation>, bound: real)
    requires |entries| >= MIN_OBSERVATIONS_FOR_BIAS && bound >= 0.0
    ensures Coefficient(entries) >= bound <==> Sum(Deviation, entries) >= bound * |entries| as real
  {
    QuotientAtLeast(Sum(Deviation, entries), |entries| as real, bound);
    hide Sum;
  }

  /** Five rounds that deviate by 1.5 in all raise a flag. */
  lemma ScriptRaises(c: Config, colluder: bool, plans: seq<Plan>)
    requires ValidConfig(c) && !Blank(c.domain) && BiasedSeats(c) == 0 && ColluderCount(c) > 0
    requires CanPlayAll(c, colluder, plans) && |plans| == 5
    ensures Lawful(ScriptStream(c, plans)) && c.validatorSetSize > 0
    ensures FlaggedAfter(c, ScriptStream(c, plans), 5, Target(c, colluder))
            <==> Sum(DeviationIn(c, colluder), plans) >= 1.5
  {
    hide ScriptStream, Blank, Lawful, RunRounds, WindowAfter, Deviation, DeviationIn, ColluderCount, BiasedSeats,
      ValidConfig, Target, Sum, Coefficient;
    ScriptWindow(c, colluder, plans, 5);
    assert plans[..5] == plans;
    CoefficientAtLeast(WindowAfter(c, ScriptStream(c, plans), 5, Target(c, colluder)), BIAS_MODERATE_THRESHOLD);
  }

  /** And if they deviate by less than 0.3 for each round of the run, it is lost at the end. */
  lemma ScriptLoses(c: Config, colluder: bool, plans: seq<Plan>, n: nat)
    requires ValidConfig(c) && !Blank(c.domain) && BiasedSeats(c) == 0 && ColluderCount(c) > 0
    requires CanPlayAll(c, colluder, plans) && |plans| == 5 && n >= 6 && c.validatorSetSize > 0
    requires Sum(DeviationIn(c, colluder), plans) < if n == 6 then 1.8 else 2.1
    ensures Lawful(ScriptStream(c, plans))
    ensures !FlaggedAfter(c, ScriptStream(c, plans), n, Target(c, colluder))
  {
    hide ScriptStream, Blank, Lawful, RunRounds, WindowAfter, Deviation, DeviationIn, ColluderCount, BiasedSeats,
      ValidConfig, Target, Sum, Coefficient;
    ScriptFades(c, colluder, plans, n);
    CoefficientAtLeast(WindowAfter(c, ScriptStream(c, plans), n, Target(c, colluder)), BIAS_MODERATE_THRESHOLD);
  }
}
