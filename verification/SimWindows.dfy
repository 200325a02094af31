/** What a validator's bias window holds after any number of rounds: the deviations are known
    exactly from the truth and from how many colluders a round selects. */
module SimWindows {
  import opened Bias
  import opened BiasLaws
  import opened Consensus
  import opened ConsensusLaws
  import opened Reals
  import opened SimModel
  import opened SimQuiet
  import opened SimRound
  import opened SimRuns
  import opened SimSafety
  import opened Sums
  import opened Text
  import opened Verdicts
  import opened Wrappers

  // ----- which window a round changes -----

  function WindowOf(c: Config, windows: Windows, p: nat): seq<Observation> {
    Held(windows, Key(ValidatorName(p), c.domain))
  }

  lemma {:induction false} RecordBiasHolds(c: Config, windows: Windows, selected: seq<SimValidator>, picks: seq<nat>,
      votes: seq<Vote>, average: real, round: nat, p: nat)
    requires |selected| == |votes| == |picks|
    requires forall j | 0 <= j < |picks| :: selected[j].record.validatorId == ValidatorName(picks[j])
    requires forall i, j | 0 <= i < j < |picks| :: picks[i] != picks[j]
    ensures var r := RecordBias(c, windows, selected, votes, average, round);
            r.Success? ==>
              && (p !in picks ==> WindowOf(c, r.value.0, p) == WindowOf(c, windows, p))
              && forall i | 0 <= i < |picks| && picks[i] == p ::
                   WindowOf(c, r.value.0, p)
                   == Slide(WindowOf(c, windows, p), DEFAULT_WINDOW_SIZE, ObservationOf(votes[i], average, round))
  {
    hide ObservationOf, Recorded, RecordError, BiasIn, ValidatorName, Held, Key, Slide;
    var r := RecordBias(c, windows, selected, votes, average, round);
    if picks != [] && r.Success? {
      var m := |picks| - 1;
      RecordBiasHolds(c, windows, selected[..m], picks[..m], votes[..m], average, round, p);
      var rest := RecordBias(c, windows, selected[..m], votes[..m], average, round).value.0;
      var obs := ObservationOf(votes[m], average, round);
      RecordedAt(rest, DEFAULT_WINDOW_SIZE, Call(ValidatorName(picks[m]), c.domain, obs),
        Key(ValidatorName(p), c.domain));
      KeysDistinct(picks[m], p, c.domain);
      assert p in picks <==> p in picks[..m] || p == picks[m];
      assert picks[m] !in picks[..m];
    }
  }

  /** The windows that a round leaves. */
  lemma RoundWindows(c: Config, s: Stream, st: State, round: nat)
    requires Playable(c, s, st) && SimulateRound(c, s, st, round).Success?
    ensures UpdatedPool(c, s, st).Success?
    ensures var votes := VotesOf(c, s, st);
            RecordBias(c, st.windows, Pick(UpdatedPool(c, s, st).value, PicksOf(c, s, st)), votes,
              PopulationAverage(votes), round)
              .Success?
    ensures var votes := VotesOf(c, s, st);
            SimulateRound(c, s, st, round).value.0.windows ==
            RecordBias(c, st.windows, Pick(UpdatedPool(c, s, st).value, PicksOf(c, s, st)), votes,
              PopulationAverage(votes), round)
              .value.0
  {
    hide UpdatedPool, VotesAndNext, Decide, RecordBias, PopulationAverage, PicksOf, VotesOf, Playable;
  }

  lemma DistinctPicks(c: Config, s: Stream, st: State)
    requires Playable(c, s, st)
    ensures forall i, j | 0 <= i < j < |PicksOf(c, s, st)| :: PicksOf(c, s, st)[i] != PicksOf(c, s, st)[j]
    ensures forall p | p in PicksOf(c, s, st) :: p < |st.pool|
  {
  }

  /** A round adds one observation to the window of each validator it selects, and leaves every
      other window alone. */
  lemma RoundHolds(c: Config, s: Stream, st: State, round: nat, p: nat)
    requires Playable(c, s, st) && PoolOk(c, st.pool) && !Blank(c.domain) && c.validatorSetSize > 0
    ensures var r, picks, votes := SimulateRound(c, s, st, round), PicksOf(c, s, st), VotesOf(c, s, st);
            && r.Success?
            && (p !in picks ==> WindowOf(c, r.value.0.windows, p) == WindowOf(c, st.windows, p))
            && forall i | 0 <= i < |picks| && picks[i] == p ::
                 WindowOf(c, r.value.0.windows, p) ==
                 Slide(WindowOf(c, st.windows, p), DEFAULT_WINDOW_SIZE,
                   Observation(ClaimName(round), votes[i].verdict, PopulationAverage(votes)))
  {
    hide PicksOf, VotesOf, Playable, PoolOk, UpdatedPool, RecordBias, Decide, PopulationAverage, AllEvolved,
      SimulateRound, Blank, WindowOf, Slide, Pick, ClaimName;
    RoundSucceeds(c, s, st, round);
    RoundUpdates(c, s, st);
    RoundWindows(c, s, st, round);
    DistinctPicks(c, s, st);
    var picks, votes, pool := PicksOf(c, s, st), VotesOf(c, s, st), UpdatedPool(c, s, st).value;
    NamesAtPicks(c, pool, picks);
    RecordBiasHolds(c, st.windows, Pick(pool, picks), picks, votes, PopulationAverage(votes), round, p);
  }

  // ----- how far an observation deviates -----

  /** How far the lie is from the truth on the support axis. */
  function Gap(c: Config, truth: Verdict): real {
    var d := SupportScore(c.collusionVerdict) - SupportScore(truth);
    if d < 0.0 then -d else d
  }

  /** The deviation of a colluder, or of an honest validator, in a round with this truth that
      selects `colluders` of them: its vote is measured against a mean of both kinds. */
  function DeviationAs(c: Config, colluder: bool, truth: Verdict, colluders: nat): real
    requires c.validatorSetSize > 0
  {
    var k := c.validatorSetSize;
    Ratio(Times(Gap(c, truth), if colluder then (k - colluders) as real else colluders as real), k)
  }

  lemma {:induction false} OffByExactly(c: Config, pool: seq<SimValidator>, picks: seq<nat>, votes: seq<Vote>,
      truth: Verdict)
    requires ValidConfig(c) && PoolOk(c, pool) && BiasedSeats(c) == 0 && ColluderCount(c) >= 0
    requires |picks| == |votes| && forall i | 0 <= i < |picks| :: picks[i] < |pool|
    requires forall i | 0 <= i < |picks| :: Fits(c, pool[picks[i]], truth, votes[i])
    ensures Sum(OffBy(truth), votes) ==
            Times(SupportScore(c.collusionVerdict) - SupportScore(truth), Hits(picks, ColluderSeatSet(c)) as real)
  {
    hide ValidatorOk, Cast, Fits, ColluderCount, BiasedSeats, ValidConfig, Times, SupportScore;
    var diff := SupportScore(c.collusionVerdict) - SupportScore(truth);
    TimesCount(diff, 0);
    if picks != [] {
      var m := |picks| - 1;
      OffByExactly(c, pool, picks[..m], votes[..m], truth);
      TimesCount(diff, Hits(picks[..m], ColluderSeatSet(c)));
      VerdictOf(c, picks[m], pool[picks[m]], truth, votes[m]);
    }
  }

  /** Without biased validators a position tells the vote. */
  lemma VerdictOf(c: Config, p: nat, v: SimValidator, truth: Verdict, vote: Vote)
    requires ValidConfig(c) && BiasedSeats(c) == 0 && Cast(c, p, v) && Fits(c, v, truth, vote)
    ensures vote.verdict == if p < ColluderCount(c) then c.collusionVerdict else truth
  {
    hide ColluderCount;
    if p >= ColluderCount(c) {
      HonestSeat(c, p, v);
    }
  }

  /** A mean whose distance from one score is known times k. */
  lemma Distance(score: real, average: real, diff: real, share: real, k: nat)
    requires k > 0 && share >= 0.0
    requires Times(score - average, k as real) == Times(diff, share)
             || Times(score - average, k as real) == -Times(diff, share)
    ensures var d, gap := score - average, if diff < 0.0 then -diff else diff;
            (if d < 0.0 then -d else d) == Ratio(Times(gap, share), k)
  {
    var n, d := k as real, score - average;
    var gap, size := if diff < 0.0 then -diff else diff, if d < 0.0 then -d else d;
    SignedProduct(d, n);
    SignedProduct(diff, share);
    assert size * n == Times(size, n) == Times(gap, share);
    assert (size * n) / n == size;
  }

  lemma SignedProduct(x: real, y: real)
    requires y >= 0.0
    ensures var size := if x < 0.0 then -x else x;
            && Times(size, y) >= 0.0
            && (Times(size, y) == Times(x, y) || Times(size, y) == -Times(x, y))
            && (Times(size, y) == 0.0 ==> Times(x, y) == 0.0)
  {
    MulNonNegative(if x < 0.0 then -x else x, y);
  }

  lemma AverageTimesSize(c: Config, votes: seq<Vote>, truth: Verdict, diff: real, hits: real)
    requires |votes| == c.validatorSetSize > 0 && Sum(OffBy(truth), votes) == Times(diff, hits)
    ensures Times(PopulationAverage(votes), c.validatorSetSize as real)
            == Times(SupportScore(truth), c.validatorSetSize as real) + Times(diff, hits)
  {
    OffBySum(votes, truth);
    hide Sum, SupportScore;
    var sum, k := Sum(VoteScore, votes), |votes| as real;
    QuotientTimes(sum, k);
    assert Times(SupportScore(truth), k) == SupportScore(truth) * k;
  }

  /** Exactly how far each selected validator's observation deviates. */
  lemma RoundDeviation(c: Config, s: Stream, st: State, round: nat, i: nat)
    requires ValidConfig(c) && Playable(c, s, st) && PoolOk(c, st.pool) && BiasedSeats(c) == 0
    requires i < |PicksOf(c, s, st)|
    ensures ColluderCount(c) >= 0
    ensures var picks, votes := PicksOf(c, s, st), VotesOf(c, s, st);
            Deviation(ObservationOf(votes[i], PopulationAverage(votes), round)) ==
            DeviationAs(c, picks[i] < ColluderCount(c), TruthOf(s, st), Hits(picks, ColluderSeatSet(c)))
  {
    hide AllValid, AllFit, PicksOf, VotesOf, Playable, Fits, ColluderCount, BiasedSeats, PopulationAverage, ClaimName,
      Times, Ratio, PoolOk, Hits, Sum, SupportScore, ColluderSeatSet, TruthOf;
    SeatsAreNat(c);
    RoundVotes(c, s, st);
    FitsAtPicks(c, s, st);
    DistinctPicks(c, s, st);
    var picks, votes, truth := PicksOf(c, s, st), VotesOf(c, s, st), TruthOf(s, st);
    var k, hits := c.validatorSetSize, Hits(picks, ColluderSeatSet(c));
    var diff, average := SupportScore(c.collusionVerdict) - SupportScore(truth), PopulationAverage(votes);
    OffByExactly(c, st.pool, picks, votes, truth);
    AverageTimesSize(c, votes, truth, diff, hits as real);
    VoteAt(c, st.pool, picks[i], truth, votes[i]);
    HitsAreFewer(picks, ColluderSeatSet(c));
    hide ValidConfig;
    var score := SupportScore(votes[i].verdict);
    DistanceTimes(score, average, SupportScore(truth), diff, hits as real, k as real);
    if picks[i] < ColluderCount(c) {
      Distance(score, average, diff, (k - hits) as real, k);
    } else {
      Distance(score, average, diff, hits as real, k);
    }
  }

  lemma VoteAt(c: Config, pool: seq<SimValidator>, p: nat, truth: Verdict, vote: Vote)
    requires ValidConfig(c) && PoolOk(c, pool) && BiasedSeats(c) == 0 && p < |pool| && Fits(c, pool[p], truth, vote)
    ensures vote.verdict == if p < ColluderCount(c) then c.collusionVerdict else truth
  {
    hide ColluderCount, BiasedSeats, Fits, Cast, ValidConfig, ValidatorOk;
    VerdictOf(c, p, pool[p], truth, vote);
  }

  lemma {:induction false} HitsAreFewer(picks: seq<nat>, seats: set<nat>)
    ensures Hits(picks, seats) <= |picks|
  {
    if picks != [] {
      HitsAreFewer(picks[..|picks| - 1], seats);
    }
  }

  lemma DistanceTimes(score: real, average: real, t: real, diff: real, hits: real, k: real)
    requires Times(average, k) == Times(t, k) + Times(diff, hits)
    ensures score == t + diff ==> Times(score - average, k) == Times(diff, k - hits)
    ensures score == t ==> Times(score - average, k) == -Times(diff, hits)
  {
    assert (score - average) * k == score * k - average * k;
    if score == t + diff {
      assert score * k == t * k + diff * k;
      assert diff * (k - hits) == diff * k - diff * hits;
    }
  }

  // ----- which rounds are possible -----

  /** A selection can hold this many colluders. */
  predicate Selects(c: Config, colluders: nat) {
    && colluders <= ColluderCount(c)
    && colluders <= c.validatorSetSize
    && c.validatorSetSize - colluders <= c.validatorPoolSize - ColluderCount(c)
  }

  /** And with them a validator of this kind. */
  predicate SelectsWith(c: Config, colluder: bool, colluders: nat) {
    Selects(c, colluders) && if colluder then colluders >= 1 else colluders < c.validatorSetSize
  }

  /** A round that such a validator can take part in. */
  datatype Plan = Plan(truth: Verdict, colluders: nat)

  predicate CanPlay(c: Config, colluder: bool, plan: Plan) {
    plan.truth in CANDIDATES && SelectsWith(c, colluder, plan.colluders)
  }

  function DeviationIn(c: Config, colluder: bool): Plan -> real
    requires c.validatorSetSize > 0
  {
    (plan: Plan) => DeviationAs(c, colluder, plan.truth, plan.colluders)
  }

  ghost predicate CanDeviate(c: Config, colluder: bool, d: real)
    requires c.validatorSetSize > 0
  {
    exists plan :: CanPlay(c, colluder, plan) && d == DeviationIn(c, colluder)(plan)
  }

  lemma CollusionFits(c: Config)
    requires ValidConfig(c)
    ensures 0 <= ColluderCount(c) <= c.validatorPoolSize && 0 < c.validatorSetSize <= c.validatorPoolSize
  {
    SeatsAreNat(c);
    MulMonotone(c.collusionRate, 1.0, c.validatorPoolSize as real);
  }

  lemma SelectionCounts(c: Config, picks: seq<nat>, i: nat)
    requires ValidConfig(c) && |picks| == c.validatorSetSize && i < |picks|
    requires forall i, j | 0 <= i < j < |picks| :: picks[i] != picks[j]
    requires forall p | p in picks :: p < c.validatorPoolSize
    ensures ColluderCount(c) >= 0
    ensures SelectsWith(c, picks[i] < ColluderCount(c), Hits(picks, ColluderSeatSet(c)))
  {
    CollusionFits(c);
    var C, n := ColluderCount(c), c.validatorPoolSize;
    hide ColluderCount, ValidConfig, Hits, Seats;
    var colluders, honest := Seats(0, C), Seats(C, n);
    SeatsSize(0, C);
    SeatsSize(C, n);
    HitsAtMostSeats(picks, colluders);
    HitsAtMostSeats(picks, honest);
    HitsSplit(picks, colluders, honest);
    AllHit(picks, colluders + honest);
    assert picks[i] in picks;
    PickIsHit(picks, if picks[i] < C then colluders else honest, i);
  }

  lemma {:induction false} PickIsHit(picks: seq<nat>, seats: set<nat>, i: nat)
    requires i < |picks| && picks[i] in seats
    ensures Hits(picks, seats) >= 1
  {
    if i < |picks| - 1 {
      PickIsHit(picks[..|picks| - 1], seats, i);
    }
  }

  // ----- windows over a run -----

  /** The window of the validator at position p after n rounds. */
  function WindowAfter(c: Config, s: Stream, n: nat, p: nat): seq<Observation>
    requires ValidConfig(c) && Lawful(s) && RunRounds(c, s, n).Success?
  {
    WindowOf(c, StateAfter(c, s, n).windows, p)
  }

  lemma NextState(c: Config, s: Stream, n: nat)
    requires ValidConfig(c) && !Blank(c.domain) && Lawful(s)
    ensures RunRounds(c, s, n).Success? && RunRounds(c, s, n + 1).Success?
    ensures PoolOk(c, StateAfter(c, s, n).pool) && Playable(c, s, StateAfter(c, s, n))
    ensures var r := SimulateRound(c, s, StateAfter(c, s, n), n);
            r.Success? && StateAfter(c, s, n + 1) == r.value.0
  {
    hide SimulateRound, PoolOk, Blank, ReportOk, Lawful, Playable, Accumulate, InitialState;
    EveryRunProceeds(c, s, n);
    EveryRunProceeds(c, s, n + 1);
  }

  /** A round leaves a window alone or adds one observation, and without biased validators that
      observation deviates as some possible round says. */
  lemma WindowStep(c: Config, s: Stream, n: nat, p: nat)
    requires ValidConfig(c) && !Blank(c.domain) && Lawful(s)
    ensures RunRounds(c, s, n).Success? && RunRounds(c, s, n + 1).Success?
    ensures WindowAfter(c, s, n + 1, p) == WindowAfter(c, s, n, p)
            || exists obs :: WindowAfter(c, s, n + 1, p) == Slide(WindowAfter(c, s, n, p), DEFAULT_WINDOW_SIZE, obs)
                             && (BiasedSeats(c) == 0 ==> CanDeviate(c, p < ColluderCount(c), Deviation(obs)))
  {
    hide SimulateRound, PoolOk, Blank, Lawful, Playable, RunRounds, WindowOf, ClaimName, Slide, PicksOf, VotesOf,
      PopulationAverage, Deviation, DeviationAs, SelectsWith, Hits, TruthOf, ColluderCount, BiasedSeats, ValidConfig,
      ColluderSeatSet;
    NextState(c, s, n);
    CollusionFits(c);
    var st := StateAfter(c, s, n);
    RoundHolds(c, s, st, n, p);
    var picks := PicksOf(c, s, st);
    if p in picks {
      var i :| 0 <= i < |picks| && picks[i] == p;
      var votes := VotesOf(c, s, st);
      var obs := ObservationOf(votes[i], PopulationAverage(votes), n);
      if BiasedSeats(c) == 0 {
        DistinctPicks(c, s, st);
        PoolSize(c, st.pool);
        RoundDeviation(c, s, st, n, i);
        SelectionCounts(c, picks, i);
        TruthIsCandidate(s, st);
        assert CanPlay(c, p < ColluderCount(c), Plan(TruthOf(s, st), Hits(picks, ColluderSeatSet(c))));
      }
    }
  }

  lemma PoolSize(c: Config, pool: seq<SimValidator>)
    ensures PoolOk(c, pool) ==> |pool| == c.validatorPoolSize
  {
  }

  lemma TruthIsCandidate(s: Stream, st: State)
    ensures TruthOf(s, st) in CANDIDATES
  {
  }

  /** After n rounds a window holds at most n observations. */
  lemma {:induction false} WindowShort(c: Config, s: Stream, n: nat, p: nat)
    requires ValidConfig(c) && !Blank(c.domain) && Lawful(s)
    ensures c.validatorSetSize > 0
    ensures RunRounds(c, s, n).Success?
    ensures |WindowAfter(c, s, n, p)| <= n
    ensures BiasedSeats(c) == 0 ==>
              forall obs | obs in WindowAfter(c, s, n, p) :: CanDeviate(c, p < ColluderCount(c), Deviation(obs))
  {
    hide SimulateRound, Blank, Lawful, RunRounds, WindowAfter, Deviation, CanDeviate, ColluderCount, BiasedSeats,
      ValidConfig, Slide;
    CollusionFits(c);
    if n == 0 {
      NothingHeldYet(c, s, p);
    } else {
      WindowShort(c, s, n - 1, p);
      WindowStep(c, s, n - 1, p);
      var before, after := WindowAfter(c, s, n - 1, p), WindowAfter(c, s, n, p);
      if after != before {
        var obs :| after == Slide(before, DEFAULT_WINDOW_SIZE, obs)
          && (BiasedSeats(c) == 0 ==> CanDeviate(c, p < ColluderCount(c), Deviation(obs)));
        SlideMembers(before, obs);
      }
    }
  }

  lemma SlideMembers(entries: seq<Observation>, obs: Observation)
    ensures var after := Slide(entries, DEFAULT_WINDOW_SIZE, obs);
            |after| <= |entries| + 1 && forall o | o in after :: o in entries || o == obs
  {
  }

  lemma NothingHeldYet(c: Config, s: Stream, p: nat)
    requires ValidConfig(c) && Lawful(s)
    ensures RunRounds(c, s, 0).Success? && WindowAfter(c, s, 0, p) == []
  {
    hide Key;
  }

  // ----- the greatest deviation -----

  /** The greatest gap that some truth leaves to the lie. */
  function PeakGap(c: Config): real {
    if c.collusionVerdict in {Supported, Unsupported} then 1.0 else 0.5
  }

  function PeakTruth(c: Config): (truth: Verdict)
    ensures truth in CANDIDATES
  {
    if c.collusionVerdict == Supported then Unsupported else Supported
  }

  /** How many colluders a selection holds at least beside a colluder, or at most beside an
      honest validator. */
  function PeakColluders(c: Config, colluder: bool): int {
    var k, C, honest := c.validatorSetSize, ColluderCount(c), c.validatorPoolSize - ColluderCount(c);
    if colluder then (if k - honest > 1 then k - honest else 1)
    else (if C < k - 1 then C else k - 1)
  }

  /** Some position is a colluder's, or an honest one's. */
  predicate HasKind(c: Config, colluder: bool) {
    if colluder then ColluderCount(c) > 0 else ColluderCount(c) < c.validatorPoolSize
  }

  /** The greatest deviation that one round can give to a validator of this kind. */
  function Peak(c: Config, colluder: bool): real
    requires ValidConfig(c)
  {
    CollusionFits(c);
    var k := c.validatorSetSize;
    if !HasKind(c, colluder) || ColluderCount(c) == 0 then 0.0
    else
      var j := PeakColluders(c, colluder);
      Ratio(Times(PeakGap(c), if colluder then (k - j) as real else j as real), k)
  }

  lemma VerdictOfColluders(c: Config)
    requires ValidConfig(c) && ColluderCount(c) > 0
    ensures c.collusionVerdict in CANDIDATES
  {
    SeatsAreNat(c);
    PortionIsNat(c.validatorPoolSize, c.collusionRate);
    hide Portion;
  }

  lemma GapAtMostPeak(c: Config, truth: Verdict)
    requires c.collusionVerdict in CANDIDATES && truth in CANDIDATES
    ensures 0.0 <= Gap(c, truth) <= PeakGap(c) && Gap(c, PeakTruth(c)) == PeakGap(c)
            && Gap(c, c.collusionVerdict) == 0.0
    ensures PeakGap(c) == 1.0 ==> Gap(c, Misleading) == 0.5
  {
  }

  lemma RatioMonotone(x: real, y: real, n: nat)
    requires x <= y && n > 0
    ensures Ratio(x, n) <= Ratio(y, n)
  {
    Divide(x, y, n as real);
  }

  lemma ProductsMonotone(x: real, y: real, a: real, b: real)
    requires 0.0 <= x <= y && 0.0 <= a <= b
    ensures Times(x, a) <= Times(y, b)
  {
    hide Times;
    TimesMonotone(x, y, a);
    TimesMonotone(a, b, y);
    TimesCommutes(a, y);
    TimesCommutes(b, y);
  }

  lemma DeviatesAtMostPeak(c: Config, colluder: bool, plan: Plan)
    requires ValidConfig(c) && CanPlay(c, colluder, plan)
    ensures c.validatorSetSize > 0 && DeviationIn(c, colluder)(plan) <= Peak(c, colluder)
  {
    hide Ratio, Times, ColluderCount, Gap, PeakGap;
    CollusionFits(c);
    var k, j := c.validatorSetSize, plan.colluders;
    if ColluderCount(c) > 0 {
      VerdictOfColluders(c);
      GapAtMostPeak(c, plan.truth);
      var share := if colluder then (k - j) as real else j as real;
      var peak := PeakColluders(c, colluder);
      var most := if colluder then (k - peak) as real else peak as real;
      ProductsMonotone(Gap(c, plan.truth), PeakGap(c), share, most);
      RatioMonotone(Times(Gap(c, plan.truth), share), Times(PeakGap(c), most), k);
    } else {
      NoShare(Gap(c, plan.truth), k);
    }
  }

  lemma NoShare(gap: real, k: nat)
    requires k > 0
    ensures Ratio(Times(gap, 0.0), k) == 0.0
  {
  }

  /** The plan that reaches the peak. */
  function PeakPlan(c: Config, colluder: bool): Plan
    requires ValidConfig(c) && HasKind(c, colluder)
  {
    CollusionFits(c);
    Plan(PeakTruth(c), PeakColluders(c, colluder))
  }

  lemma PeakIsReached(c: Config, colluder: bool)
    requires ValidConfig(c) && HasKind(c, colluder) && ColluderCount(c) > 0
    ensures c.validatorSetSize > 0
    ensures CanPlay(c, colluder, PeakPlan(c, colluder))
    ensures DeviationIn(c, colluder)(PeakPlan(c, colluder)) == Peak(c, colluder)
  {
    hide Ratio, Times, ColluderCount, Gap, PeakGap, PeakTruth;
    CollusionFits(c);
    VerdictOfColluders(c);
    GapAtMostPeak(c, PeakTruth(c));
  }

  // ----- who is flagged -----

  ghost predicate FlaggedAfter(c: Config, s: Stream, n: nat, p: nat)
    requires ValidConfig(c) && Lawful(s)
  {
    RunRounds(c, s, n).Success? && Coefficient(WindowAfter(c, s, n, p)) >= BIAS_MODERATE_THRESHOLD
  }

  lemma CoefficientIsOfHeld(windows: Windows, v: string, d: string)
    ensures BiasIn(windows, v, d).coefficient == Coefficient(Held(windows, Key(v, d)))
  {
    hide Key, MeanDeviation, ClassifyTier;
  }

  /** This is what the simulation asks the tracker. */
  lemma FlaggedAsAsked(c: Config, s: Stream, n: nat, p: nat)
    requires ValidConfig(c) && !Blank(c.domain) && Lawful(s) && p < c.validatorPoolSize
    ensures RunRounds(c, s, n).Success? && |StateAfter(c, s, n).pool| == c.validatorPoolSize
    ensures Flagged(StateAfter(c, s, n).windows, StateAfter(c, s, n).pool[p], c.domain) <==> FlaggedAfter(c, s, n, p)
  {
    hide RunRounds, Blank, Lawful, ReportOk, Playable, BiasIn, Coefficient, Key, ValidatorName, ValidatorOk,
      ValidConfig;
    EveryRunProceeds(c, s, n);
    CoefficientIsOfHeld(StateAfter(c, s, n).windows, ValidatorName(p), c.domain);
    assert Cast(c, p, StateAfter(c, s, n).pool[p]);
  }

  /** Nobody is flagged before five observations, which take five rounds. */
  lemma FlaggedTakesFive(c: Config, s: Stream, n: nat, p: nat)
    requires ValidConfig(c) && !Blank(c.domain) && Lawful(s)
    ensures FlaggedAfter(c, s, n, p) ==> n >= 5
  {
    hide RunRounds, Blank, Lawful, WindowAfter, CanDeviate, ValidConfig, MeanDeviation;
    WindowShort(c, s, n, p);
  }

  /** Without biased validators, nobody is flagged whose kind never deviates that much. */
  lemma FlaggedNeedsPeak(c: Config, s: Stream, n: nat, p: nat)
    requires ValidConfig(c) && !Blank(c.domain) && Lawful(s) && BiasedSeats(c) == 0
    requires FlaggedAfter(c, s, n, p)
    ensures Peak(c, p < ColluderCount(c)) >= BIAS_MODERATE_THRESHOLD
  {
    hide RunRounds, Blank, Lawful, WindowAfter, Deviation, ColluderCount, BiasedSeats, ValidConfig, Peak, Coefficient,
      DeviationIn, CanPlay;
    WindowShort(c, s, n, p);
    var colluder := p < ColluderCount(c);
    PeakNonNegative(c, colluder);
    forall obs | obs in WindowAfter(c, s, n, p) ensures Deviation(obs) <= Peak(c, colluder) {
      var plan :| CanPlay(c, colluder, plan) && Deviation(obs) == DeviationIn(c, colluder)(plan);
      DeviatesAtMostPeak(c, colluder, plan);
    }
    CoefficientAtMost(WindowAfter(c, s, n, p), Peak(c, colluder));
  }

  lemma PeakNonNegative(c: Config, colluder: bool)
    requires ValidConfig(c)
    ensures Peak(c, colluder) >= 0.0
  {
    CollusionFits(c);
    hide ColluderCount;
    var k := c.validatorSetSize;
    if HasKind(c, colluder) && ColluderCount(c) > 0 {
      var j := PeakColluders(c, colluder);
      var share := if colluder then (k - j) as real else j as real;
      MulNonNegative(PeakGap(c), share);
      QuotientAtLeast(Times(PeakGap(c), share), k as real, 0.0);
    }
  }
}
