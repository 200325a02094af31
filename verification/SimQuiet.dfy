/** Why honest validators are not flagged for bias: a few colluders can move the population
    average only by their share of the votes. */
module SimQuiet {
  import opened Bias
  import opened BiasLaws
  import opened Consensus
  import opened ConsensusLaws
  import opened Reals
  import opened SimModel
  import opened SimPool
  import opened SimRound
  import opened SimSafety
  import opened Sums
  import opened Text
  import opened Verdicts
  import opened Wrappers

  /** The colluders' share of a validator set, if all of them are selected. */
  function Tolerance(c: Config): real
    requires c.validatorSetSize > 0
  {
    ColluderCount(c) as real / c.validatorSetSize as real
  }

  lemma HonestSeat(c: Config, i: nat, v: SimValidator)
    requires ValidConfig(c) && BiasedSeats(c) == 0 && Cast(c, i, v) && i >= ColluderCount(c)
    ensures Honest(v)
  {
    hide ColluderCount, BiasedCount;
  }

  // ----- the population average -----

  function OffBy(truth: Verdict): Vote -> real {
    (v: Vote) => VoteScore(v) - SupportScore(truth)
  }

  lemma {:induction false} OffByHits(c: Config, pool: seq<SimValidator>, picks: seq<nat>, votes: seq<Vote>,
      truth: Verdict)
    requires ValidConfig(c) && PoolOk(c, pool) && BiasedSeats(c) == 0 && ColluderCount(c) >= 0
    requires |picks| == |votes| && forall i | 0 <= i < |picks| :: picks[i] < |pool|
    requires forall i | 0 <= i < |picks| :: Fits(c, pool[picks[i]], truth, votes[i])
    ensures var hits := Hits(picks, Seats(0, ColluderCount(c))) as real;
            -hits <= Sum(OffBy(truth), votes) <= hits
  {
    hide ValidatorOk, Cast, Fits, ColluderCount, BiasedSeats, ValidConfig;
    if picks != [] {
      var m := |picks| - 1;
      OffByHits(c, pool, picks[..m], votes[..m], truth);
      if picks[m] >= ColluderCount(c) {
        HonestSeat(c, picks[m], pool[picks[m]]);
        HonestVotesTruth(c, pool[picks[m]], truth, votes[m]);
      }
    }
  }

  lemma HonestVotesTruth(c: Config, v: SimValidator, truth: Verdict, vote: Vote)
    requires Honest(v) && Fits(c, v, truth, vote)
    ensures vote.verdict == truth
  {
  }

  lemma {:induction false} OffBySum(votes: seq<Vote>, truth: Verdict)
    ensures Sum(VoteScore, votes) == Sum(OffBy(truth), votes) + SupportScore(truth) * |votes| as real
  {
    if votes != [] {
      OffBySum(votes[..|votes| - 1], truth);
    }
  }

  lemma MeanOff(sum: real, t: real, off: real, n: real, hits: real)
    requires n > 0.0 && sum == off + t * n && -hits <= off <= hits
    ensures t - hits / n <= sum / n <= t + hits / n
  {
    var q := hits / n;
    assert q * n == hits;
    assert (t + q) * n == t * n + q * n;
    assert (t - q) * n == t * n - q * n;
    QuotientAtMost(sum, n, t + q);
    QuotientAtLeast(sum, n, t - q);
  }

  /** The average of a round is off the truth by at most the colluders' share. */
  lemma AverageNearTruth(c: Config, pool: seq<SimValidator>, picks: seq<nat>, votes: seq<Vote>, truth: Verdict)
    requires ValidConfig(c) && PoolOk(c, pool) && BiasedSeats(c) == 0
    requires |picks| == |votes| == c.validatorSetSize && forall i | 0 <= i < |picks| :: picks[i] < |pool|
    requires forall i, j | 0 <= i < j < |picks| :: picks[i] != picks[j]
    requires forall i | 0 <= i < |picks| :: Fits(c, pool[picks[i]], truth, votes[i])
    ensures var t := SupportScore(truth);
            t - Tolerance(c) <= PopulationAverage(votes) <= t + Tolerance(c)
  {
    hide PoolOk, Fits, ColluderCount, BiasedSeats, Hits;
    SeatsAreNat(c);
    OffByHits(c, pool, picks, votes, truth);
    SeatsSize(0, ColluderCount(c));
    HitsAtMostSeats(picks, Seats(0, ColluderCount(c)));
    OffBySum(votes, truth);
    hide Seats, ValidConfig;
    MeanOff(Sum(VoteScore, votes), SupportScore(truth), Sum(OffBy(truth), votes),
      |votes| as real, ColluderCount(c) as real);
    hide Sum;
  }

  // ----- the windows -----

  ghost predicate QuietAt(c: Config, windows: Windows, i: nat)
    requires c.validatorSetSize > 0
  {
    forall obs | obs in Held(windows, Key(ValidatorName(i), c.domain)) :: Deviation(obs) <= Tolerance(c)
  }

  /** Every observation held for a validator that is no colluder is within the tolerance. */
  ghost predicate AllQuiet(c: Config, windows: Windows)
    requires c.validatorSetSize > 0
  {
    forall i: nat | ColluderCount(c) <= i < c.validatorPoolSize :: QuietAt(c, windows, i)
  }

  lemma KeysDistinct(i: nat, j: nat, domain: string)
    ensures Key(ValidatorName(i), domain) == Key(ValidatorName(j), domain) ==> i == j
  {
    NamesAreDistinct(i, j);
    NamesAreDistinct(j, i);
    hide ValidatorName, TrimSpace, Normalize;
    var a, b, rest := ValidatorName(i), ValidatorName(j), ":" + Normalize(domain);
    assert Key(a, domain) == a + rest && Key(b, domain) == b + rest;
    if a + rest == b + rest {
      CutSuffix(a, b, rest);
    }
  }

  lemma CutSuffix(a: string, b: string, rest: string)
    requires a + rest == b + rest
    ensures a == b
  {
    assert |a| == |b|;
    assert a == (a + rest)[..|a|] == (b + rest)[..|b|] == b;
  }

  lemma QuietStep(c: Config, windows: Windows, p: nat, i: nat, obs: Observation)
    requires c.validatorSetSize > 0 && QuietAt(c, windows, i)
    requires p == i ==> Deviation(obs) <= Tolerance(c)
    ensures QuietAt(c, Recorded(windows, DEFAULT_WINDOW_SIZE, ValidatorName(p), c.domain, obs), i)
  {
    RecordedAt(windows, DEFAULT_WINDOW_SIZE, Call(ValidatorName(p), c.domain, obs), Key(ValidatorName(i), c.domain));
    KeysDistinct(p, i, c.domain);
    hide Recorded, Key, Held, RecordError, Deviation, Tolerance, ValidatorName;
  }

  lemma QuietNotFlagged(c: Config, windows: Windows, i: nat)
    requires c.validatorSetSize > 0 && ColluderCount(c) >= 0 && QuietAt(c, windows, i)
    ensures BiasIn(windows, ValidatorName(i), c.domain).coefficient <= Tolerance(c)
  {
    QuotientAtLeast(ColluderCount(c) as real, c.validatorSetSize as real, 0.0);
    CoefficientAtMost(Held(windows, Key(ValidatorName(i), c.domain)), Tolerance(c));
    hide Coefficient, Deviation, Tolerance, Key, ColluderCount, ValidatorName, TrimSpace, Normalize, ClassifyTier;
  }

  lemma CoefficientAtMost(entries: seq<Observation>, eps: real)
    requires eps >= 0.0 && forall obs | obs in entries :: Deviation(obs) <= eps
    ensures Coefficient(entries) <= eps
  {
    if |entries| >= MIN_OBSERVATIONS_FOR_BIAS {
      DeviationSum(entries, eps);
      TimesIs(eps, |entries| as real);
      QuotientAtMost(Sum(Deviation, entries), |entries| as real, eps);
    }
    hide Sum, Deviation;
  }

  lemma TimesIs(x: real, y: real)
    ensures Times(x, y) == x * y
  {
  }

  lemma {:induction false} DeviationSum(entries: seq<Observation>, eps: real)
    requires forall obs | obs in entries :: Deviation(obs) <= eps
    ensures Sum(Deviation, entries) <= Times(eps, |entries| as real)
  {
    hide Times, Deviation;
    TimesCount(eps, 0);
    if entries != [] {
      var m := |entries| - 1;
      DeviationSum(entries[..m], eps);
      TimesCount(eps, m);
      assert entries[m] in entries;
    }
  }

  /** Fewer than three colluders to ten seats keep the tolerance below the threshold. */
  lemma ToleranceBelowThreshold(c: Config)
    requires c.validatorSetSize > 0 && 10 * ColluderCount(c) < 3 * c.validatorSetSize
    ensures Tolerance(c) < BIAS_MODERATE_THRESHOLD
  {
    hide ColluderCount;
    QuotientAtLeast(ColluderCount(c) as real, c.validatorSetSize as real, BIAS_MODERATE_THRESHOLD);
  }

  /** Recording a round keeps honest validators quiet, and flags colluders at most. */
  lemma {:induction false} RecordingKeepsQuiet(c: Config, windows: Windows, selected: seq<SimValidator>,
      picks: seq<nat>,
      votes: seq<Vote>, average: real, round: nat)
    requires |selected| == |votes| == |picks| && c.validatorSetSize > 0 && ColluderCount(c) >= 0
    requires AllQuiet(c, windows) && Tolerance(c) < BIAS_MODERATE_THRESHOLD
    requires forall j | 0 <= j < |picks| ::
               picks[j] < c.validatorPoolSize && selected[j].record.validatorId == ValidatorName(picks[j])
    requires forall j | 0 <= j < |picks| && picks[j] >= ColluderCount(c) ::
               Deviation(ObservationOf(votes[j], average, round)) <= Tolerance(c)
    ensures var r := RecordBias(c, windows, selected, votes, average, round);
            r.Success? ==>
              AllQuiet(c, r.value.0) && r.value.1 <= Hits(picks, Seats(0, ColluderCount(c)))
  {
    hide ColluderCount, Tolerance, QuietAt, Deviation, ObservationOf, Recorded, RecordError, BiasIn, ValidatorName;
    var r := RecordBias(c, windows, selected, votes, average, round);
    if picks != [] && r.Success? {
      var m := |picks| - 1;
      RecordingKeepsQuiet(c, windows, selected[..m], picks[..m], votes[..m], average, round);
      var rest := RecordBias(c, windows, selected[..m], votes[..m], average, round).value.0;
      var p, obs := picks[m], ObservationOf(votes[m], average, round);
      forall i: nat | ColluderCount(c) <= i < c.validatorPoolSize ensures QuietAt(c, r.value.0, i) {
        QuietStep(c, rest, p, i, obs);
      }
      if p >= ColluderCount(c) {
        QuietNotFlagged(c, r.value.0, p);
      }
    }
  }

  // ----- one round -----

  lemma TruthDeviation(vote: Vote, average: real, round: nat, truth: Verdict, eps: real)
    requires vote.verdict == truth && SupportScore(truth) - eps <= average <= SupportScore(truth) + eps
    ensures Deviation(ObservationOf(vote, average, round)) <= eps
  {
    hide ClaimName;
  }

  lemma HonestObservations(c: Config, s: Stream, st: State, round: nat)
    requires ValidConfig(c) && Playable(c, s, st) && PoolOk(c, st.pool) && BiasedSeats(c) == 0
    ensures var picks, votes := PicksOf(c, s, st), VotesOf(c, s, st);
            forall j | 0 <= j < |picks| && picks[j] >= ColluderCount(c) ::
              Deviation(ObservationOf(votes[j], PopulationAverage(votes), round)) <= Tolerance(c)
  {
    hide AllValid, AllFit, PicksOf, VotesOf, Playable, Fits, ColluderCount, BiasedSeats, PopulationAverage, Tolerance,
      Deviation, ObservationOf;
    RoundVotes(c, s, st);
    FitsAtPicks(c, s, st);
    var picks, votes, truth := PicksOf(c, s, st), VotesOf(c, s, st), TruthOf(s, st);
    AverageNearTruth(c, st.pool, picks, votes, truth);
    forall j | 0 <= j < |picks| && picks[j] >= ColluderCount(c)
      ensures Deviation(ObservationOf(votes[j], PopulationAverage(votes), round)) <= Tolerance(c)
    {
      HonestSeat(c, picks[j], st.pool[picks[j]]);
      HonestVotesTruth(c, st.pool[picks[j]], truth, votes[j]);
      TruthDeviation(votes[j], PopulationAverage(votes), round, truth, Tolerance(c));
    }
  }

  lemma NamesAtPicks(c: Config, pool: seq<SimValidator>, picks: seq<nat>)
    requires PoolOk(c, pool) && forall i | 0 <= i < |picks| :: picks[i] < |pool|
    ensures forall j | 0 <= j < |picks| ::
              picks[j] < c.validatorPoolSize && Pick(pool, picks)[j].record.validatorId == ValidatorName(picks[j])
  {
    hide ValidatorOk, ValidatorName;
  }

  /** A round keeps every honest validator's window quiet. Without colluders nobody is
      flagged in it. */
  lemma RoundKeepsQuiet(c: Config, s: Stream, st: State, round: nat)
    requires ValidConfig(c) && Playable(c, s, st) && PoolOk(c, st.pool) && !Blank(c.domain)
    requires BiasedSeats(c) == 0 && 10 * ColluderCount(c) < 3 * c.validatorSetSize
    requires AllQuiet(c, st.windows)
    ensures var r := SimulateRound(c, s, st, round);
            && r.Success?
            && AllQuiet(c, r.value.0.windows)
            && (ColluderCount(c) == 0 ==> r.value.1.biasDetectionEvents == 0)
  {
    hide PicksOf, VotesOf, Playable, ColluderCount, BiasedSeats, UpdatedPool, RecordBias, AllQuiet, Tolerance, Decide,
      PopulationAverage, Evolved, AllEvolved, VotesAndNext;
    SeatsAreNat(c);
    RoundSucceeds(c, s, st, round);
    RoundUpdates(c, s, st);
    HonestObservations(c, s, st, round);
    ToleranceBelowThreshold(c);
    hide PoolOk, ValidConfig;
    var picks, votes := PicksOf(c, s, st), VotesOf(c, s, st);
    var pool' := UpdatedPool(c, s, st).value;
    NamesAtPicks(c, pool', picks);
    hide Pick;
    RecordingKeepsQuiet(c, st.windows, Pick(pool', picks), picks, votes, PopulationAverage(votes), round);
    NoSeatsNoHits(picks);
  }

  lemma {:induction false} NoSeatsNoHits(picks: seq<nat>)
    ensures Hits(picks, Seats(0, 0)) == 0
  {
    if picks != [] {
      NoSeatsNoHits(picks[..|picks| - 1]);
    }
  }

  // ----- the final count -----

  lemma {:induction false} OnlyColludersFlagged(c: Config, pool: seq<SimValidator>, windows: Windows, n: nat)
    requires PoolOk(c, pool) && n <= |pool| && c.validatorSetSize > 0 && ColluderCount(c) >= 0
    requires AllQuiet(c, windows) && Tolerance(c) < BIAS_MODERATE_THRESHOLD
    ensures CountFlagged(pool[..n], windows, c.domain) <= ColluderCount(c)
    ensures CountFlagged(pool[..n], windows, c.domain) <= n
  {
    hide ColluderCount, Tolerance, QuietAt, ValidatorOk, ValidatorName, BiasIn;
    if n > 0 {
      var m := n - 1;
      OnlyColludersFlagged(c, pool, windows, m);
      assert pool[..n][..m] == pool[..m];
      if m >= ColluderCount(c) {
        QuietNotFlagged(c, windows, m);
      }
    }
  }
}
