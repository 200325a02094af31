/** Who can be flagged for bias, and when the report's final count misses somebody who was. */
module SimFlags {
  import opened Bias
  import opened Reals
  import opened SimModel
  import opened SimRound
  import opened SimRuns
  import opened SimSafety
  import opened SimScript
  import opened SimWindows
  import opened Sums
  import opened Text
  import opened Verdicts

  // ----- who can be flagged -----

  function Repeat<T>(x: T, n: nat): (xs: seq<T>)
    ensures |xs| == n && forall i | 0 <= i < n :: xs[i] == x
  {
    seq(n, _ => x)
  }

  lemma {:induction false} SumRepeat<T>(f: T -> real, x: T, n: nat)
    ensures Sum(f, Repeat(x, n)) == n as real * f(x)
  {
    if n > 0 {
      assert Repeat(x, n)[..n - 1] == Repeat(x, n - 1);
      SumRepeat(f, x, n - 1);
    }
  }

  /** No validator of this kind is flagged after any round of any run. */
  ghost predicate NeverFlagged(c: Config, colluder: bool)
    requires ValidConfig(c)
  {
    forall s, n: nat, p: nat | Lawful(s) && n <= c.rounds && p < c.validatorPoolSize
      && (p < ColluderCount(c) <==> colluder) ::
      !FlaggedAfter(c, s, n, p)
  }

  /** Exactly when no colluder, or no honest validator, is ever flagged: if there are fewer than
      five rounds, or no round can give one of them a deviation of 0.3. */
  lemma NeverFlaggedExactly(c: Config, colluder: bool)
    requires ValidConfig(c) && !Blank(c.domain) && BiasedSeats(c) == 0
    ensures NeverFlagged(c, colluder) <==> c.rounds < 5 || Peak(c, colluder) < BIAS_MODERATE_THRESHOLD
  {
    hide Blank, Lawful, FlaggedAfter, BiasedSeats, ColluderCount, Peak, ValidConfig, ScriptStream, DeviationIn,
      PeakPlan;
    if c.rounds < 5 || Peak(c, colluder) < BIAS_MODERATE_THRESHOLD {
      forall s, n: nat, p: nat
        | Lawful(s) && n <= c.rounds && p < c.validatorPoolSize && (p < ColluderCount(c) <==> colluder)
        ensures !FlaggedAfter(c, s, n, p)
      {
        if FlaggedAfter(c, s, n, p) {
          FlaggedTakesFive(c, s, n, p);
          FlaggedNeedsPeak(c, s, n, p);
        }
      }
    } else {
      PeakNeedsColluders(c, colluder);
      var plans := Repeat(PeakPlan(c, colluder), 5);
      PeakIsReached(c, colluder);
      SumRepeat(DeviationIn(c, colluder), PeakPlan(c, colluder), 5);
      ScriptRaises(c, colluder, plans);
      TargetIsOfKind(c, colluder);
      assert FlaggedAfter(c, ScriptStream(c, plans), 5, Target(c, colluder));
    }
  }

  lemma PeakNeedsColluders(c: Config, colluder: bool)
    requires ValidConfig(c) && Peak(c, colluder) > 0.0
    ensures ColluderCount(c) > 0 && HasKind(c, colluder)
  {
    CollusionFits(c);
    hide ColluderCount;
  }

  lemma TargetIsOfKind(c: Config, colluder: bool)
    requires ValidConfig(c) && HasKind(c, colluder)
    ensures Target(c, colluder) < c.validatorPoolSize && (Target(c, colluder) < ColluderCount(c) <==> colluder)
  {
    CollusionFits(c);
    hide ColluderCount, ValidConfig;
  }

  // ----- the final count -----

  /** The validators flagged after n rounds. */
  ghost function FlaggedSet(c: Config, s: Stream, n: nat): set<nat>
    requires ValidConfig(c) && Lawful(s)
  {
    set p: nat | p < c.validatorPoolSize && FlaggedAfter(c, s, n, p)
  }

  ghost predicate FlaggedOnce(c: Config, s: Stream, p: nat)
    requires ValidConfig(c) && Lawful(s)
  {
    exists n: nat | n <= c.rounds :: FlaggedAfter(c, s, n, p)
  }

  /** The validators flagged at least once during the run. */
  ghost function EverFlagged(c: Config, s: Stream): set<nat>
    requires ValidConfig(c) && Lawful(s)
  {
    set p: nat | p < c.validatorPoolSize && FlaggedOnce(c, s, p)
  }

  lemma {:induction false} CountIsSize(pool: seq<SimValidator>, windows: Windows, domain: string, n: nat)
    requires n <= |pool|
    ensures CountFlagged(pool[..n], windows, domain) == |set p: nat | p < n && Flagged(windows, pool[p], domain)|
  {
    hide Flagged;
    var flagged := set p: nat | p < n && Flagged(windows, pool[p], domain);
    if n == 0 {
      assert flagged == {};
    } else {
      CountIsSize(pool, windows, domain, n - 1);
      assert pool[..n][..n - 1] == pool[..n - 1];
      var fewer := set p: nat | p < n - 1 && Flagged(windows, pool[p], domain);
      assert flagged == if Flagged(windows, pool[n - 1], domain) then fewer + {n - 1} else fewer;
    }
  }

  /** The report counts the validators flagged after the last round. */
  lemma ReportCountsLast(c: Config, s: Stream)
    requires ValidConfig(c) && !Blank(c.domain) && Lawful(s)
    ensures RunSpec(c, s).Success?
    ensures RunSpec(c, s).value.biasedValidatorsDetected == |FlaggedSet(c, s, c.rounds)|
  {
    hide RunRounds, Blank, PoolOk, Playable, Lawful, Sum, CountFlagged, Flagged, FlaggedAfter, Ratio;
    EveryRunProceeds(c, s, c.rounds);
    var st := StateAfter(c, s, c.rounds);
    CountIsSize(st.pool, st.windows, c.domain, |st.pool|);
    assert st.pool[..|st.pool|] == st.pool;
    forall p: nat | p < c.validatorPoolSize
      ensures |st.pool| == c.validatorPoolSize
      ensures Flagged(st.windows, st.pool[p], c.domain) <==> FlaggedAfter(c, s, c.rounds, p)
    {
      FlaggedAsAsked(c, s, c.rounds, p);
    }
    FlaggedAsAsked(c, s, c.rounds, 0);
    assert FlaggedSet(c, s, c.rounds) == set p: nat | p < |st.pool| && Flagged(st.windows, st.pool[p], c.domain);
  }

  /** The report counts everybody who was flagged at least once. */
  ghost predicate CountsEveryFlag(c: Config, s: Stream)
    requires ValidConfig(c) && Lawful(s)
  {
    RunSpec(c, s).Success? && RunSpec(c, s).value.biasedValidatorsDetected == |EverFlagged(c, s)|
  }

  /** It does so exactly if no flag is lost, since it never counts anybody else. */
  lemma CountsIfNoneLost(c: Config, s: Stream)
    requires ValidConfig(c) && !Blank(c.domain) && Lawful(s)
    ensures CountsEveryFlag(c, s) <==>
            forall n: nat, p: nat | n <= c.rounds && p < c.validatorPoolSize && FlaggedAfter(c, s, n, p) ::
              FlaggedAfter(c, s, c.rounds, p)
  {
    hide RunSpec, Blank, Lawful, FlaggedAfter, ValidConfig;
    RoundsNat(c);
    ReportCountsLast(c, s);
    var last, ever := FlaggedSet(c, s, c.rounds), EverFlagged(c, s);
    SubsetSize(last, ever);
    if last == ever {
      forall n: nat, p: nat | n <= c.rounds && p < c.validatorPoolSize && FlaggedAfter(c, s, n, p)
        ensures FlaggedAfter(c, s, c.rounds, p)
      {
        assert p in ever;
      }
    } else {
      var p :| p in ever && p !in last;
      assert FlaggedOnce(c, s, p) && !FlaggedAfter(c, s, c.rounds, p);
    }
  }

  lemma RoundsNat(c: Config)
    ensures ValidConfig(c) ==> c.rounds >= 0
  {
  }

  lemma SubsetSize(a: set<nat>, b: set<nat>)
    requires a <= b
    ensures |a| == |b| <==> a == b
  {
    assert b == a + (b - a);
  }

  /** In every run of at most five rounds, whoever is configured, the final count is the number
      of validators flagged at least once. */
  lemma ShortRunsCountEveryFlag(c: Config, s: Stream)
    requires ValidConfig(c) && !Blank(c.domain) && Lawful(s) && c.rounds <= 5
    ensures CountsEveryFlag(c, s)
  {
    hide Blank, Lawful, FlaggedAfter, ValidConfig, CountsEveryFlag;
    forall n: nat, p: nat | n <= c.rounds && p < c.validatorPoolSize && FlaggedAfter(c, s, n, p)
      ensures FlaggedAfter(c, s, c.rounds, p)
    {
      FlaggedTakesFive(c, s, n, p);
    }
    CountsIfNoneLost(c, s);
  }

  // ----- five rounds in reach -----

  /** Some validator can take part in five rounds whose deviations add up to this range. */
  ghost predicate FiveInReach(c: Config, lo: real, hi: real)
    requires c.validatorSetSize > 0
  {
    exists colluder, plans ::
      |plans| == 5 && CanPlayAll(c, colluder, plans) && lo <= Sum(DeviationIn(c, colluder), plans) < hi
  }

  /** Five rounds between 1.5 and the limit raise a flag that is lost at the end. */
  lemma ReachLoses(c: Config)
    requires ValidConfig(c) && !Blank(c.domain) && BiasedSeats(c) == 0 && c.rounds >= 6
    requires c.validatorSetSize > 0 && FiveInReach(c, 1.5, if c.rounds == 6 then 1.8 else 2.1)
    ensures exists s :: Lawful(s) && !CountsEveryFlag(c, s)
  {
    hide Blank, Lawful, FlaggedAfter, ValidConfig, CountsEveryFlag, BiasedSeats, ColluderCount, ScriptStream,
      DeviationIn, Sum, CanPlayAll;
    var colluder, plans :| |plans| == 5 && CanPlayAll(c, colluder, plans)
      && 1.5 <= Sum(DeviationIn(c, colluder), plans) < if c.rounds == 6 then 1.8 else 2.1;
    PlayersExist(c, colluder, plans);
    var s := ScriptStream(c, plans);
    ScriptRaises(c, colluder, plans);
    ScriptLoses(c, colluder, plans, c.rounds);
    TargetIsOfKind(c, colluder);
    CountsIfNoneLost(c, s);
  }

  lemma PlayersExist(c: Config, colluder: bool, plans: seq<Plan>)
    requires ValidConfig(c) && CanPlayAll(c, colluder, plans) && Sum(DeviationIn(c, colluder), plans) > 0.0
    ensures plans != [] && ColluderCount(c) > 0 && HasKind(c, colluder)
  {
    CollusionFits(c);
    assert CanPlay(c, colluder, plans[0]);
    if ColluderCount(c) == 0 {
      NoColludersNoDeviation(c, colluder, plans);
    }
  }

  lemma NoColludersNoDeviation(c: Config, colluder: bool, plans: seq<Plan>)
    requires ValidConfig(c) && CanPlayAll(c, colluder, plans) && ColluderCount(c) == 0
    ensures c.validatorSetSize > 0 && Sum(DeviationIn(c, colluder), plans) == 0.0
  {
    CollusionFits(c);
    hide ColluderCount, ValidConfig;
    forall plan | plan in plans ensures DeviationIn(c, colluder)(plan) == 0.0 {
      assert CanPlay(c, colluder, plan);
      NoShare(Gap(c, plan.truth), c.validatorSetSize);
    }
    SumOfZeros(DeviationIn(c, colluder), plans);
  }

  /** The observations of a window stand for rounds that can be played. */
  lemma {:induction false} PlansOf(c: Config, colluder: bool, entries: seq<Observation>) returns (plans: seq<Plan>)
    requires c.validatorSetSize > 0 && forall obs | obs in entries :: CanDeviate(c, colluder, Deviation(obs))
    ensures |plans| == |entries| && forall i | 0 <= i < |plans| :: CanPlay(c, colluder, plans[i])
    ensures Sum(DeviationIn(c, colluder), plans) == Sum(Deviation, entries)
  {
    hide CanPlay, DeviationIn, Deviation;
    if entries == [] {
      plans := [];
    } else {
      var m := |entries| - 1;
      assert entries[m] in entries && forall o | o in entries[..m] :: o in entries;
      var rest := PlansOf(c, colluder, entries[..m]);
      var plan :| CanPlay(c, colluder, plan) && Deviation(entries[m]) == DeviationIn(c, colluder)(plan);
      plans := rest + [plan];
      SumSnoc(DeviationIn(c, colluder), rest, plan);
    }
  }

  /** In a run of six rounds a flag can only be lost in the sixth, by five in reach of 1.8. */
  lemma SixthRoundNeedsReach(c: Config, s: Stream, n: nat, p: nat)
    requires ValidConfig(c) && !Blank(c.domain) && Lawful(s) && BiasedSeats(c) == 0 && c.rounds == 6
    requires n <= 6 && FlaggedAfter(c, s, n, p) && !FlaggedAfter(c, s, 6, p)
    ensures c.validatorSetSize > 0 && FiveInReach(c, 1.5, 1.8)
  {
    hide Blank, Lawful, ValidConfig, BiasedSeats, ColluderCount, DeviationIn, Sum, CanDeviate, WindowAfter, RunRounds,
      Coefficient, Deviation, Slide, CanPlay;
    FlaggedTakesFive(c, s, n, p);
    WindowShort(c, s, 5, p);
    WindowShort(c, s, 6, p);
    WindowStep(c, s, 5, p);
    var five, six := WindowAfter(c, s, 5, p), WindowAfter(c, s, 6, p);
    var obs :| six == Slide(five, DEFAULT_WINDOW_SIZE, obs);
    TooFewToFlag(five);
    SlideBelowSize(five, obs);
    DeviationsNonNegative([obs]);
    assert obs in [obs];
    CoefficientAtLeast(five, BIAS_MODERATE_THRESHOLD);
    CoefficientAtLeast(six, BIAS_MODERATE_THRESHOLD);
    var plans := PlansOf(c, p < ColluderCount(c), five);
  }

  lemma TooFewToFlag(entries: seq<Observation>)
    ensures Coefficient(entries) >= BIAS_MODERATE_THRESHOLD ==> |entries| >= MIN_OBSERVATIONS_FOR_BIAS
  {
  }

  // ----- a peak of 0.3 is enough reach for seven rounds -----

  /** Five rounds: some at the peak, perhaps one at half of it, and the rest without deviation. */
  function Mixed(full: Plan, half: Plan, none: Plan, fulls: nat, halves: nat): (plans: seq<Plan>)
    requires fulls + halves <= 5
    ensures |plans| == 5
  {
    Repeat(full, fulls) + Repeat(half, halves) + Repeat(none, 5 - fulls - halves)
  }

  lemma MixedSum(f: Plan -> real, full: Plan, half: Plan, none: Plan, fulls: nat, halves: nat)
    requires fulls + halves <= 5 && f(none) == 0.0
    ensures Sum(f, Mixed(full, half, none, fulls, halves)) == fulls as real * f(full) + halves as real * f(half)
  {
    SumRepeat(f, full, fulls);
    SumRepeat(f, half, halves);
    SumRepeat(f, none, 5 - fulls - halves);
    SumConcat(f, Repeat(full, fulls), Repeat(half, halves));
    SumConcat(f, Repeat(full, fulls) + Repeat(half, halves), Repeat(none, 5 - fulls - halves));
  }

  /** A round with half the deviation of the peak, if the lie is at an end of the axis. */
  lemma HalfPlan(c: Config, colluder: bool)
    requires ValidConfig(c) && HasKind(c, colluder) && ColluderCount(c) > 0 && Peak(c, colluder) > 0.5
    ensures c.validatorSetSize > 0
    ensures var half := PeakPlan(c, colluder).(truth := Misleading);
            CanPlay(c, colluder, half) && DeviationIn(c, colluder)(half) == Peak(c, colluder) / 2.0
  {
    hide Ratio, Times, ColluderCount, Gap, PeakGap, PeakTruth;
    CollusionFits(c);
    VerdictOfColluders(c);
    GapAtMostPeak(c, Misleading);
    PeakIsReached(c, colluder);
    var k, j := c.validatorSetSize, PeakColluders(c, colluder);
    var share := if colluder then (k - j) as real else j as real;
    HalfOfPeak(share, k);
    PeakGapIs(c);
  }

  lemma PeakGapIs(c: Config)
    ensures PeakGap(c) == 1.0 || PeakGap(c) == 0.5
  {
  }

  lemma HalfOfPeak(share: real, k: nat)
    requires k > 0 && 0.0 <= share <= k as real
    ensures Ratio(Times(0.5, share), k) == Ratio(Times(1.0, share), k) / 2.0
    ensures Ratio(Times(0.5, share), k) <= 0.5
  {
    var n := k as real;
    var whole, half := share / n, share / n / 2.0;
    assert whole * n == share;
    assert half * n == 0.5 * share;
    QuotientAtMost(0.5 * share, n, half);
    QuotientAtLeast(0.5 * share, n, half);
    QuotientAtMost(0.5 * share, n, 0.5);
  }

  lemma NonePlan(c: Config, colluder: bool)
    requires ValidConfig(c) && HasKind(c, colluder) && ColluderCount(c) > 0
    ensures c.validatorSetSize > 0
    ensures var none := PeakPlan(c, colluder).(truth := c.collusionVerdict);
            CanPlay(c, colluder, none) && DeviationIn(c, colluder)(none) == 0.0
  {
    hide ColluderCount;
    CollusionFits(c);
    VerdictOfColluders(c);
    PeakIsReached(c, colluder);
    assert Gap(c, c.collusionVerdict) == 0.0;
  }

  /** How many rounds at the peak bring five rounds between 1.5 and 2.1. */
  function Fulls(peak: real): nat {
    if peak < 0.375 then 5 else if peak < 0.5 then 4 else if peak < 0.7 then 3 else 2
  }

  function Halves(peak: real): nat {
    if 0.7 <= peak < 0.75 then 1 else 0
  }

  lemma PeakAtMostOne(c: Config, colluder: bool)
    requires ValidConfig(c)
    ensures Peak(c, colluder) <= 1.0
  {
    CollusionFits(c);
    hide ColluderCount;
    var k := c.validatorSetSize;
    if HasKind(c, colluder) && ColluderCount(c) > 0 {
      var j := PeakColluders(c, colluder);
      var share := if colluder then (k - j) as real else j as real;
      ProductsMonotone(PeakGap(c), 1.0, share, k as real);
      QuotientAtMost(Times(PeakGap(c), share), k as real, 1.0);
    }
  }

  lemma PeakIsReach(c: Config, colluder: bool)
    requires ValidConfig(c) && Peak(c, colluder) >= BIAS_MODERATE_THRESHOLD
    ensures c.validatorSetSize > 0 && FiveInReach(c, 1.5, 2.1)
  {
    hide Ratio, Times, ColluderCount, ValidConfig, Peak, PeakPlan, CanPlay, DeviationIn, Sum;
    PeakNeedsColluders(c, colluder);
    PeakAtMostOne(c, colluder);
    PeakIsReached(c, colluder);
    NonePlan(c, colluder);
    var peak := Peak(c, colluder);
    if peak > 0.5 {
      HalfPlan(c, colluder);
    }
    var full, none := PeakPlan(c, colluder), PeakPlan(c, colluder).(truth := c.collusionVerdict);
    var half := if peak > 0.5 then PeakPlan(c, colluder).(truth := Misleading) else none;
    var plans := Mixed(full, half, none, Fulls(peak), Halves(peak));
    MixedSum(DeviationIn(c, colluder), full, half, none, Fulls(peak), Halves(peak));
    assert CanPlayAll(c, colluder, plans);
  }

  // ----- exactly -----

  /** Exactly when the final count is the number of validators flagged at least once, for every
      stream: in runs of at most five rounds; in runs of six, unless five rounds can add up to
      at least 1.5 and less than 1.8; and in longer ones, only if nobody can be flagged. */
  lemma CountsEveryFlagExactly(c: Config)
    requires ValidConfig(c) && !Blank(c.domain) && BiasedSeats(c) == 0
    ensures c.validatorSetSize > 0
    ensures (forall s | Lawful(s) :: CountsEveryFlag(c, s)) <==>
            || c.rounds <= 5
            || (c.rounds == 6 && !FiveInReach(c, 1.5, 1.8))
            || (Peak(c, true) < BIAS_MODERATE_THRESHOLD && Peak(c, false) < BIAS_MODERATE_THRESHOLD)
  {
    hide Blank, Lawful, ValidConfig, CountsEveryFlag, BiasedSeats, ColluderCount, FiveInReach, Peak, FlaggedAfter;
    CollusionFits(c);
    if c.rounds <= 5 {
      forall s | Lawful(s) ensures CountsEveryFlag(c, s) {
        ShortRunsCountEveryFlag(c, s);
      }
    } else if Peak(c, true) < BIAS_MODERATE_THRESHOLD && Peak(c, false) < BIAS_MODERATE_THRESHOLD {
      forall s | Lawful(s) ensures CountsEveryFlag(c, s) {
        NobodyToCount(c, s);
      }
    } else if c.rounds == 6 {
      if FiveInReach(c, 1.5, 1.8) {
        ReachLoses(c);
      } else {
        forall s | Lawful(s) ensures CountsEveryFlag(c, s) {
          SixRoundsCount(c, s);
        }
      }
    } else {
      PeakIsReach(c, Peak(c, true) >= BIAS_MODERATE_THRESHOLD);
      ReachLoses(c);
    }
  }

  lemma NobodyToCount(c: Config, s: Stream)
    requires ValidConfig(c) && !Blank(c.domain) && Lawful(s) && BiasedSeats(c) == 0
    requires Peak(c, true) < BIAS_MODERATE_THRESHOLD && Peak(c, false) < BIAS_MODERATE_THRESHOLD
    ensures CountsEveryFlag(c, s)
  {
    hide Blank, Lawful, FlaggedAfter, ValidConfig, CountsEveryFlag, BiasedSeats, ColluderCount, Peak;
    forall n: nat, p: nat ensures !FlaggedAfter(c, s, n, p) {
      if FlaggedAfter(c, s, n, p) {
        FlaggedNeedsPeak(c, s, n, p);
      }
    }
    RoundsNat(c);
    CountsIfNoneLost(c, s);
  }

  lemma SixRoundsCount(c: Config, s: Stream)
    requires ValidConfig(c) && !Blank(c.domain) && Lawful(s) && BiasedSeats(c) == 0 && c.rounds == 6
    requires c.validatorSetSize > 0 && !FiveInReach(c, 1.5, 1.8)
    ensures CountsEveryFlag(c, s)
  {
    hide Blank, Lawful, FlaggedAfter, ValidConfig, CountsEveryFlag, BiasedSeats, ColluderCount, FiveInReach;
    forall n: nat, p: nat | n <= c.rounds && p < c.validatorPoolSize && FlaggedAfter(c, s, n, p)
      ensures FlaggedAfter(c, s, c.rounds, p)
    {
      if !FlaggedAfter(c, s, 6, p) {
        SixthRoundNeedsReach(c, s, n, p);
      }
    }
    CountsIfNoneLost(c, s);
  }
}
