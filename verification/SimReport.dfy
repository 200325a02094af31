/** What the report of a run says about its rounds and about the pool at its end. */
module SimReport {
  import opened Bias
  import opened BiasLaws
  import opened Consensus
  import opened Reals
  import opened SimFlags
  import opened SimModel
  import opened SimQuiet
  import opened SimRound
  import opened SimRuns
  import opened SimWindows
  import opened Sums
  import opened Text
  import opened Verdicts
  import opened Wrappers

  // ----- the derived figures -----

  lemma RatioTimes(x: real, n: nat)
    requires n > 0
    ensures Times(Ratio(x, n), n as real) == x
  {
    QuotientTimes(x, n as real);
  }

  /** What finishing does to any report: every figure but the counts is divided by what it
      counts over, and nothing changes without a round. */
  lemma FinaliseIs(r: Report, pool: seq<SimValidator>, windows: Windows, domain: string)
    ensures var f := Finalise(r, pool, windows, domain);
            && f.totalRounds == r.totalRounds
            && f.correctRounds == r.correctRounds
            && f.indeterminateRounds == r.indeterminateRounds
            && f.verdictDistribution == r.verdictDistribution
            && (r.totalRounds == 0 ==> f == r)
            && (r.totalRounds > 0 ==>
                 && Times(f.meanParticipationRate, r.totalRounds as real) == r.meanParticipationRate
                 && Times(f.biasDetectionRate, r.totalRounds as real) == r.biasDetectionRate
                 && Times(f.indeterminateRate, r.totalRounds as real) == r.indeterminateRounds as real
                 && (r.indeterminateRounds < r.totalRounds ==>
                      Times(f.verdictAccuracy, (r.totalRounds - r.indeterminateRounds) as real)
                      == r.correctRounds as real)
                 && (r.indeterminateRounds >= r.totalRounds ==> f.verdictAccuracy == r.verdictAccuracy)
                 && (pool != [] ==> Times(f.reputationConvergence, |pool| as real) == Sum(ScoreIn(domain), pool))
                 && (pool == [] ==> f.reputationConvergence == r.reputationConvergence)
                 && f.biasedValidatorsDetected
                    == |set i: nat | i < |pool|
                                     && BiasIn(windows, pool[i].record.validatorId, domain).coefficient >= 0.3|)
  {
    hide Ratio, Sum, CountFlagged, ScoreIn, BiasIn, Times;
    if r.totalRounds > 0 {
      var total, decided := r.totalRounds, r.totalRounds - r.indeterminateRounds;
      RatioTimes(r.meanParticipationRate, total);
      RatioTimes(r.biasDetectionRate, total);
      RatioTimes(r.indeterminateRounds as real, total);
      if decided > 0 {
        RatioTimes(r.correctRounds as real, decided);
      }
      if pool != [] {
        RatioTimes(Sum(ScoreIn(domain), pool), |pool|);
      }
      CountIsSize(pool, windows, domain, |pool|);
      assert pool[..|pool|] == pool;
      assert (set i: nat | i < |pool| && BiasIn(windows, pool[i].record.validatorId, domain).coefficient >= 0.3)
          == set i: nat | i < |pool| && Flagged(windows, pool[i], domain);
    }
  }

  // ----- rounds of a run -----

  ghost predicate Runs(c: Config, s: Stream) {
    ValidConfig(c) && !Blank(c.domain) && Lawful(s)
  }

  /** The truth of the claim of round i, and what came out. */
  ghost function TruthIn(c: Config, s: Stream, i: nat): Verdict
    requires Runs(c, s)
  {
    NextState(c, s, i);
    TruthOf(s, StateAfter(c, s, i))
  }

  ghost function ResultIn(c: Config, s: Stream, i: nat): RoundResult
    requires Runs(c, s)
  {
    NextState(c, s, i);
    RoundOf(c, s, i).value.1
  }

  ghost predicate EndsWith(c: Config, s: Stream, i: nat, v: Verdict)
    requires Runs(c, s)
  {
    ResultIn(c, s, i).consensusVerdict == v
  }

  ghost predicate EndsRight(c: Config, s: Stream, i: nat)
    requires Runs(c, s)
  {
    ResultIn(c, s, i).consensusVerdict == TruthIn(c, s, i) != Indeterminate
  }

  /** Whether round i selects a validator that is flagged after it. */
  ghost predicate Flags(c: Config, s: Stream, i: nat)
    requires Runs(c, s)
  {
    FlaggedIn(c, s, i) != {}
  }

  /** Who is selected in round i and flagged after it. */
  ghost function FlaggedIn(c: Config, s: Stream, i: nat): set<nat>
    requires Runs(c, s)
  {
    NextState(c, s, i);
    set p: nat | p in PicksOf(c, s, StateAfter(c, s, i)) && FlaggedAfter(c, s, i + 1, p)
  }

  // ----- the events of a round -----

  /** The validators among the first n picks whose window is at or above the moderate threshold. */
  ghost function FlaggedPicks(c: Config, windows: Windows, picks: seq<nat>): set<nat> {
    set p: nat | p in picks && Coefficient(WindowOf(c, windows, p)) >= BIAS_MODERATE_THRESHOLD
  }

  /** No observation of a round touches the window of another validator, so whoever is flagged
      right after the own observation is flagged after the round. */
  lemma {:induction false} EventsOfPicks(c: Config, windows: Windows, selected: seq<SimValidator>, picks: seq<nat>,
      votes: seq<Vote>, average: real, round: nat)
    requires |selected| == |votes| == |picks|
    requires forall j | 0 <= j < |picks| :: selected[j].record.validatorId == ValidatorName(picks[j])
    requires forall i, j | 0 <= i < j < |picks| :: picks[i] != picks[j]
    ensures var r := RecordBias(c, windows, selected, votes, average, round);
            r.Success? ==> r.value.1 == |FlaggedPicks(c, r.value.0, picks)|
  {
    hide ObservationOf, Recorded, RecordError, BiasIn, ValidatorName, Held, Key, Slide, Coefficient, FlaggedPicks;
    var r := RecordBias(c, windows, selected, votes, average, round);
    if picks == [] {
      NobodyPicked(c, windows);
    } else if r.Success? {
      var m := |picks| - 1;
      EventsOfPicks(c, windows, selected[..m], picks[..m], votes[..m], average, round);
      var rest := RecordBias(c, windows, selected[..m], votes[..m], average, round).value.0;
      var obs := ObservationOf(votes[m], average, round);
      assert picks == picks[..m] + [picks[m]];
      LastPick(c, rest, picks[..m], picks[m], obs);
    }
  }

  lemma NobodyPicked(c: Config, windows: Windows)
    ensures FlaggedPicks(c, windows, []) == {}
  {
    hide Coefficient, WindowOf;
  }

  lemma LastPick(c: Config, windows: Windows, picks: seq<nat>, p: nat, obs: Observation)
    requires p !in picks
    ensures var after := Recorded(windows, DEFAULT_WINDOW_SIZE, ValidatorName(p), c.domain, obs);
            |FlaggedPicks(c, after, picks + [p])| == |FlaggedPicks(c, windows, picks)|
              + if BiasIn(after, ValidatorName(p), c.domain).coefficient >= BIAS_MODERATE_THRESHOLD then 1 else 0
  {
    hide Recorded, BiasIn, ValidatorName, Held, Key, Slide, Coefficient;
    var after := Recorded(windows, DEFAULT_WINDOW_SIZE, ValidatorName(p), c.domain, obs);
    forall q | q in picks ensures WindowOf(c, after, q) == WindowOf(c, windows, q) {
      RecordedAt(windows, DEFAULT_WINDOW_SIZE, Call(ValidatorName(p), c.domain, obs), Key(ValidatorName(q), c.domain));
      KeysDistinct(p, q, c.domain);
    }
    CoefficientIsOfHeld(after, ValidatorName(p), c.domain);
    var now, before := FlaggedPicks(c, after, picks + [p]), FlaggedPicks(c, windows, picks);
    assert p !in before;
    assert now == if Coefficient(WindowOf(c, after, p)) >= BIAS_MODERATE_THRESHOLD then before + {p} else before;
  }

  /** The events of a round are the selected validators that are flagged after it. */
  lemma EventsAreFlags(c: Config, s: Stream, i: nat)
    requires Runs(c, s)
    ensures ResultIn(c, s, i).biasDetectionEvents == |FlaggedIn(c, s, i)|
  {
    hide SimulateRound, PoolOk, Playable, RunRounds, Lawful, Blank, ValidConfig, RecordBias, UpdatedPool, PicksOf,
      VotesOf, PopulationAverage, Pick, AllEvolved, Decide, Coefficient, WindowOf;
    NextState(c, s, i);
    var st := StateAfter(c, s, i);
    RoundEvents(c, s, st, i);
    assert FlaggedIn(c, s, i) == FlaggedPicks(c, StateAfter(c, s, i + 1).windows, PicksOf(c, s, st));
  }

  lemma RoundEvents(c: Config, s: Stream, st: State, round: nat)
    requires ValidConfig(c) && !Blank(c.domain) && Playable(c, s, st) && PoolOk(c, st.pool)
    ensures var r := SimulateRound(c, s, st, round);
            && r.Success?
            && r.value.1.biasDetectionEvents == |FlaggedPicks(c, r.value.0.windows, PicksOf(c, s, st))|
  {
    hide PoolOk, Playable, Lawful, Blank, RecordBias, UpdatedPool, PicksOf, VotesOf, PopulationAverage, Pick,
      AllEvolved, Decide, Coefficient, WindowOf, FlaggedPicks, VotesAndNext;
    RoundSucceeds(c, s, st, round);
    RoundUpdates(c, s, st);
    RoundWindows(c, s, st, round);
    DistinctPicks(c, s, st);
    var picks, votes, pool := PicksOf(c, s, st), VotesOf(c, s, st), UpdatedPool(c, s, st).value;
    NamesAtPicks(c, pool, picks);
    EventsOfPicks(c, st.windows, Pick(pool, picks), picks, votes, PopulationAverage(votes), round);
  }

  // ----- counting rounds -----

  ghost function RoundsEnding(c: Config, s: Stream, n: nat, v: Verdict): set<nat>
    requires Runs(c, s)
  {
    set i: nat | i < n && EndsWith(c, s, i, v)
  }

  ghost function RoundsRight(c: Config, s: Stream, n: nat): set<nat>
    requires Runs(c, s)
  {
    set i: nat | i < n && EndsRight(c, s, i)
  }

  ghost function RoundsFlagging(c: Config, s: Stream, n: nat): set<nat>
    requires Runs(c, s)
  {
    set i: nat | i < n && Flags(c, s, i)
  }

  lemma EndingGrows(c: Config, s: Stream, n: nat, v: Verdict)
    requires Runs(c, s)
    ensures |RoundsEnding(c, s, n + 1, v)| == |RoundsEnding(c, s, n, v)| + if EndsWith(c, s, n, v) then 1 else 0
  {
    hide Runs, EndsWith;
    var now, before := RoundsEnding(c, s, n + 1, v), RoundsEnding(c, s, n, v);
    assert now == if EndsWith(c, s, n, v) then before + {n} else before;
  }

  lemma RightGrows(c: Config, s: Stream, n: nat)
    requires Runs(c, s)
    ensures |RoundsRight(c, s, n + 1)| == |RoundsRight(c, s, n)| + if EndsRight(c, s, n) then 1 else 0
  {
    hide Runs, EndsRight;
    var now, before := RoundsRight(c, s, n + 1), RoundsRight(c, s, n);
    assert now == if EndsRight(c, s, n) then before + {n} else before;
  }

  lemma FlaggingGrows(c: Config, s: Stream, n: nat)
    requires Runs(c, s)
    ensures |RoundsFlagging(c, s, n + 1)| == |RoundsFlagging(c, s, n)| + if Flags(c, s, n) then 1 else 0
  {
    hide Runs, Flags;
    var now, before := RoundsFlagging(c, s, n + 1), RoundsFlagging(c, s, n);
    assert now == if Flags(c, s, n) then before + {n} else before;
  }

  /** The counts of the report, each as a number of rounds. */
  ghost predicate Counts(c: Config, s: Stream, n: nat, r: Report)
    requires Runs(c, s)
  {
    && r.totalRounds == n
    && (forall v :: CountOf(r.verdictDistribution, v) == |RoundsEnding(c, s, n, v)|)
    && r.indeterminateRounds == |RoundsEnding(c, s, n, Indeterminate)|
    && r.correctRounds == |RoundsRight(c, s, n)|
  }

  lemma {:induction false} RunningCounts(c: Config, s: Stream, n: nat)
    requires Runs(c, s)
    ensures RunRounds(c, s, n).Success?
    ensures Counts(c, s, n, ReportAfter(c, s, n))
    ensures ReportAfter(c, s, n).biasDetectionRate == |RoundsFlagging(c, s, n)| as real
  {
    hide PoolOk, ReportOk, SimulateRound, Playable, Lawful, ValidConfig, Blank, RoundsEnding, RoundsRight,
      RoundsFlagging, InitialState, EndsWith, EndsRight, Flags, Accumulate;
    EveryRunProceeds(c, s, n);
    if n == 0 {
      NoRounds(c, s);
    } else {
      RunningCounts(c, s, n - 1);
      NextState(c, s, n - 1);
      CountsGrow(c, s, n - 1, ReportAfter(c, s, n - 1));
    }
  }

  lemma NoRounds(c: Config, s: Stream)
    requires Runs(c, s)
    ensures Counts(c, s, 0, EMPTY_REPORT) && |RoundsFlagging(c, s, 0)| == 0
  {
    hide Runs, EndsWith, EndsRight, Flags;
    forall v ensures RoundsEnding(c, s, 0, v) == {} {
    }
    assert RoundsRight(c, s, 0) == {} == RoundsFlagging(c, s, 0);
  }

  lemma CountsGrow(c: Config, s: Stream, n: nat, r: Report)
    requires Runs(c, s) && Counts(c, s, n, r) && r.biasDetectionRate == |RoundsFlagging(c, s, n)| as real
    ensures var after := Accumulate(r, ResultIn(c, s, n));
            Counts(c, s, n + 1, after) && after.biasDetectionRate == |RoundsFlagging(c, s, n + 1)| as real
  {
    hide Runs, RoundsEnding, RoundsRight, RoundsFlagging, ResultIn, TruthIn, FlaggedIn, CountOf;
    RightGrows(c, s, n);
    FlaggingGrows(c, s, n);
    EventsAreFlags(c, s, n);
    RightIsCorrect(c, s, n);
    EndingGrows(c, s, n, Indeterminate);
    var result := ResultIn(c, s, n);
    forall v ensures CountOf(Accumulate(r, result).verdictDistribution, v) == |RoundsEnding(c, s, n + 1, v)| {
      EndingGrows(c, s, n, v);
      CountGrows(r.verdictDistribution, result.consensusVerdict, v);
    }
  }

  lemma CountGrows(d: map<Verdict, nat>, w: Verdict, v: Verdict)
    ensures CountOf(d[w := CountOf(d, w) + 1], v) == CountOf(d, v) + if v == w then 1 else 0
  {
  }

  lemma RightIsCorrect(c: Config, s: Stream, n: nat)
    requires Runs(c, s)
    ensures ResultIn(c, s, n).correct <==> ResultIn(c, s, n).consensusVerdict == TruthIn(c, s, n)
  {
    hide SimulateRound, PoolOk, Playable, RunRounds, Lawful, Blank, AllEvolved, Decide, TruthOf;
    NextState(c, s, n);
    RoundSucceeds(c, s, StateAfter(c, s, n), n);
  }

  // ----- the finished report -----

  /** What a finished report says: each count is a number of rounds, each rate times what it is
      taken over is a count, and the accuracy is 0 if no round is decided. */
  ghost predicate Describes(c: Config, s: Stream, r: Report)
    requires Runs(c, s)
  {
    var n := c.rounds;
    && n >= 0
    && Counts(c, s, n, r)
    && (r.indeterminateRounds < n ==>
         Times(r.verdictAccuracy, (n - r.indeterminateRounds) as real) == r.correctRounds as real)
    && (r.indeterminateRounds == n ==> r.verdictAccuracy == 0.0)
    && Times(r.indeterminateRate, n as real) == r.indeterminateRounds as real
    && r.meanParticipationRate == 1.0
    && Times(r.biasDetectionRate, n as real) == |RoundsFlagging(c, s, n)| as real
    && r.biasedValidatorsDetected == |FlaggedSet(c, s, n)|
    && RunRounds(c, s, n).Success?
    && Times(r.reputationConvergence, c.validatorPoolSize as real) == Sum(ScoreIn(c.domain), StateAfter(c, s, n).pool)
  }

  /** The report of every run is what its rounds and its final pool say. */
  lemma ReportDescribes(c: Config, s: Stream)
    requires Runs(c, s)
    ensures RunSpec(c, s).Success? && Describes(c, s, RunSpec(c, s).value)
  {
    hide RunRounds, Finalise, PoolOk, Playable, Lawful, Blank, Sum, ScoreIn, BiasIn, Counts, RoundsFlagging,
      FlaggedSet, ReportFinal, ReportOk;
    RoundsNat(c);
    EveryRunProceeds(c, s, c.rounds);
    RunningCounts(c, s, c.rounds);
    ReportCountsLast(c, s);
    var st, r := StateAfter(c, s, c.rounds), ReportAfter(c, s, c.rounds);
    ReportStarts(r, c.rounds);
    PoolIsNonEmpty(c, st.pool);
    FinaliseIs(r, st.pool, st.windows, c.domain);
    CountsKept(c, s, r, Finalise(r, st.pool, st.windows, c.domain));
    hide Times;
  }

  lemma CountsKept(c: Config, s: Stream, r: Report, f: Report)
    requires Runs(c, s) && Counts(c, s, c.rounds, r)
    requires f.totalRounds == r.totalRounds && f.verdictDistribution == r.verdictDistribution
    requires f.indeterminateRounds == r.indeterminateRounds && f.correctRounds == r.correctRounds
    ensures Counts(c, s, c.rounds, f)
  {
    hide Runs, RoundsEnding, RoundsRight;
  }

  lemma ReportStarts(r: Report, n: nat)
    requires ReportOk(r, n)
    ensures r.totalRounds == n && r.meanParticipationRate == n as real
    ensures r.verdictAccuracy == 0.0 && r.indeterminateRounds <= n
  {
  }
}
