/** Sliding windows of observations and the tracker that keys them (core/bias/bias.go),
    over exact reals. */
module Bias {
  import opened Reals
  import opened Sums
  import opened Text
  import opened Verdicts
  import opened Wrappers

  const BIAS_EXCLUSION_THRESHOLD: real := 0.70
  const BIAS_HIGH_THRESHOLD: real := 0.50
  const BIAS_MODERATE_THRESHOLD: real := 0.30
  const DEFAULT_WINDOW_SIZE: int := 50
  const MIN_OBSERVATIONS_FOR_BIAS: int := 5

  datatype ResponseTier = Negligible | Moderate | High | Severe

  datatype Observation = Observation(claimId: string, verdict: Verdict, populationAverageScore: real)

  datatype BiasResult = BiasResult(
    validatorId: string,
    domain: string,
    coefficient: real,
    tier: ResponseTier,
    correctionFactor: real,
    observationCount: nat)

  datatype BiasError =
    | ValidatorIdEmpty
    | DomainEmpty
    | ClaimIdEmpty
    | InvalidVerdictString
    | AverageOutOfRange
    | InvalidWindowSize

  function ValidateObservation(obs: Observation): Option<BiasError> {
    if Blank(obs.claimId) then Some(ClaimIdEmpty)
    else if obs.verdict.Unrecognised? then Some(InvalidVerdictString)
    else if obs.populationAverageScore < 0.0 || obs.populationAverageScore > 1.0 then Some(AverageOutOfRange)
    else None
  }

  predicate ValidObservation(obs: Observation) {
    ValidateObservation(obs).None?
  }

  // ----- the coefficient -----

  function Deviation(obs: Observation): real {
    var d := SupportScore(obs.verdict) - obs.populationAverageScore;
    if d < 0.0 then -d else d
  }

  /** The mean deviation, or 0 while there are too few observations to judge. */
  function Coefficient(entries: seq<Observation>): real {
    if |entries| < MIN_OBSERVATIONS_FOR_BIAS then 0.0 else MeanDeviation(entries)
  }

  function MeanDeviation(entries: seq<Observation>): real
    requires entries != []
  {
    Sum(Deviation, entries) / |entries| as real
  }

  function ClassifyTier(coefficient: real): ResponseTier {
    if coefficient >= BIAS_EXCLUSION_THRESHOLD then Severe
    else if coefficient >= BIAS_HIGH_THRESHOLD then High
    else if coefficient >= BIAS_MODERATE_THRESHOLD then Moderate
    else Negligible
  }

  function BiasOf(validatorId: string, domain: string, entries: seq<Observation>): BiasResult {
    var c := Coefficient(entries);
    BiasResult(validatorId, domain, c, ClassifyTier(c), 1.0 - c, |entries|)
  }

  predicate IsEligibleForDomain(result: BiasResult) {
    result.coefficient < BIAS_HIGH_THRESHOLD
  }

  /** The mean of deviations between 0 and 1 is between 0 and 1. */
  lemma MeanInUnit(entries: seq<Observation>)
    requires entries != [] && forall obs | obs in entries :: ValidObservation(obs)
    ensures 0.0 <= MeanDeviation(entries) <= 1.0
  {
    SumOfUnits(Deviation, entries);
    QuotientAtLeast(Sum(Deviation, entries), |entries| as real, 0.0);
    QuotientAtMost(Sum(Deviation, entries), |entries| as real, 1.0);
  }

  // ----- one window -----

  /** What a full or growing window holds after one more accepted observation. */
  function Slide(entries: seq<Observation>, maxSize: nat, obs: Observation): seq<Observation> {
    (if |entries| >= maxSize && entries != [] then entries[1..] else entries) + [obs]
  }

  class Window {
    const validatorId: string
    const domain: string
    const maxSize: nat
    var entries: seq<Observation>

    ghost predicate Valid()
      reads this
    {
      && maxSize >= MIN_OBSERVATIONS_FOR_BIAS
      && |entries| <= maxSize
      && forall obs | obs in entries :: ValidObservation(obs)
    }

    constructor (validatorId: string, domain: string, maxSize: nat)
      requires maxSize >= MIN_OBSERVATIONS_FOR_BIAS
      ensures Valid() && entries == []
      ensures this.validatorId == validatorId && this.domain == domain && this.maxSize == maxSize
    {
      this.validatorId, this.domain, this.maxSize := validatorId, domain, maxSize;
      entries := [];
    }

    /** Appends a valid observation and evicts the oldest one from a full window. */
    method Add(obs: Observation) returns (error: Option<BiasError>)
      requires Valid()
      modifies this
      ensures Valid()
      ensures error == ValidateObservation(obs)
      ensures entries == if error.None? then Slide(old(entries), maxSize, obs) else old(entries)
    {
      error := ValidateObservation(obs);
      if error.Some? {
        return;
      }
      if |entries| >= maxSize {
        entries := entries[1..];
      }
      entries := entries + [obs];
    }

    /** Neither clamp ever changes the mean. */
    method ComputeBias() returns (r: BiasResult)
      requires Valid()
      ensures r == BiasOf(validatorId, domain, entries)
    {
      if |entries| < MIN_OBSERVATIONS_FOR_BIAS {
        return BiasResult(validatorId, domain, 0.0, Negligible, 1.0, |entries|);
      }
      var totalDeviation := 0.0;
      for i := 0 to |entries|
        invariant totalDeviation == Sum(Deviation, entries[..i])
      {
        SumPrefix(Deviation, entries, i);
        var deviation := SupportScore(entries[i].verdict) - entries[i].populationAverageScore;
        if deviation < 0.0 {
          deviation := -deviation;
        }
        totalDeviation := totalDeviation + deviation;
      }
      assert entries[..|entries|] == entries;
      var coefficient := totalDeviation / |entries| as real;
      ghost var unclamped := coefficient;
      if coefficient > 1.0 {
        coefficient := 1.0;
      }
      if coefficient < 0.0 {
        coefficient := 0.0;
      }
      MeanInUnit(entries);
      assert coefficient == unclamped;
      r := BiasResult(validatorId, domain, coefficient, ClassifyTier(coefficient), 1.0 - coefficient, |entries|);
    }
  }

  method NewWindow(validatorId: string, domain: string, size: int) returns (r: Result<Window, BiasError>)
    ensures r == Failure(ValidatorIdEmpty) <==> Blank(validatorId)
    ensures r == Failure(DomainEmpty) <==> !Blank(validatorId) && Blank(domain)
    ensures r == Failure(InvalidWindowSize) <==>
              !Blank(validatorId) && !Blank(domain) && size < MIN_OBSERVATIONS_FOR_BIAS && size != 0
    ensures r.Success? ==>
              && fresh(r.value) && r.value.Valid() && r.value.entries == []
              && r.value.validatorId == TrimSpace(validatorId) && r.value.domain == Normalize(domain)
              && r.value.maxSize == if size == 0 then 50 else size
    ensures r.Failure? ==> r.error in {ValidatorIdEmpty, DomainEmpty, InvalidWindowSize}
  {
    if Blank(validatorId) {
      return Failure(ValidatorIdEmpty);
    }
    if Blank(domain) {
      return Failure(DomainEmpty);
    }
    var maxSize := size;
    if maxSize == 0 {
      maxSize := DEFAULT_WINDOW_SIZE;
    }
    if maxSize < MIN_OBSERVATIONS_FOR_BIAS {
      return Failure(InvalidWindowSize);
    }
    var w := new Window(TrimSpace(validatorId), Normalize(domain), maxSize);
    r := Success(w);
  }

  // ----- all windows -----

  /** The state of one window as a value. */
  datatype WindowView = WindowView(validatorId: string, domain: string, entries: seq<Observation>)

  type Windows = map<string, WindowView>

  /** One key for a validator and a domain; the separator is not escaped. */
  function Key(validatorId: string, domain: string): string {
    TrimSpace(validatorId) + ":" + Normalize(domain)
  }

  function RecordError(validatorId: string, domain: string, obs: Observation): Option<BiasError> {
    if Blank(validatorId) then Some(ValidatorIdEmpty)
    else if Blank(domain) then Some(DomainEmpty)
    else ValidateObservation(obs)
  }

  /** The windows after one call of Record. An observation that is refused for its own
      sake still leaves an empty window behind. */
  function Recorded(windows: Windows, windowSize: nat, validatorId: string, domain: string, obs: Observation): Windows {
    var key := Key(validatorId, domain);
    if Blank(validatorId) || Blank(domain) then
      windows
    else
      var all := Opened(windows, key, TrimSpace(validatorId), Normalize(domain));
      var view := all[key];
      if ValidObservation(obs) then
        all[key := view.(entries := Slide(view.entries, windowSize, obs))]
      else
        all
  }

  function Opened(windows: Windows, key: string, validatorId: string, domain: string): Windows {
    if key in windows then windows else windows[key := WindowView(validatorId, domain, [])]
  }

  function BiasIn(windows: Windows, validatorId: string, domain: string): BiasResult {
    var key := Key(validatorId, domain);
    if key in windows then
      BiasOf(windows[key].validatorId, windows[key].domain, windows[key].entries)
    else
      BiasOf(TrimSpace(validatorId), Normalize(domain), [])
  }

  class Tracker {
    const windowSize: nat
    var windows: map<string, Window>
    ghost var Repr: set<object>

    /** Each key has its own window, and every window is valid. */
    ghost predicate Valid()
      reads this, Repr
    {
      && this in Repr
      && windowSize >= MIN_OBSERVATIONS_FOR_BIAS
      && (forall k | k in windows :: windows[k] in Repr && windows[k].Valid() && windows[k].maxSize == windowSize)
      && (forall j, k | j in windows && k in windows && j != k :: windows[j] != windows[k])
    }

    ghost function View(): Windows
      reads this, Repr
      requires Valid()
    {
      map k | k in windows :: WindowView(windows[k].validatorId, windows[k].domain, windows[k].entries)
    }

    constructor (windowSize: nat)
      requires windowSize >= MIN_OBSERVATIONS_FOR_BIAS
      ensures Valid() && fresh(Repr) && View() == map[] && this.windowSize == windowSize
    {
      this.windowSize := windowSize;
      windows := map[];
      Repr := {this};
    }

    /** Creates the window of a key that has none yet. */
    method OpenWindow(key: string, id: string, d: string)
      requires Valid()
      requires TrimSpace(id) == id != "" && Normalize(d) == d != ""
      modifies this
      ensures Valid() && fresh(Repr - old(Repr))
      ensures key in windows && View() == Opened(old(View()), key, id, d)
    {
      NormalizeIsIdempotent(d);
      hide TrimSpace, Normalize;
      if key !in windows {
        var created := NewWindow(id, d, windowSize);
        windows := windows[key := created.value];
        Repr := Repr + {created.value};
      }
    }

    method AddTo(key: string, obs: Observation) returns (error: Option<BiasError>)
      requires Valid() && key in windows
      modifies windows[key]
      ensures Valid() && error == ValidateObservation(obs)
      ensures View() == if ValidObservation(obs) then
                          var view := old(View())[key];
                          old(View())[key := view.(entries := Slide(view.entries, windowSize, obs))]
                        else old(View())
    {
      var window := windows[key];
      error := window.Add(obs);
      hide ValidateObservation, Slide;
      assert View() == old(View())[key := WindowView(window.validatorId, window.domain, window.entries)];
    }

    method Record(validatorId: string, domain: string, obs: Observation) returns (error: Option<BiasError>)
      requires Valid()
      modifies Repr
      ensures Valid() && fresh(Repr - old(Repr))
      ensures error == RecordError(validatorId, domain, obs)
      ensures View() == Recorded(old(View()), windowSize, validatorId, domain, obs)
    {
      var id, d := TrimSpace(validatorId), Normalize(domain);
      NormalizeIsIdempotent(domain);
      if id == "" {
        return Some(ValidatorIdEmpty);
      }
      if d == "" {
        return Some(DomainEmpty);
      }
      var key := id + ":" + d;
      OpenWindow(key, id, d);
      error := AddTo(key, obs);
    }

    method BiasFor(validatorId: string, domain: string) returns (r: BiasResult)
      requires Valid()
      ensures r == BiasIn(View(), validatorId, domain)
    {
      var id, d := TrimSpace(validatorId), Normalize(domain);
      var key := id + ":" + d;
      if key !in windows {
        return BiasResult(id, d, 0.0, Negligible, 1.0, 0);
      }
      r := windows[key].ComputeBias();
    }

    method ObservationCount(validatorId: string, domain: string) returns (n: nat)
      requires Valid()
      ensures n == BiasIn(View(), validatorId, domain).observationCount
    {
      var key := TrimSpace(validatorId) + ":" + Normalize(domain);
      if key !in windows {
        return 0;
      }
      n := |windows[key].entries|;
    }
  }

  method NewTracker(windowSize: int) returns (r: Result<Tracker, BiasError>)
    ensures r.Failure? <==> windowSize != 0 && windowSize < 5
    ensures r.Failure? ==> r.error == InvalidWindowSize
    ensures r.Success? ==>
              && r.value.Valid() && fresh(r.value.Repr) && r.value.View() == map[]
              && r.value.windowSize == (if windowSize == 0 then DEFAULT_WINDOW_SIZE else windowSize)
              && (windowSize == 0 ==> r.value.windowSize == 50)
  {
    var size := windowSize;
    if size == 0 {
      size := DEFAULT_WINDOW_SIZE;
    }
    if size < MIN_OBSERVATIONS_FOR_BIAS {
      return Failure(InvalidWindowSize);
    }
    var t := new Tracker(size);
    r := Success(t);
  }
}
