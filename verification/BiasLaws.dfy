/** What a tracker's answer means after any history of calls, and how fast it can move. */
module BiasLaws {
  import opened Bias
  import opened Reals
  import opened Sums
  import opened Text
  import opened Verdicts

  // ----- the tracker refines the list of accepted observations -----

  datatype Call = Call(validatorId: string, domain: string, obs: Observation)

  /** The windows of a fresh tracker after these calls of Record. */
  function Replay(calls: seq<Call>, size: nat): Windows {
    if calls == [] then
      map[]
    else
      var c := calls[|calls| - 1];
      Recorded(Replay(calls[..|calls| - 1], size), size, c.validatorId, c.domain, c.obs)
  }

  predicate Accepted(c: Call) {
    RecordError(c.validatorId, c.domain, c.obs).None?
  }

  function LastN<T>(xs: seq<T>, n: nat): seq<T> {
    if |xs| <= n then xs else xs[|xs| - n..]
  }

  /** The observations accepted under one key, oldest first. */
  function AcceptedUnder(calls: seq<Call>, key: string): seq<Observation> {
    if calls == [] then
      []
    else
      var c := calls[|calls| - 1];
      AcceptedUnder(calls[..|calls| - 1], key) +
      if Accepted(c) && Key(c.validatorId, c.domain) == key then [c.obs] else []
  }

  predicate SamePair(c: Call, validatorId: string, domain: string) {
    TrimSpace(c.validatorId) == TrimSpace(validatorId) && Normalize(c.domain) == Normalize(domain)
  }

  /** The observations accepted for one validator in one domain, oldest first. */
  function AcceptedFor(calls: seq<Call>, validatorId: string, domain: string): seq<Observation> {
    if calls == [] then
      []
    else
      var c := calls[|calls| - 1];
      AcceptedFor(calls[..|calls| - 1], validatorId, domain) +
      if Accepted(c) && SamePair(c, validatorId, domain) then [c.obs] else []
  }

  lemma SlideKeepsLast(xs: seq<Observation>, n: nat, x: Observation)
    requires n > 0
    ensures Slide(LastN(xs, n), n, x) == LastN(xs + [x], n)
  {
  }

  function Held(windows: Windows, key: string): seq<Observation> {
    if key in windows then windows[key].entries else []
  }

  /** A call of Record changes the entries of its own key only, and only if accepted. */
  lemma RecordedAt(windows: Windows, size: nat, c: Call, key: string)
    ensures Held(Recorded(windows, size, c.validatorId, c.domain, c.obs), key) ==
            if Accepted(c) && Key(c.validatorId, c.domain) == key then Slide(Held(windows, key), size, c.obs)
            else Held(windows, key)
  {
    hide TrimSpace, Normalize, ValidateObservation, Slide;
  }

  /** Each window holds the last `size` observations accepted under its key. */
  lemma {:induction false} WindowHoldsLastAccepted(calls: seq<Call>, size: nat, key: string)
    requires size > 0
    ensures var windows := Replay(calls, size);
            Held(windows, key) == LastN(AcceptedUnder(calls, key), size)
  {
    NothingHeld(size, key);
    hide Held, Key, Accepted, Recorded, Slide, LastN;
    if calls != [] {
      var m := |calls| - 1;
      var before := AcceptedUnder(calls[..m], key);
      WindowHoldsLastAccepted(calls[..m], size, key);
      RecordedAt(Replay(calls[..m], size), size, calls[m], key);
      SlideKeepsLast(before, size, calls[m].obs);
      assert before + [] == before;
    }
  }

  lemma NothingHeld(size: nat, key: string)
    ensures Held(map[], key) == [] == LastN<Observation>([], size)
  {
  }

  /** Each window carries the names that one of the calls gave for its key. */
  lemma {:induction false} WindowIsNamed(calls: seq<Call>, size: nat, key: string)
    requires key in Replay(calls, size)
    ensures var w := Replay(calls, size)[key];
            exists c :: c in calls && Key(c.validatorId, c.domain) == key
                        && TrimSpace(c.validatorId) == w.validatorId && Normalize(c.domain) == w.domain
  {
    hide TrimSpace, Normalize, ValidateObservation, Slide;
    var m := |calls| - 1;
    assert calls[m] in calls;
    if key in Replay(calls[..m], size) {
      WindowIsNamed(calls[..m], size, key);
    }
  }

  // ----- keys -----

  /** Validator IDs without a colon keep the pairs apart, whatever the domains contain. */
  lemma KeySeparatesPairs(v: string, d: string, v': string, d': string)
    requires ':' !in TrimSpace(v) && ':' !in TrimSpace(v')
    ensures Key(v, d) == Key(v', d') <==> TrimSpace(v) == TrimSpace(v') && Normalize(d) == Normalize(d')
  {
    if Key(v, d) == Key(v', d') {
      SplitAtColon(TrimSpace(v), Normalize(d), TrimSpace(v'), Normalize(d'));
    }
  }

  lemma SplitAtColon(a: string, b: string, a': string, b': string)
    requires ':' !in a && ':' !in a' && a + ":" + b == a' + ":" + b'
    ensures a == a' && b == b'
  {
    var s := a + ":" + b;
    assert s[|a|] == ':' && s[|a'|] == ':';
    assert forall i | 0 <= i < |a| :: s[i] == a[i];
    assert forall i | 0 <= i < |a'| :: s[i] == a'[i];
    assert |a| == |a'|;
    assert a == s[..|a|] == a';
    assert b == s[|a| + 1..] == b';
  }

  /** With a colon in a validator ID two pairs can share one window. */
  lemma ColonsShareWindow()
    ensures Key("a:b", "c") == Key("a", "b:c")
  {
    assert TrimSpace("a:b") == "a:b" && TrimSpace("a") == "a" && TrimSpace("c") == "c" && TrimSpace("b:c") == "b:c";
    assert Normalize("c") == "c" && Normalize("b:c") == "b:c";
  }

  /** So after one call for each, the answer for one pair is computed from the observations of
      both, and under the names of the other. */
  lemma ColonsMixAnswers(first: Observation, second: Observation, size: nat)
    requires size >= 2 && ValidObservation(first) && ValidObservation(second)
    ensures var calls := [Call("a:b", "c", first), Call("a", "b:c", second)];
            && AcceptedFor(calls, "a", "b:c") == [second]
            && BiasIn(Replay(calls, size), "a", "b:c") == BiasOf("a:b", "c", [first, second])
  {
    NamesAreNormal();
    hide TrimSpace, Normalize, ValidateObservation, BiasOf;
    var one, two := Call("a:b", "c", first), Call("a", "b:c", second);
    assert [one, two][..1] == [one] && [one][..0] == [];
    assert Accepted(one) && Accepted(two);
    assert AcceptedFor([one], "a", "b:c") == [];
    ColonsShareWindow();
    var key := Key("a", "b:c");
    var once := Recorded(map[], size, "a:b", "c", first);
    assert Replay([], size) == map[];
    assert Replay([one], size) == once;
    RecordedInto(map[], size, one, [], key);
    RecordedInto(once, size, two, [first], key);
    assert [first] + [second] == [first, second];
    hide Recorded, Key, Accepted;
  }

  /** Recording under a key keeps the names its window was opened with. */
  lemma RecordedInto(windows: Windows, size: nat, c: Call, held: seq<Observation>, key: string)
    requires Accepted(c) && Key(c.validatorId, c.domain) == key && |held| < size && Held(windows, key) == held
    ensures var after := Recorded(windows, size, c.validatorId, c.domain, c.obs);
            && key in after && after[key].entries == held + [c.obs]
            && (key in windows ==>
                 && after[key].validatorId == windows[key].validatorId
                 && after[key].domain == windows[key].domain)
            && (key !in windows ==>
                 && after[key].validatorId == TrimSpace(c.validatorId)
                 && after[key].domain == Normalize(c.domain))
  {
    hide TrimSpace, Normalize, ValidateObservation, Key;
  }

  lemma NamesAreNormal()
    ensures TrimSpace("a:b") == "a:b" && TrimSpace("a") == "a" && Normalize("c") == "c" && Normalize("b:c") == "b:c"
    ensures !Blank("a:b") && !Blank("a") && !Blank("c") && !Blank("b:c")
  {
    assert TrimSpace("c") == "c" && TrimSpace("b:c") == "b:c";
  }

  /** Two pairs can share a window only if a validator ID and a domain both hold a colon. */
  lemma SharedKeyNeedsColons(v: string, d: string, v': string, d': string)
    requires Key(v, d) == Key(v', d')
    ensures (TrimSpace(v) == TrimSpace(v') && Normalize(d) == Normalize(d'))
            || ((':' in TrimSpace(v) || ':' in TrimSpace(v')) && (':' in Normalize(d) || ':' in Normalize(d')))
  {
    var a, b, a', b' := TrimSpace(v), Normalize(d), TrimSpace(v'), Normalize(d');
    hide TrimSpace, Normalize;
    if ':' !in a && ':' !in a' {
      SplitAtColon(a, b, a', b');
    } else if ':' !in b && ':' !in b' {
      SplitAtLastColon(a, b, a', b');
    }
  }

  lemma SplitAtLastColon(a: string, b: string, a': string, b': string)
    requires ':' !in b && ':' !in b' && a + ":" + b == a' + ":" + b'
    ensures a == a' && b == b'
  {
    var s := a + ":" + b;
    assert s[|a|] == ':' && s[|a'|] == ':';
    assert forall i | |a| < i < |s| :: s[i] == b[i - |a| - 1];
    assert forall i | |a'| < i < |s| :: s[i] == b'[i - |a'| - 1];
    assert |a| == |a'|;
    assert a == s[..|a|] == a';
    assert b == s[|a| + 1..] == b';
  }

  /** Exactly when a pair has its window to itself: no accepted call for another pair came
      under the same key. */
  lemma {:induction false} OwnWindowExactly(calls: seq<Call>, v: string, d: string)
    ensures |AcceptedFor(calls, v, d)| <= |AcceptedUnder(calls, Key(v, d))|
    ensures AcceptedUnder(calls, Key(v, d)) == AcceptedFor(calls, v, d) <==>
            forall c | c in calls && Accepted(c) && Key(c.validatorId, c.domain) == Key(v, d) :: SamePair(c, v, d)
  {
    hide Key, SamePair, Accepted;
    if calls != [] {
      var m := |calls| - 1;
      var c := calls[m];
      OwnWindowExactly(calls[..m], v, d);
      assert forall x :: x in calls <==> x in calls[..m] || x == c;
      SamePairSharesKey(c, v, d);
      SnocCancels(AcceptedUnder(calls[..m], Key(v, d)), AcceptedFor(calls[..m], v, d), c.obs);
    }
  }

  lemma SamePairSharesKey(c: Call, v: string, d: string)
    ensures SamePair(c, v, d) ==> Key(c.validatorId, c.domain) == Key(v, d)
  {
  }

  lemma SnocCancels<T>(xs: seq<T>, ys: seq<T>, z: T)
    ensures xs + [] == xs && ys + [] == ys
    ensures xs + [z] == ys + [z] <==> xs == ys
  {
    if xs + [z] == ys + [z] {
      assert xs == (xs + [z])[..|xs|] && ys == (ys + [z])[..|ys|];
    }
  }

  /** No call for another pair came under the key of this one. */
  predicate Separate(calls: seq<Call>, v: string, d: string) {
    forall c | c in calls && Key(c.validatorId, c.domain) == Key(v, d) :: SamePair(c, v, d)
  }

  /** It is enough that no validator ID, or no domain, holds a colon. */
  lemma ColonFreeCallsSeparate(calls: seq<Call>, v: string, d: string)
    requires || (':' !in TrimSpace(v) && forall c | c in calls :: ':' !in TrimSpace(c.validatorId))
             || (':' !in Normalize(d) && forall c | c in calls :: ':' !in Normalize(c.domain))
    ensures Separate(calls, v, d)
  {
    forall c | c in calls && Key(c.validatorId, c.domain) == Key(v, d) ensures SamePair(c, v, d) {
      SharedKeyNeedsColons(c.validatorId, c.domain, v, d);
    }
    hide TrimSpace, Normalize;
  }

  /** After any interleaving of accepted and refused calls, the answer for a validator and
      a domain is computed from exactly the last `size` observations accepted for that pair. */
  lemma BiasIsOfLastAccepted(calls: seq<Call>, size: nat, v: string, d: string)
    requires size > 0 && Separate(calls, v, d)
    ensures BiasIn(Replay(calls, size), v, d) ==
            BiasOf(TrimSpace(v), Normalize(d), LastN(AcceptedFor(calls, v, d), size))
  {
    hide BiasOf, Normalize, TrimSpace, RecordError, LastN, Recorded;
    var key := Key(v, d);
    WindowHoldsLastAccepted(calls, size, key);
    OwnWindowExactly(calls, v, d);
    if key in Replay(calls, size) {
      WindowIsNamed(calls, size, key);
    }
  }

  // ----- the coefficient -----

  /** Excluded from a domain's pools exactly at the tiers HIGH and SEVERE. */
  lemma EligibleByTier(validatorId: string, domain: string, entries: seq<Observation>)
    ensures var r := BiasOf(validatorId, domain, entries);
            IsEligibleForDomain(r) <==> r.tier in {Negligible, Moderate}
  {
    hide Coefficient;
  }

  lemma DeviationInUnit(obs: Observation)
    requires ValidObservation(obs)
    ensures 0.0 <= Deviation(obs) <= 1.0
  {
  }

  /** Sum of a window after one more observation. */
  lemma SlideSum(entries: seq<Observation>, maxSize: nat, obs: Observation)
    requires entries != []
    ensures Sum(Deviation, Slide(entries, maxSize, obs)) ==
            Sum(Deviation, entries) + Deviation(obs) - if |entries| >= maxSize then Deviation(entries[0]) else 0.0
  {
    hide Sum, Deviation;
    if |entries| >= maxSize {
      var rest := entries[1..];
      assert entries[..0] + rest == rest;
      SumRemove(Deviation, entries, 0);
      SumSnoc(Deviation, rest, obs);
      assert Slide(entries, maxSize, obs) == rest + [obs];
    } else {
      SumSnoc(Deviation, entries, obs);
      assert Slide(entries, maxSize, obs) == entries + [obs];
    }
  }

  /** One accepted observation moves the coefficient by at most one part in the number of
      observations then held. */
  lemma OneObservationMovesLittle(entries: seq<Observation>, maxSize: nat, obs: Observation)
    requires MIN_OBSERVATIONS_FOR_BIAS <= |entries| <= maxSize
    requires ValidObservation(obs) && forall o | o in entries :: ValidObservation(o)
    ensures var after := Slide(entries, maxSize, obs);
            -1.0 / |after| as real <= Coefficient(after) - Coefficient(entries) <= 1.0 / |after| as real
  {
    var after := Slide(entries, maxSize, obs);
    SlideSum(entries, maxSize, obs);
    MeanInUnit(entries);
    DeviationInUnit(obs);
    DeviationInUnit(entries[0]);
    var s, t := Sum(Deviation, entries), Sum(Deviation, after);
    if |entries| >= maxSize {
      MeanMoves(s, t, |entries| as real);
    } else {
      MeanGrows(s, t, |entries| as real);
    }
    hide Sum, Deviation;
  }

  lemma MeanMoves(s: real, t: real, n: real)
    requires n > 0.0 && -1.0 <= t - s <= 1.0
    ensures -1.0 / n <= t / n - s / n <= 1.0 / n
  {
    assert t / n - s / n == (t - s) / n;
    Divide(-1.0, t - s, n);
    Divide(t - s, 1.0, n);
  }

  lemma Divide(x: real, y: real, n: real)
    requires x <= y && n > 0.0
    ensures x / n <= y / n
  {
    var q := x / n;
    assert q * n == x;
    QuotientAtLeast(y, n, q);
  }

  lemma MeanGrows(s: real, t: real, n: real)
    requires n > 0.0 && 0.0 <= t - s <= 1.0 && 0.0 <= s / n <= 1.0
    ensures -1.0 / (n + 1.0) <= t / (n + 1.0) - s / n <= 1.0 / (n + 1.0)
  {
    var mean := s / n;
    assert s == mean * n;
    var d := t - s - mean;
    assert t == mean * (n + 1.0) + d;
    QuotientOfSum(mean, n + 1.0, d);
    Divide(-1.0, d, n + 1.0);
    Divide(d, 1.0, n + 1.0);
  }

  lemma QuotientOfSum(mean: real, k: real, d: real)
    requires k > 0.0
    ensures (mean * k + d) / k == mean + d / k
  {
  }

  function SlideAll(entries: seq<Observation>, maxSize: nat, more: seq<Observation>): seq<Observation> {
    if more == [] then entries
    else Slide(SlideAll(entries, maxSize, more[..|more| - 1]), maxSize, more[|more| - 1])
  }

  lemma {:induction false} SlideAllReplacesOldest(entries: seq<Observation>, more: seq<Observation>)
    requires |more| <= |entries| && entries != []
    ensures SlideAll(entries, |entries|, more) == entries[|more|..] + more
  {
    if more != [] {
      SlideAllReplacesOldest(entries, more[..|more| - 1]);
    }
  }

  function Fraction(k: nat, n: nat): real
    requires n > 0
  {
    k as real / n as real
  }

  /** A full window recovers linearly: after k conforming observations in a row the
      coefficient is at most 1 - k / size, and after `size` of them it is 0. */
  lemma RecoveryIsLinear(entries: seq<Observation>, more: seq<Observation>)
    requires MIN_OBSERVATIONS_FOR_BIAS <= |entries| && |more| <= |entries|
    requires forall o | o in entries :: ValidObservation(o)
    requires forall o | o in more :: Deviation(o) == 0.0
    ensures var c := Coefficient(SlideAll(entries, |entries|, more));
            && c <= 1.0 - Fraction(|more|, |entries|)
            && (|more| == |entries| ==> c == 0.0)
  {
    hide Sum, MeanDeviation, Deviation, ValidObservation, Fraction;
    var rest := entries[|more|..];
    SlideAllReplacesOldest(entries, more);
    SumConcat(Deviation, rest, more);
    forall o | o in rest ensures 0.0 <= Deviation(o) <= 1.0 {
      DeviationInUnit(o);
    }
    SumOfUnits(Deviation, rest);
    SumOfZeros(Deviation, more);
    MeanAtMost(rest + more, |more|);
  }

  lemma MeanAtMost(xs: seq<Observation>, k: nat)
    requires xs != [] && 0.0 <= Sum(Deviation, xs) <= (|xs| - k) as real
    ensures MeanDeviation(xs) <= 1.0 - Fraction(k, |xs|)
    ensures k == |xs| ==> MeanDeviation(xs) == 0.0
  {
    hide Sum, Deviation, Fraction;
    var sum, n := Sum(Deviation, xs), |xs| as real;
    FractionLeft(k, |xs|);
    QuotientAtMost(sum, n, 1.0 - Fraction(k, |xs|));
    QuotientAtMost(sum, n, 0.0);
    QuotientAtLeast(sum, n, 0.0);
  }

  lemma FractionLeft(k: nat, n: nat)
    requires n > 0
    ensures (1.0 - Fraction(k, n)) * n as real == (n - k) as real
  {
    var q, m := k as real / n as real, n as real;
    assert q * m == k as real;
    assert (1.0 - q) * m == m - q * m;
  }

  // ----- flags -----

  lemma {:induction false} AcceptedUnderConcat(calls: seq<Call>, more: seq<Call>, key: string)
    requires forall c | c in more :: Accepted(c) && Key(c.validatorId, c.domain) == key
    ensures var all := AcceptedUnder(calls + more, key);
            && |all| == |AcceptedUnder(calls, key)| + |more|
            && forall i | 0 <= i < |more| :: all[|AcceptedUnder(calls, key)| + i] == more[i].obs
  {
    hide Key, Accepted;
    if more == [] {
      assert calls + more == calls;
    } else {
      var m := |more| - 1;
      assert (calls + more)[..|calls + more| - 1] == calls + more[..m];
      assert more[m] in more;
      AcceptedUnderConcat(calls, more[..m], key);
    }
  }

  /** Whatever was observed before, `size` conforming observations in a row leave a coefficient
      of 0: a flag raised earlier cannot be seen in the windows any more. */
  lemma FlagIsForgotten(calls: seq<Call>, more: seq<Call>, size: nat, v: string, d: string)
    requires |more| == size >= MIN_OBSERVATIONS_FOR_BIAS
    requires forall c | c in more :: Accepted(c) && SamePair(c, v, d) && Deviation(c.obs) == 0.0
    ensures BiasIn(Replay(calls + more, size), v, d).coefficient == 0.0
  {
    hide Accepted, SamePair, Deviation, Replay, BiasIn, Held, Key, LastN;
    var key := Key(v, d);
    forall c | c in more ensures Key(c.validatorId, c.domain) == key {
      SamePairSharesKey(c, v, d);
    }
    HeldAreMore(calls, more, size, key);
    var held := Held(Replay(calls + more, size), key);
    forall o | o in held ensures Deviation(o) == 0.0 {
      var i :| 0 <= i < size && held[i] == o;
      assert more[i] in more;
    }
    SumOfZeros(Deviation, held);
    BiasOfHeld(Replay(calls + more, size), v, d, held);
  }

  /** The last `size` accepted observations are all that is held. */
  lemma HeldAreMore(calls: seq<Call>, more: seq<Call>, size: nat, key: string)
    requires |more| == size > 0
    requires forall c | c in more :: Accepted(c) && Key(c.validatorId, c.domain) == key
    ensures var held := Held(Replay(calls + more, size), key);
            |held| == size && forall i | 0 <= i < size :: held[i] == more[i].obs
  {
    hide Accepted, Replay, Held, Key, AcceptedUnder;
    AcceptedUnderConcat(calls, more, key);
    WindowHoldsLastAccepted(calls + more, size, key);
  }

  lemma BiasOfHeld(windows: Windows, v: string, d: string, held: seq<Observation>)
    requires held == Held(windows, Key(v, d)) && Sum(Deviation, held) == 0.0
    ensures BiasIn(windows, v, d).coefficient == 0.0
  {
    hide Sum, Deviation, Key, ClassifyTier;
  }

  // ----- what an answer says -----

  /** Each tier is an interval of the coefficient, and the correction factor is what is left
      of 1; with fewer than five observations there is no coefficient yet. */
  lemma AnswerIs(calls: seq<Call>, size: nat, v: string, d: string)
    requires size >= MIN_OBSERVATIONS_FOR_BIAS && Separate(calls, v, d)
    ensures var held := LastN(AcceptedFor(calls, v, d), size);
            var r := BiasIn(Replay(calls, size), v, d);
            && r.validatorId == TrimSpace(v) && r.domain == Normalize(d)
            && r.observationCount == |held|
            && r.correctionFactor + r.coefficient == 1.0
            && 0.0 <= r.correctionFactor <= 1.0
            && (|held| < 5 ==> r.coefficient == 0.0 && r.correctionFactor == 1.0)
            && (|held| >= 5 ==> r.coefficient * |held| as real == Sum(Distance, held))
            && (r.tier == Negligible <==> r.coefficient < 0.3)
            && (r.tier == Moderate <==> 0.3 <= r.coefficient < 0.5)
            && (r.tier == High <==> 0.5 <= r.coefficient < 0.7)
            && (r.tier == Severe <==> 0.7 <= r.coefficient)
  {
    hide Normalize, TrimSpace, Replay, Separate, AcceptedFor, LastN;
    BiasIsOfLastAccepted(calls, size, v, d);
    var held := LastN(AcceptedFor(calls, v, d), size);
    HeldAreValid(calls, size, v, d);
    AnswerFrom(TrimSpace(v), Normalize(d), held);
  }

  lemma AnswerFrom(validatorId: string, domain: string, held: seq<Observation>)
    requires forall o | o in held :: ValidObservation(o)
    ensures var r := BiasOf(validatorId, domain, held);
            && r.validatorId == validatorId && r.domain == domain
            && r.observationCount == |held|
            && r.correctionFactor + r.coefficient == 1.0
            && 0.0 <= r.correctionFactor <= 1.0
            && (|held| < 5 ==> r.coefficient == 0.0)
            && (|held| >= 5 ==> r.coefficient * |held| as real == Sum(Distance, held))
            && (r.tier == Negligible <==> r.coefficient < 0.3)
            && (r.tier == Moderate <==> 0.3 <= r.coefficient < 0.5)
            && (r.tier == High <==> 0.5 <= r.coefficient < 0.7)
            && (r.tier == Severe <==> 0.7 <= r.coefficient)
  {
    hide Sum, Deviation, Distance, ValidObservation;
    if |held| >= 5 {
      MeanInUnit(held);
      forall o | o in held ensures Deviation(o) == Distance(o) {
        DeviationIsDistance(o);
      }
      SumEqual(Deviation, Distance, held);
      var sum, n := Sum(Deviation, held), |held| as real;
      assert (sum / n) * n == sum;
    }
  }

  /** How far a verdict is from the average: supported stands at 1, unsupported at 0, and the
      other two in the middle. */
  function Distance(obs: Observation): real {
    var a := obs.populationAverageScore;
    match obs.verdict
    case Supported => if a <= 1.0 then 1.0 - a else a - 1.0
    case Unsupported => if a >= 0.0 then a else -a
    case Misleading => if a <= 0.5 then 0.5 - a else a - 0.5
    case Indeterminate => if a <= 0.5 then 0.5 - a else a - 0.5
    case Unrecognised(_) => if a >= 0.0 then a else -a
  }

  lemma DeviationIsDistance(obs: Observation)
    ensures Deviation(obs) == Distance(obs)
  {
  }

  lemma {:induction false} SumEqual(f: Observation -> real, g: Observation -> real, xs: seq<Observation>)
    requires forall x | x in xs :: f(x) == g(x)
    ensures Sum(f, xs) == Sum(g, xs)
  {
    if xs != [] {
      var m := |xs| - 1;
      assert xs[m] in xs && forall x | x in xs[..m] :: x in xs;
      SumEqual(f, g, xs[..m]);
    }
  }

  lemma {:induction false} AcceptedAreValid(calls: seq<Call>, v: string, d: string)
    ensures forall o | o in AcceptedFor(calls, v, d) :: ValidObservation(o)
  {
    hide TrimSpace, Normalize, ValidateObservation;
    if calls != [] {
      AcceptedAreValid(calls[..|calls| - 1], v, d);
    }
  }

  lemma HeldAreValid(calls: seq<Call>, size: nat, v: string, d: string)
    ensures forall o | o in LastN(AcceptedFor(calls, v, d), size) :: ValidObservation(o)
  {
    AcceptedAreValid(calls, v, d);
    hide AcceptedFor, ValidObservation;
  }

  /** Which observations are refused. */
  lemma ObservationRefusedExactly(v: string, d: string, obs: Observation)
    ensures RecordError(v, d, obs).Some? <==>
            || Blank(v) || Blank(d) || Blank(obs.claimId)
            || (obs.verdict != Supported && obs.verdict != Unsupported && obs.verdict != Misleading
                && obs.verdict != Indeterminate)
            || obs.populationAverageScore < 0.0 || obs.populationAverageScore > 1.0
  {
    hide Blank;
  }
}
