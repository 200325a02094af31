/** What a consensus verdict means, and what cannot change it. */
module ConsensusLaws {
  import opened Consensus
  import opened Reals
  import opened Sums
  import opened Verdicts
  import opened Wrappers

  ghost predicate AllValid(votes: seq<Vote>) {
    forall v | v in votes :: ValidVote(v)
  }

  /** At least two thirds of the validator set voted. */
  predicate Quorum(votes: seq<Vote>, validatorSetSize: int)
  {
    validatorSetSize <= 0 || 3 * |votes| >= 2 * validatorSetSize
  }

  /** Weight for w minus weight against it. */
  function MarginFor(w: Verdict): Vote -> real {
    (v: Vote) => if v.verdict == w then AdjustedWeight(v) else -AdjustedWeight(v)
  }

  function Margin(votes: seq<Vote>, w: Verdict): real {
    Sum(MarginFor(w), votes)
  }

  // ----- weights and masses -----

  lemma WeightInUnit(v: Vote)
    requires ValidVote(v)
    ensures 0.0 <= AdjustedWeight(v) <= v.confidence <= 1.0
  {
    var c, r, b := v.confidence, v.domainReputation, 1.0 - v.biasCoefficient;
    MulInUnit(c, r);
    MulInUnit(c * r, b);
    assert c * r * b <= c;
    assert AdjustedWeight(v) == c * r * b;
  }

  lemma WeightsInUnit(votes: seq<Vote>)
    requires AllValid(votes)
    ensures forall v | v in votes :: 0.0 <= AdjustedWeight(v) <= v.confidence <= 1.0
  {
    forall v | v in votes ensures 0.0 <= AdjustedWeight(v) <= v.confidence <= 1.0 {
      WeightInUnit(v);
    }
  }

  /** The four masses of valid votes are non-negative and add up to the total. */
  lemma {:induction false} MassesPartition(votes: seq<Vote>)
    requires AllValid(votes)
    ensures forall w | w in CANDIDATES :: 0.0 <= Mass(votes, w)
    ensures Mass(votes, Supported) + Mass(votes, Unsupported) + Mass(votes, Misleading) + Mass(votes, Indeterminate)
            == TotalMass(votes)
  {
    if votes != [] {
      var m := |votes| - 1;
      MassesPartition(votes[..m]);
      WeightInUnit(votes[m]);
    }
  }

  lemma MarginIsTwiceMassLessTotal(votes: seq<Vote>, w: Verdict)
    ensures Margin(votes, w) == 2.0 * Mass(votes, w) - TotalMass(votes)
  {
    SumLinear(MassFor(w), AdjustedWeight, MarginFor(w), 2.0, -1.0, votes);
  }

  lemma ValidatedAll(votes: seq<Vote>)
    ensures AllValid(votes) <==> FirstInvalid(votes) == |votes|
  {
  }

  lemma QuorumFraction(votes: seq<Vote>, validatorSetSize: int)
    requires votes != []
    ensures ParticipationRate(votes, validatorSetSize) >= QUORUM_THRESHOLD
            <==> Quorum(votes, validatorSetSize)
  {
    QuotientAtLeast(|votes| as real, SetSize(votes, validatorSetSize) as real, QUORUM_THRESHOLD);
  }

  // ----- characterisation -----

  /** The decision with its two fractions cleared of division. */
  lemma DecisionIs(votes: seq<Vote>, validatorSetSize: int)
    requires votes != [] && AllValid(votes)
    ensures var b := BreakdownOf(votes);
            var winner := CANDIDATES[WinnerIndex(b)];
            var rate := ParticipationRate(votes, validatorSetSize);
            Decide(votes, validatorSetSize) == Success(
              if Quorum(votes, validatorSetSize) && 2.0 * MassIn(b, winner) > b.totalMass then
                ConsensusResult(winner, ConfidenceOf(votes, winner), b, rate, |votes|)
              else
                Undecided(votes, rate))
  {
    ValidatedAll(votes);
    QuorumFraction(votes, validatorSetSize);
    MassesPartition(votes);
    var b := BreakdownOf(votes);
    var mass := MassIn(b, CANDIDATES[WinnerIndex(b)]);
    if b.totalMass > 0.0 {
      QuotientAtMost(mass, b.totalMass, VERDICT_MAJORITY_THRESHOLD);
    } else {
      forall i | 0 <= i < 4 ensures MassIn(b, CANDIDATES[i]) == 0.0 {
      }
    }
  }

  /** Exactly when consensus declares w: quorum holds and w weighs strictly more than all
      other verdicts together. Otherwise the verdict is INDETERMINATE with confidence 0. */
  lemma VerdictExactly(votes: seq<Vote>, validatorSetSize: int, w: Verdict)
    requires votes != [] && AllValid(votes) && w in CANDIDATES
    ensures var r := Decide(votes, validatorSetSize);
            && r.Success?
            && r.value.breakdown == BreakdownOf(votes)
            && r.value.validatorCount == |votes|
            && (Quorum(votes, validatorSetSize) && Margin(votes, w) > 0.0 ==>
                 r.value.verdict == w && r.value.confidenceScore == ConfidenceOf(votes, w))
            && (r.value.verdict == w && w != Indeterminate ==>
                 Quorum(votes, validatorSetSize) && Margin(votes, w) > 0.0)
            && (!Quorum(votes, validatorSetSize) || (forall x | x in CANDIDATES :: Margin(votes, x) <= 0.0) ==>
                 r.value.verdict == Indeterminate && r.value.confidenceScore == 0.0)
  {
    hide Decide, ParticipationRate, ConfidenceOf, Margin, Quorum, BreakdownOf, WinnerIndex, MassIn, AllValid;
    DecisionIs(votes, validatorSetSize);
    MarginInBreakdown(votes, CANDIDATES[WinnerIndex(BreakdownOf(votes))]);
    MarginInBreakdown(votes, w);
  }

  /** A margin is what the breakdown says, and only the winner's can be positive. */
  lemma MarginInBreakdown(votes: seq<Vote>, w: Verdict)
    requires AllValid(votes) && w in CANDIDATES
    ensures var b := BreakdownOf(votes);
            && Margin(votes, w) == 2.0 * MassIn(b, w) - b.totalMass
            && (Margin(votes, w) > 0.0 ==> w == CANDIDATES[WinnerIndex(b)])
  {
    hide Mass, TotalMass, Margin, WinnerIndex;
    MassesPartition(votes);
    MarginIsTwiceMassLessTotal(votes, w);
    var b := BreakdownOf(votes);
    if 2.0 * MassIn(b, w) > b.totalMass {
      var i :| 0 <= i < 4 && CANDIDATES[i] == w;
      assert IsWinner(b, i);
    }
  }

  /** At most one verdict has a majority, so the order of the candidates cannot matter. */
  lemma MajorityIsUnique(votes: seq<Vote>, w: Verdict, x: Verdict)
    requires AllValid(votes) && w in CANDIDATES && x in CANDIDATES
    requires Margin(votes, w) > 0.0 && Margin(votes, x) > 0.0
    ensures w == x
  {
    MassesPartition(votes);
    MarginIsTwiceMassLessTotal(votes, w);
    MarginIsTwiceMassLessTotal(votes, x);
  }

  /** Reordering the votes changes nothing in the result, or only which invalid vote an
      error names. */
  lemma OrderIrrelevant(a: seq<Vote>, b: seq<Vote>, validatorSetSize: int)
    requires multiset(a) == multiset(b)
    ensures AllValid(a) ==> Decide(a, validatorSetSize) == Decide(b, validatorSetSize)
    ensures !AllValid(a) ==> Decide(a, validatorSetSize).Failure? && Decide(b, validatorSetSize).Failure?
  {
    assert |a| == |multiset(a)| == |multiset(b)| == |b|;
    assert forall v :: v in a <==> v in multiset(a);
    assert forall v :: v in b <==> v in multiset(b);
    ValidatedAll(a);
    ValidatedAll(b);
    forall w ensures Mass(a, w) == Mass(b, w) && ConfidenceOf(a, w) == ConfidenceOf(b, w) {
      SumPermutation(MassFor(w), a, b);
      SumPermutation(ConfidenceMassFor(w), a, b);
    }
    SumPermutation(AdjustedWeight, a, b);
  }

  // ----- monotonicity -----

  /** v' helps w at least as much as v did: a supporter that gained weight, a convert, or an
      opponent that lost weight. */
  predicate HelpsMore(w: Verdict, v: Vote, v': Vote) {
    if v.verdict == w then
      v'.verdict == w && AdjustedWeight(v') >= AdjustedWeight(v)
    else
      v'.verdict == w || AdjustedWeight(v') <= AdjustedWeight(v)
  }

  /** More confidence, more reputation and less bias all add weight. */
  lemma WeightIsMonotone(v: Vote, v': Vote)
    requires ValidVote(v) && ValidVote(v')
    requires v.confidence <= v'.confidence && v.domainReputation <= v'.domainReputation
    requires v'.biasCoefficient <= v.biasCoefficient
    ensures AdjustedWeight(v) <= AdjustedWeight(v')
  {
    var c, r, b := v.confidence, v.domainReputation, 1.0 - v.biasCoefficient;
    var c', r', b' := v'.confidence, v'.domainReputation, 1.0 - v'.biasCoefficient;
    ProductMonotone(c, r, b, c', r', b');
    assert AdjustedWeight(v) == c * r * b && AdjustedWeight(v') == c' * r' * b';
  }

  lemma ProductMonotone(c: real, r: real, b: real, c': real, r': real, b': real)
    requires 0.0 <= c <= c' && 0.0 <= r <= r' && 0.0 <= b <= b'
    ensures c * r * b <= c' * r' * b'
  {
    MulMonotone(c, c', r);
    MulMonotone(r, r', c');
    var x, x' := c * r, c' * r';
    assert x <= x';
    MulMonotone(x, x', b);
    MulMonotone(b, b', x');
  }

  lemma {:induction false} MarginGrows(votes: seq<Vote>, votes': seq<Vote>, w: Verdict)
    requires |votes| == |votes'| && AllValid(votes) && AllValid(votes')
    requires forall i | 0 <= i < |votes| :: HelpsMore(w, votes[i], votes'[i])
    ensures Margin(votes, w) <= Margin(votes', w)
  {
    if votes != [] {
      var m := |votes| - 1;
      MarginGrows(votes[..m], votes'[..m], w);
      WeightInUnit(votes[m]);
      WeightInUnit(votes'[m]);
    }
  }

  /** A verdict that has won stays the verdict when its voters gain weight, its opponents
      lose weight or change sides, and more valid votes for it arrive. */
  lemma VictoryIsStable(votes: seq<Vote>, votes': seq<Vote>, extra: seq<Vote>, validatorSetSize: int, w: Verdict)
    requires votes != [] && w in CANDIDATES
    requires AllValid(votes) && AllValid(votes') && AllValid(extra)
    requires Quorum(votes, validatorSetSize) && Margin(votes, w) > 0.0
    requires |votes| == |votes'| && forall i | 0 <= i < |votes| :: HelpsMore(w, votes[i], votes'[i])
    requires forall v | v in extra :: v.verdict == w
    ensures var r := Decide(votes' + extra, validatorSetSize);
            r.Success? && r.value.verdict == w && r.value.confidenceScore == ConfidenceOf(votes' + extra, w)
  {
    MarginGrows(votes, votes', w);
    SumConcat(MarginFor(w), votes', extra);
    WeightsInUnit(extra);
    SumBoundsBelow(MarginFor(w), extra);
    VerdictExactly(votes' + extra, validatorSetSize, w);
  }

  // ----- confidence -----

  /** Reputation corrected for bias: the weight of a vote without its confidence. */
  function TrustIn(v: Vote): real {
    v.domainReputation * (1.0 - v.biasCoefficient)
  }

  function TrustFor(w: Verdict): Vote -> real {
    (v: Vote) => if v.verdict == w then TrustIn(v) else 0.0
  }

  lemma WeightIsConfidenceTimesTrust(v: Vote)
    requires ValidVote(v)
    ensures AdjustedWeight(v) == v.confidence * TrustIn(v)
    ensures 0.0 <= AdjustedWeight(v) <= TrustIn(v)
  {
    var c, r, b := v.confidence, v.domainReputation, 1.0 - v.biasCoefficient;
    assert AdjustedWeight(v) == Times(Times(c, r), b) && TrustIn(v) == Times(r, b);
    TimesAssociates(c, r, b);
    hide AdjustedWeight, TrustIn;
    TrustInUnit(c, r, b);
    assert AdjustedWeight(v) == Times(c, TrustIn(v));
  }

  lemma TrustInUnit(c: real, r: real, b: real)
    requires InUnit(c) && InUnit(r) && InUnit(b)
    ensures 0.0 <= Times(c, Times(r, b)) <= Times(r, b)
  {
    hide Times;
    TimesInUnit(r, b);
    TimesInUnit(Times(r, b), c);
    TimesCommutes(Times(r, b), c);
  }

  function Trust(votes: seq<Vote>, w: Verdict): real {
    Sum(TrustFor(w), votes)
  }

  /** The confidence of a declared verdict is a true average: its divisor is the winner's
      mass and is never zero, so it is positive, and it lies between any bounds on the
      confidence of the winning voters that carry weight. */
  lemma ConfidenceIsAverage(votes: seq<Vote>, w: Verdict, lo: real, hi: real)
    requires AllValid(votes) && w in CANDIDATES && Margin(votes, w) > 0.0
    requires forall v | v in votes && v.verdict == w && AdjustedWeight(v) > 0.0 :: lo <= v.confidence <= hi
    ensures Mass(votes, w) > 0.0
    ensures 0.0 < ConfidenceOf(votes, w) <= 1.0
    ensures lo <= ConfidenceOf(votes, w) <= hi
  {
    MajorityHasMass(votes, w);
    WeightsInUnit(votes);
    ScoreBetween(votes, w, lo, hi);
    ScoreBetween(votes, w, 0.0, 1.0);
    ScorePositive(votes, w);
    Average(Sum(ConfidenceMassFor(w), votes), Mass(votes, w), lo, hi);
    hide AdjustedWeight, ConfidenceMass, Between;
  }

  /** A result carries confidence exactly when some verdict has won: this tells an
      INDETERMINATE that won by majority from one that stands for no decision. */
  lemma ConfidentExactlyWhenWon(votes: seq<Vote>, validatorSetSize: int)
    requires votes != [] && AllValid(votes)
    ensures var r := Decide(votes, validatorSetSize);
            && r.Success?
            && (r.value.confidenceScore > 0.0 <==>
                 Quorum(votes, validatorSetSize) && exists w | w in CANDIDATES :: Margin(votes, w) > 0.0)
  {
    hide Decide, Quorum, Margin, ConfidenceOf;
    VerdictExactly(votes, validatorSetSize, Supported);
    forall w | w in CANDIDATES && Margin(votes, w) > 0.0 ensures 0.0 < ConfidenceOf(votes, w) {
      WeightsInUnit(votes);
      ConfidenceIsAverage(votes, w, 0.0, 1.0);
    }
    forall w | w in CANDIDATES && Margin(votes, w) > 0.0 && Quorum(votes, validatorSetSize)
      ensures Decide(votes, validatorSetSize).value.confidenceScore == ConfidenceOf(votes, w)
    {
      VerdictExactly(votes, validatorSetSize, w);
    }
  }

  lemma MajorityHasMass(votes: seq<Vote>, w: Verdict)
    requires AllValid(votes) && w in CANDIDATES && Margin(votes, w) > 0.0
    ensures Mass(votes, w) > 0.0
  {
    MassesPartition(votes);
    MarginIsTwiceMassLessTotal(votes, w);
  }

  predicate Between(lo: real, hi: real, mass: real, score: real) {
    lo * mass <= score <= hi * mass
  }

  lemma Average(score: real, mass: real, lo: real, hi: real)
    requires mass > 0.0 && score > 0.0 && Between(lo, hi, mass, score) && Between(0.0, 1.0, mass, score)
    ensures lo <= score / mass <= hi && 0.0 < score / mass <= 1.0
  {
    QuotientAtLeast(score, mass, lo);
    QuotientAtMost(score, mass, hi);
    QuotientAtMost(score, mass, 1.0);
    QuotientAtMost(score, mass, 0.0);
  }

  lemma ScoreStep(lo: real, hi: real, mass: real, score: real, v: Vote)
    requires Between(lo, hi, mass, score)
    requires ValidVote(v) && (AdjustedWeight(v) > 0.0 ==> lo <= v.confidence <= hi)
    ensures Between(lo, hi, mass + AdjustedWeight(v), score + ConfidenceMass(v))
  {
    WeightInUnit(v);
    var c, a := v.confidence, AdjustedWeight(v);
    if a > 0.0 {
      MulMonotone(lo, c, a);
      MulMonotone(c, hi, a);
    }
    assert lo * (mass + a) == lo * mass + lo * a;
    assert hi * (mass + a) == hi * mass + hi * a;
    assert ConfidenceMass(v) == c * a;
  }

  lemma {:induction false} ScoreBetween(votes: seq<Vote>, w: Verdict, lo: real, hi: real)
    requires AllValid(votes)
    requires forall v | v in votes && v.verdict == w && AdjustedWeight(v) > 0.0 :: lo <= v.confidence <= hi
    ensures Between(lo, hi, Mass(votes, w), Sum(ConfidenceMassFor(w), votes))
  {
    if votes != [] {
      hide AdjustedWeight, ConfidenceMass, Between;
      var m := |votes| - 1;
      var v := votes[m];
      ScoreBetween(votes[..m], w, lo, hi);
      assert v in votes;
      if v.verdict == w {
        ScoreStep(lo, hi, Mass(votes[..m], w), Sum(ConfidenceMassFor(w), votes[..m]), v);
      }
    }
  }

  lemma ConfidenceMassSign(v: Vote)
    requires ValidVote(v)
    ensures ConfidenceMass(v) >= 0.0
    ensures AdjustedWeight(v) > 0.0 ==> ConfidenceMass(v) > 0.0
  {
    WeightInUnit(v);
    var c, a := v.confidence, AdjustedWeight(v);
    MulNonNegative(c, a);
    if a > 0.0 {
      MulPositive(c, a);
    }
    assert ConfidenceMass(v) == c * a;
  }

  lemma {:induction false} ScorePositive(votes: seq<Vote>, w: Verdict)
    requires AllValid(votes)
    ensures Sum(ConfidenceMassFor(w), votes) >= 0.0
    ensures Mass(votes, w) > 0.0 ==> Sum(ConfidenceMassFor(w), votes) > 0.0
    ensures Mass(votes, w) >= 0.0
  {
    if votes != [] {
      var m := |votes| - 1;
      var v := votes[m];
      ScorePositive(votes[..m], w);
      assert v in votes;
      WeightInUnit(v);
      ConfidenceMassSign(v);
    }
  }

  /** The sum of trust x (confidence - x)^2 over the winning voters, multiplied out. */
  function Spread(score: real, mass: real, trust: real, x: real): real {
    score - 2.0 * x * mass + x * x * trust
  }

  lemma {:induction false} SpreadNonNegative(votes: seq<Vote>, w: Verdict, x: real)
    requires AllValid(votes)
    ensures Spread(Sum(ConfidenceMassFor(w), votes), Mass(votes, w), Trust(votes, w), x) >= 0.0
  {
    if votes != [] {
      hide AdjustedWeight, ConfidenceMass, TrustIn, Spread;
      var m := |votes| - 1;
      var v := votes[m];
      SpreadNonNegative(votes[..m], w, x);
      assert v in votes;
      if v.verdict == w {
        SpreadStep(Sum(ConfidenceMassFor(w), votes[..m]), Mass(votes[..m], w), Trust(votes[..m], w), v, x);
      }
    }
  }

  lemma SpreadStep(score: real, mass: real, trust: real, v: Vote, x: real)
    requires ValidVote(v)
    ensures Spread(score + ConfidenceMass(v), mass + AdjustedWeight(v), trust + TrustIn(v), x)
            >= Spread(score, mass, trust, x)
  {
    WeightIsConfidenceTimesTrust(v);
    var c, k, a := v.confidence, TrustIn(v), AdjustedWeight(v);
    Square(c, x, k);
    assert ConfidenceMass(v) == c * a == c * (c * k);
    assert 2.0 * x * (mass + a) == 2.0 * x * mass + 2.0 * x * a;
    assert 2.0 * x * a == 2.0 * x * (c * k);
    assert x * x * (trust + k) == x * x * trust + x * x * k;
  }

  lemma Square(c: real, x: real, k: real)
    requires k >= 0.0
    ensures c * (c * k) - 2.0 * x * (c * k) + x * x * k >= 0.0
  {
    var d := c - x;
    assert d * d >= 0.0;
    MulNonNegative(d * d, k);
    assert d * d == c * c - 2.0 * x * c + x * x;
  }

  /** Weighting by confidence never lowers the score: it is at least the mean confidence
      of the winning voters weighted by trust alone. */
  lemma ConfidenceAtLeastPlainMean(votes: seq<Vote>, w: Verdict)
    requires AllValid(votes) && w in CANDIDATES && Margin(votes, w) > 0.0
    ensures Trust(votes, w) > 0.0
    ensures ConfidenceOf(votes, w) >= Mass(votes, w) / Trust(votes, w)
  {
    MajorityHasMass(votes, w);
    MassAtMostTrust(votes, w);
    var mean := Mass(votes, w) / Trust(votes, w);
    SpreadNonNegative(votes, w, mean);
    SpreadAtMean(Sum(ConfidenceMassFor(w), votes), Mass(votes, w), Trust(votes, w), mean);
  }

  lemma SpreadAtMean(score: real, mass: real, trust: real, mean: real)
    requires mass > 0.0 && trust > 0.0 && mean == mass / trust
    requires Spread(score, mass, trust, mean) >= 0.0
    ensures score / mass >= mean
  {
    assert mean * trust == mass;
    assert mean * mean * trust == mean * (mean * trust) == mean * mass;
    QuotientAtLeast(score, mass, mean);
  }

  lemma {:induction false} MassAtMostTrust(votes: seq<Vote>, w: Verdict)
    requires AllValid(votes)
    ensures Mass(votes, w) <= Trust(votes, w)
  {
    if votes != [] {
      var m := |votes| - 1;
      var v := votes[m];
      MassAtMostTrust(votes[..m], w);
      assert v in votes;
      WeightIsConfidenceTimesTrust(v);
    }
  }

  /** Indeterminate is a verdict like the others: it can win by majority, and then its
      confidence is not zero. */
  lemma IndeterminateCanWin()
    ensures var v := Vote("v", Indeterminate, 0.5, 1.0, 0.0, 1);
            Decide([v], 1) == Success(ConsensusResult(Indeterminate, 0.5, BreakdownOf([v]), 1.0, 1))
  {
    hide Sum, Decide, ConfidenceOf;
    var v := Vote("v", Indeterminate, 0.5, 1.0, 0.0, 1);
    SumOne(MassFor(Supported), v);
    SumOne(MassFor(Unsupported), v);
    SumOne(MassFor(Misleading), v);
    SumOne(MassFor(Indeterminate), v);
    SumOne(AdjustedWeight, v);
    assert IsWinner(BreakdownOf([v]), 3);
    assert ParticipationRate([v], 1) == 1.0;
    ConfidenceOfOne(v);
    DecisionIs([v], 1);
  }

  lemma ConfidenceOfOne(v: Vote)
    requires AdjustedWeight(v) > 0.0
    ensures ConfidenceOf([v], v.verdict) == v.confidence
  {
    SumOne(MassFor(v.verdict), v);
    SumOne(ConfidenceMassFor(v.verdict), v);
    hide Sum, AdjustedWeight;
    var w := AdjustedWeight(v);
    assert (v.confidence * w) / w == v.confidence;
  }

  lemma SumOne(f: Vote -> real, v: Vote)
    ensures Sum(f, [v]) == f(v)
  {
    SumSnoc(f, [], v);
    assert [] + [v] == [v];
  }

  /** The rate in the result is the number of votes per seat of the set, and 1 if no size is
      given. */
  lemma RateIsVotesPerSeat(votes: seq<Vote>, validatorSetSize: int)
    requires votes != [] && AllValid(votes)
    ensures var r := Decide(votes, validatorSetSize);
            && r.Success?
            && r.value.validatorCount == |votes|
            && (validatorSetSize > 0 ==> Times(r.value.participationRate, validatorSetSize as real) == |votes| as real)
            && (validatorSetSize <= 0 ==> r.value.participationRate == 1.0)
  {
    hide Decide, BreakdownOf, ConfidenceOf, Quorum, ParticipationRate, MassIn, Times;
    DecisionIs(votes, validatorSetSize);
    RateTimesSeats(votes, validatorSetSize);
  }

  lemma RateTimesSeats(votes: seq<Vote>, validatorSetSize: int)
    requires votes != []
    ensures validatorSetSize > 0 ==>
              Times(ParticipationRate(votes, validatorSetSize), validatorSetSize as real) == |votes| as real
    ensures validatorSetSize <= 0 ==> ParticipationRate(votes, validatorSetSize) == 1.0
  {
    QuotientTimes(|votes| as real, SetSize(votes, validatorSetSize) as real);
    hide Times;
  }

  /** Confidence x reputation x (1 - bias), of the votes for one verdict. */
  function WeightFor(w: Verdict): Vote -> real {
    (v: Vote) => if v.verdict == w then v.confidence * v.domainReputation * (1.0 - v.biasCoefficient) else 0.0
  }

  function WeightIn(votes: seq<Vote>, w: Verdict): real {
    Sum(WeightFor(w), votes)
  }

  function WeightOfAll(votes: seq<Vote>): real {
    WeightIn(votes, Supported) + WeightIn(votes, Unsupported) + WeightIn(votes, Misleading)
    + WeightIn(votes, Indeterminate)
  }

  function ScoreFor(w: Verdict): Vote -> real {
    (v: Vote) =>
      if v.verdict == w then v.confidence * (v.confidence * v.domainReputation * (1.0 - v.biasCoefficient)) else 0.0
  }

  /** The whole result in terms of the votes. The breakdown holds the weight of each verdict. A
      verdict wins exactly by quorum and more than half of the weight, and its confidence
      is the weighted mean of its voters' confidences. Otherwise the confidence is 0. */
  lemma ResultInVotes(votes: seq<Vote>, validatorSetSize: int, w: Verdict)
    requires votes != [] && AllValid(votes) && w in CANDIDATES
    ensures Decide(votes, validatorSetSize).Success?
    ensures Decide(votes, validatorSetSize).value.breakdown
            == Breakdown(WeightIn(votes, Supported), WeightIn(votes, Unsupported), WeightIn(votes, Misleading),
                 WeightIn(votes, Indeterminate), WeightOfAll(votes))
    ensures var r, won := Decide(votes, validatorSetSize).value,
                (validatorSetSize <= 0 || 3 * |votes| >= 2 * validatorSetSize)
                && 2.0 * WeightIn(votes, w) > WeightOfAll(votes);
            && (won ==> r.verdict == w && Times(r.confidenceScore, WeightIn(votes, w)) == Sum(ScoreFor(w), votes))
            && (r.verdict == w && !won ==> w == Indeterminate && r.confidenceScore == 0.0)
  {
    hide Decide, Margin, WeightIn, WeightOfAll, ConfidenceOf, Times, ScoreFor, Quorum, BreakdownOf, Sum, AllValid,
      ValidVote;
    BreakdownInVotes(votes);
    MarginInVotes(votes, w);
    VerdictExactly(votes, validatorSetSize, w);
    NoConfidenceWithoutWin(votes, validatorSetSize);
    QuorumIs(votes, validatorSetSize);
    if Margin(votes, w) > 0.0 {
      ConfidenceTimesMass(votes, w);
    }
  }

  lemma QuorumIs(votes: seq<Vote>, validatorSetSize: int)
    ensures Quorum(votes, validatorSetSize) <==> validatorSetSize <= 0 || 3 * |votes| >= 2 * validatorSetSize
  {
  }

  lemma NoConfidenceWithoutWin(votes: seq<Vote>, validatorSetSize: int)
    requires votes != [] && AllValid(votes)
    ensures var r := Decide(votes, validatorSetSize);
            && r.Success?
            && (r.value.verdict == Indeterminate
                && !(Quorum(votes, validatorSetSize) && Margin(votes, Indeterminate) > 0.0)
                ==> r.value.confidenceScore == 0.0)
  {
    hide Decide, Margin, ConfidenceOf, Quorum, BreakdownOf;
    forall x | x in CANDIDATES
      ensures Quorum(votes, validatorSetSize) && Margin(votes, x) > 0.0 ==>
                Decide(votes, validatorSetSize).Success? && Decide(votes, validatorSetSize).value.verdict == x
    {
      VerdictExactly(votes, validatorSetSize, x);
    }
    VerdictExactly(votes, validatorSetSize, Indeterminate);
  }

  lemma BreakdownInVotes(votes: seq<Vote>)
    requires AllValid(votes)
    ensures BreakdownOf(votes)
            == Breakdown(WeightIn(votes, Supported), WeightIn(votes, Unsupported), WeightIn(votes, Misleading),
                 WeightIn(votes, Indeterminate), WeightOfAll(votes))
  {
    hide Mass, WeightIn, TotalMass;
    MassesPartition(votes);
    MassIsWeight(votes, Supported);
    MassIsWeight(votes, Unsupported);
    MassIsWeight(votes, Misleading);
    MassIsWeight(votes, Indeterminate);
  }

  lemma MarginInVotes(votes: seq<Vote>, w: Verdict)
    requires AllValid(votes)
    ensures Margin(votes, w) == 2.0 * WeightIn(votes, w) - WeightOfAll(votes)
  {
    hide Mass, WeightIn, TotalMass, Margin, WeightOfAll;
    BreakdownInVotes(votes);
    MassIsWeight(votes, w);
    MarginIsTwiceMassLessTotal(votes, w);
  }

  lemma MassIsWeight(votes: seq<Vote>, w: Verdict)
    ensures Mass(votes, w) == WeightIn(votes, w)
  {
    SumSame(MassFor(w), WeightFor(w), votes);
  }

  lemma ConfidenceTimesMass(votes: seq<Vote>, w: Verdict)
    requires AllValid(votes) && w in CANDIDATES && Margin(votes, w) > 0.0
    ensures Times(ConfidenceOf(votes, w), WeightIn(votes, w)) == Sum(ScoreFor(w), votes)
  {
    hide Margin;
    MajorityHasMass(votes, w);
    MassIsWeight(votes, w);
    SumSame(ConfidenceMassFor(w), ScoreFor(w), votes);
    QuotientTimes(Sum(ConfidenceMassFor(w), votes), Mass(votes, w));
  }

  lemma {:induction false} SumSame(f: Vote -> real, g: Vote -> real, votes: seq<Vote>)
    requires forall v | v in votes :: f(v) == g(v)
    ensures Sum(f, votes) == Sum(g, votes)
  {
    if votes != [] {
      var m := |votes| - 1;
      assert votes[m] in votes && forall v | v in votes[..m] :: v in votes;
      SumSame(f, g, votes[..m]);
    }
  }

  /** Which votes are refused: alone, a vote is accepted exactly if it has an ID, one of the
      four verdicts, and all its numbers in [0, 1]. */
  lemma VoteAcceptedExactly(v: Vote, validatorSetSize: int)
    ensures Decide([v], validatorSetSize).Success? <==>
            && v.validatorId != ""
            && v.verdict in {Supported, Unsupported, Misleading, Indeterminate}
            && 0.0 <= v.confidence <= 1.0
            && 0.0 <= v.domainReputation <= 1.0
            && 0.0 <= v.biasCoefficient <= 1.0
  {
    hide BreakdownOf, ConfidenceOf, ParticipationRate, MassIn;
  }

  /** Which error: no votes, or the first one that would be refused alone. */
  lemma ErrorsAre(votes: seq<Vote>, validatorSetSize: int, i: nat)
    ensures Decide(votes, validatorSetSize) == Failure(NoVotes) <==> votes == []
    ensures Decide(votes, validatorSetSize) == Failure(InvalidVote(i)) <==>
            && i < |votes|
            && Decide([votes[i]], validatorSetSize).Failure?
            && forall j | 0 <= j < i :: Decide([votes[j]], validatorSetSize).Success?
  {
    var bad := FirstInvalid(votes);
    forall j | 0 <= j < |votes| ensures Decide([votes[j]], validatorSetSize).Success? <==> ValidVote(votes[j]) {
      AloneIsValid(votes[j], validatorSetSize);
    }
    hide BreakdownOf, ConfidenceOf, ParticipationRate, MassIn, ValidVote;
  }

  lemma AloneIsValid(v: Vote, validatorSetSize: int)
    ensures Decide([v], validatorSetSize).Success? <==> ValidVote(v)
  {
    hide BreakdownOf, ConfidenceOf, ParticipationRate, MassIn;
  }

  /** The participation rate is a fraction of the set exactly when the votes do not outnumber
      a set whose size is given. Nothing else bounds their number. */
  lemma RateIsFractionExactly(votes: seq<Vote>, validatorSetSize: int)
    requires votes != []
    ensures ParticipationRate(votes, validatorSetSize) > 0.0
    ensures ParticipationRate(votes, validatorSetSize) <= 1.0 <==> validatorSetSize <= 0 || |votes| <= validatorSetSize
  {
    var n, size := |votes| as real, SetSize(votes, validatorSetSize) as real;
    QuotientAtMost(n, size, 1.0);
    QuotientAtMost(n, size, 0.0);
  }

  /** Nothing bounds the number of votes by the set size: the rate can exceed 1. */
  lemma ParticipationCanExceedOne(v: Vote)
    requires ValidVote(v)
    ensures Decide([v, v], 1).Success? && Decide([v, v], 1).value.participationRate == 2.0
  {
    ValidatedAll([v, v]);
  }
}
