/** The collusion bound at the level of one round's votes: 0.06 h >= c is exactly what h
    honest votes need to outweigh c colluding ones, whatever is drawn. */
module SimBound {
  import opened Consensus
  import opened ConsensusLaws
  import opened Reals
  import opened SimSafety
  import opened Sums
  import opened Verdicts

  /** A vote that an honest validator with some reputation in [0.15, 1] may cast. */
  predicate HonestVote(v: Vote, truth: Verdict) {
    && ValidVote(v) && v.verdict == truth && v.biasCoefficient == 0.0
    && 0.4 <= v.confidence < 0.9 && 0.15 <= v.domainReputation
  }

  /** A vote that a colluder with some reputation in [0.15, 1] may cast. */
  predicate ColludingVote(v: Vote) {
    && ValidVote(v) && v.biasCoefficient == 0.0
    && 0.8 <= v.confidence < 1.0 && 0.15 <= v.domainReputation
  }

  lemma {:induction false} HonestMargin(honest: seq<Vote>, truth: Verdict)
    requires forall v | v in honest :: HonestVote(v, truth)
    ensures Margin(honest, truth) >= HONEST_WEIGHT * |honest| as real
  {
    hide AdjustedWeight;
    if honest != [] {
      var m := |honest| - 1;
      HonestMargin(honest[..m], truth);
      assert honest[m] in honest;
      FittingWeight(honest[m]);
    }
  }

  /** Colluders weigh strictly less than one each. */
  lemma {:induction false} ColludingMargin(colluding: seq<Vote>, truth: Verdict)
    requires forall v | v in colluding :: ColludingVote(v)
    ensures Margin(colluding, truth) >= -(|colluding| as real)
    ensures colluding != [] ==> Margin(colluding, truth) > -(|colluding| as real)
  {
    hide AdjustedWeight;
    if colluding != [] {
      var m := |colluding| - 1;
      ColludingMargin(colluding[..m], truth);
      assert colluding[m] in colluding;
      WeightInUnit(colluding[m]);
    }
  }

  /** Enough: with at least one honest vote and 0.06 h >= c the truth has the majority. */
  lemma BoundIsEnough(honest: seq<Vote>, colluding: seq<Vote>, truth: Verdict)
    requires truth in CANDIDATES && honest != []
    requires forall v | v in honest :: HonestVote(v, truth)
    requires forall v | v in colluding :: ColludingVote(v)
    requires HONEST_WEIGHT * |honest| as real >= |colluding| as real
    ensures var votes := honest + colluding;
            var r := Decide(votes, |votes|);
            r.Success? && r.value.verdict == truth
  {
    hide Sum, Decide, HonestVote, ColludingVote;
    HonestMargin(honest, truth);
    ColludingMargin(colluding, truth);
    SumConcat(MarginFor(truth), honest, colluding);
    AllVotesValid(honest, colluding, truth);
    VerdictExactly(honest + colluding, |honest + colluding|, truth);
  }

  lemma AllVotesValid(honest: seq<Vote>, colluding: seq<Vote>, truth: Verdict)
    requires forall v | v in honest :: HonestVote(v, truth)
    requires forall v | v in colluding :: ColludingVote(v)
    ensures AllValid(honest + colluding)
  {
    hide ValidVote, AdjustedWeight;
    forall v | v in honest + colluding ensures ValidVote(v) {
      assert v in honest || v in colluding;
    }
  }

  // ----- needed -----

  function Copies(v: Vote, n: nat): (votes: seq<Vote>)
    ensures |votes| == n && forall w | w in votes :: w == v
  {
    if n == 0 then [] else Copies(v, n - 1) + [v]
  }

  lemma {:induction false} CopiesMargin(v: Vote, n: nat, w: Verdict)
    ensures Margin(Copies(v, n), w) == Times(MarginFor(w)(v), n as real)
  {
    hide Times, MarginFor, Sum;
    if n == 0 {
      TimesCount(MarginFor(w)(v), 0);
      SumOfZeros(MarginFor(w), Copies(v, 0));
    } else {
      CopiesMargin(v, n - 1, w);
      TimesCount(MarginFor(w)(v), n - 1);
      SumSnoc(MarginFor(w), Copies(v, n - 1), v);
    }
  }

  /** The least convincing honest voter. */
  function WeakVote(truth: Verdict): Vote {
    Vote("honest", truth, 0.4, 0.15, 0.0, 1)
  }

  /** A fully reputed colluder with this confidence. */
  function StrongVote(lie: Verdict, confidence: real): Vote {
    Vote("colluder", lie, confidence, 1.0, 0.0, 1)
  }

  /** Half-way between the confidence the colluders need and 1, but never below 0.8. */
  function EnoughConfidence(honest: nat, colluders: nat): real
    requires colluders > 0
  {
    var need := HONEST_WEIGHT * honest as real / colluders as real;
    if (need + 1.0) / 2.0 >= 0.8 then (need + 1.0) / 2.0 else 0.8
  }

  lemma EnoughConfidenceWins(honest: nat, colluders: nat)
    requires colluders > 0 && HONEST_WEIGHT * honest as real < colluders as real
    ensures 0.8 <= EnoughConfidence(honest, colluders) < 1.0
    ensures Times(EnoughConfidence(honest, colluders), colluders as real) > HONEST_WEIGHT * honest as real
  {
    var total, n := HONEST_WEIGHT * honest as real, colluders as real;
    var need := total / n;
    assert need * n == total;
    QuotientAtLeast(total, n, 1.0);
    TimesStrict(need, EnoughConfidence(honest, colluders), n);
  }

  /** Needed: as soon as 0.06 h < c, some draws and reputations within the same ranges let the
      colluders carry any other verdict. */
  lemma BoundIsNeeded(honest: nat, colluders: nat, truth: Verdict, lie: Verdict) returns (h: seq<Vote>, c: seq<Vote>)
    requires truth in CANDIDATES && lie in CANDIDATES && truth != lie
    requires HONEST_WEIGHT * honest as real < colluders as real
    ensures |h| == honest && |c| == colluders
    ensures forall v | v in h :: HonestVote(v, truth)
    ensures forall v | v in c :: ColludingVote(v)
    ensures var r := Decide(h + c, |h + c|);
            r.Success? && r.value.verdict == lie
  {
    EnoughConfidenceWins(honest, colluders);
    var x := EnoughConfidence(honest, colluders);
    var weak, strong := WeakVote(truth), StrongVote(lie, x);
    h, c := Copies(weak, honest), Copies(strong, colluders);
    WeakAndStrong(truth, lie, x);
    hide EnoughConfidence, WeakVote, StrongVote, Copies, HonestVote, ColludingVote, Sum, Decide, AdjustedWeight,
      Times;
    CopiesMargin(weak, honest, lie);
    CopiesMargin(strong, colluders, lie);
    SumConcat(MarginFor(lie), h, c);
    TimesHonestNegated(honest);
    AllVotesValid(h, c, truth);
    VerdictExactly(h + c, |h + c|, lie);
  }

  lemma WeakAndStrong(truth: Verdict, lie: Verdict, x: real)
    requires truth in CANDIDATES && lie in CANDIDATES && truth != lie && 0.8 <= x < 1.0
    ensures HonestVote(WeakVote(truth), truth) && MarginFor(lie)(WeakVote(truth)) == -HONEST_WEIGHT
    ensures ColludingVote(StrongVote(lie, x)) && MarginFor(lie)(StrongVote(lie, x)) == x
  {
  }

  lemma TimesHonestNegated(n: nat)
    ensures Times(-HONEST_WEIGHT, n as real) == -HONEST_WEIGHT * n as real
  {
  }
}
