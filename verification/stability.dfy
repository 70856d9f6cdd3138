/** The validation stability verdict (`eval_stability`): for every
    (stability condition, QC level) pair, the mean back-calculated value of
    the QC wells read after the condition must lie within a tolerance of
    the mean read before it; enough conditions must be present and a
    fraction of the pairs must pass. */
module ValidationStability {
  import opened Wrappers
  import opened Seqs
  import opened Stats
  import opened Layout
  import opened WellPattern
  import opened Groups
  import opened AcceptanceUtils

  /** The spec fields the evaluator reads. */
  datatype Spec = Spec(requiredPatterns: seq<Pattern>, minConditions: int, accTolPct: real, passFraction: real)

  /** A (condition, QC level) pair. */
  type Key = (string, QcLevel)

  datatype PairEntry =
    | MissingBeforeOrAfter
    | ZeroMeanBefore
    | Assessed(nBefore: nat, nAfter: nat, meanBefore: real, meanAfter: real, biasPct: real, pass: bool)

  datatype Report =
    | NoStabilityWells
    | Missing(error: PatternError<Pattern>)
    | Evaluated(numConditions: nat, numPairs: nat, passFraction: real, perCondition: map<Key, PairEntry>, pass: bool)

  predicate Pass(r: Report) {
    r.Evaluated? && r.pass
  }

  predicate EntryPasses(e: PairEntry) {
    e.Assessed? && e.pass
  }

  /** A QC well annotated with a stability condition and time point. */
  predicate StabilityWell(r: Row) {
    IsQc(r) && r.stabilityCondition.Some? && r.stabilityTime.Some?
  }

  /** An annotated well of the pair `k`. */
  predicate InPair(k: Key, r: Row) {
    StabilityWell(r) && r.stabilityCondition == Some(k.0) && r.qcLevel == Some(k.1)
  }

  /** The pairs present among the annotated wells; wells without a QC
      level form none. */
  function Keys(data: seq<Row>): (ks: set<Key>)
    ensures forall k :: k in ks <==> exists r :: r in data && InPair(k, r)
  {
    var ks := set r | r in data && StabilityWell(r) && r.qcLevel.Some? :: (r.stabilityCondition.value, r.qcLevel.value);
    forall k | exists r :: r in data && InPair(k, r) ensures k in ks {
      var r :| r in data && InPair(k, r);
      assert k == (r.stabilityCondition.value, r.qcLevel.value);
    }
    ks
  }

  /** The conditions of the pairs. */
  function Conditions(ks: set<Key>): (cs: set<string>)
    ensures forall c :: c in cs <==> exists l :: (c, l) in ks
  {
    var cs := set k | k in ks :: k.0;
    forall c | exists l :: (c, l) in ks ensures c in cs {
      var l :| (c, l) in ks;
      assert (c, l).0 == c;
    }
    cs
  }

  /** The wells of a pair read at one time point. */
  function TimeRows(data: seq<Row>, k: Key, t: Timepoint): (g: seq<Row>)
    ensures forall r :: r in g <==> r in data && InPair(k, r) && r.stabilityTime == Some(t)
  {
    Filter(data, (r: Row) => InPair(k, r) && r.stabilityTime == Some(t))
  }

  /** The entry of one pair: the bias of the after-mean from the
      before-mean, relative to the before-mean. */
  function AssessPair(back: real -> real, spec: Spec, data: seq<Row>, k: Key): (e: PairEntry)
    ensures e.MissingBeforeOrAfter? <==> |TimeRows(data, k, Before)| == 0 || |TimeRows(data, k, After)| == 0
    ensures e.ZeroMeanBefore? ==> |TimeRows(data, k, Before)| > 0 && Mean(Backs(TimeRows(data, k, Before), back)) == 0.0
    ensures e.Assessed? ==> e.nBefore == |TimeRows(data, k, Before)| > 0 && e.nAfter == |TimeRows(data, k, After)| > 0
    ensures e.Assessed? ==> e.meanBefore == Mean(Backs(TimeRows(data, k, Before), back)) != 0.0
    ensures e.Assessed? ==> e.meanAfter == Mean(Backs(TimeRows(data, k, After), back))
    ensures e.Assessed? ==> e.biasPct * e.meanBefore == Abs(e.meanAfter - e.meanBefore) * 100.0
    ensures e.Assessed? ==> (e.pass <==> e.biasPct <= spec.accTolPct)
  {
    var before := TimeRows(data, k, Before);
    var after := TimeRows(data, k, After);
    if |before| == 0 || |after| == 0 then MissingBeforeOrAfter
    else
      var mb := Mean(Backs(before, back));
      var ma := Mean(Backs(after, back));
      if mb == 0.0 then ZeroMeanBefore
      else
        RelativePctScales(Abs(ma - mb), Some(mb));
        var bias := RelativePct(Abs(ma - mb), Some(mb)).value;
        Assessed(|before|, |after|, mb, ma, bias, bias <= spec.accTolPct)
  }

  function PerCondition(back: real -> real, spec: Spec, data: seq<Row>): (m: map<Key, PairEntry>)
    ensures m.Keys == Keys(data)
    ensures forall k :: k in m ==> m[k] == AssessPair(back, spec, data, k)
  {
    map k | k in Keys(data) :: AssessPair(back, spec, data, k)
  }

  /** The passing pairs. */
  function Passing(m: map<Key, PairEntry>): (ps: set<Key>)
    ensures ps <= m.Keys
    ensures forall k :: k in ps <==> k in m && EntryPasses(m[k])
  {
    set k | k in m && EntryPasses(m[k])
  }

  function Summarize(spec: Spec, m: map<Key, PairEntry>): (rep: Report)
    ensures rep.Evaluated? && rep.perCondition == m
    ensures rep.numConditions == |Conditions(m.Keys)| && rep.numPairs == |m|
    ensures rep.passFraction == Fraction(|Passing(m)|, |m|)
    ensures rep.pass <==> rep.numConditions >= spec.minConditions && rep.passFraction >= spec.passFraction
  {
    var nc := |Conditions(m.Keys)|;
    var frac := Fraction(|Passing(m)|, |m|);
    Evaluated(nc, |m|, frac, m, nc >= spec.minConditions && frac >= spec.passFraction)
  }

  /** `eval_stability`: no annotated QC wells is an error, checked before
      the required patterns. */
  function Evaluate(inp: Input, spec: Spec): (rep: Report)
    ensures rep.NoStabilityWells? <==> forall r :: r in inp.data ==> !StabilityWell(r)
    ensures rep.Missing? <==>
      && (exists r :: r in inp.data && StabilityWell(r))
      && (exists p :: p in spec.requiredPatterns && !Present(p, inp.data))
    ensures rep.Missing? ==> rep.error.n > 0 && forall p :: p in rep.error.missing <==> p in spec.requiredPatterns && !Present(p, inp.data)
    ensures rep.Evaluated? ==> rep.perCondition == PerCondition(inp.back, spec, inp.data)
    ensures rep.Evaluated? ==> rep.perCondition.Keys == Keys(inp.data)
    ensures rep.Evaluated? ==> rep.numConditions == |Conditions(Keys(inp.data))|
    ensures rep.Evaluated? ==> rep.passFraction == Fraction(|Passing(rep.perCondition)|, |Keys(inp.data)|)
    ensures rep.Evaluated? ==> (rep.pass <==> rep.numConditions >= spec.minConditions && rep.passFraction >= spec.passFraction)
  {
    var wells := Filter(inp.data, StabilityWell);
    if |wells| == 0 then NoStabilityWells
    else
      assert wells[0] in wells;
      var missing := MissingPatterns(inp.data, spec.requiredPatterns, Present);
      if |missing| > 0 then Missing(PatternErrorOf(missing, "Missing {n} required stability QC pattern(s)"))
      else
        var m := PerCondition(inp.back, spec, inp.data);
        assert m.Keys == Keys(inp.data);
        Summarize(spec, m)
  }

  /** The pass fraction is 1 exactly when every pair passes, provided
      some pair exists. */
  lemma FullFractionIffAllPass(m: map<Key, PairEntry>)
    requires |m| > 0
    ensures Fraction(|Passing(m)|, |m|) == 1.0 <==> forall k :: k in m ==> EntryPasses(m[k])
  {
    var ps := Passing(m);
    FractionScales(|ps|, |m|);
    if forall k :: k in m ==> EntryPasses(m[k]) {
      assert ps == m.Keys;
    }
    if Fraction(|ps|, |m|) == 1.0 {
      assert |ps| == |m.Keys|;
      SubsetOfSameSize(ps, m.Keys);
    }
  }

  /** A pair whose after-wells read the same positive value as its
      before-wells shows no bias, and passes a non-negative tolerance. */
  lemma UnchangedPairPasses(back: real -> real, spec: Spec, data: seq<Row>, k: Key, v: real)
    requires v > 0.0
    requires exists r :: r in data && InPair(k, r) && r.stabilityTime == Some(Before)
    requires exists r :: r in data && InPair(k, r) && r.stabilityTime == Some(After)
    requires forall r :: r in data && InPair(k, r) ==> back(r.y) == v
    requires spec.accTolPct >= 0.0
    ensures EntryPasses(AssessPair(back, spec, data, k))
    ensures AssessPair(back, spec, data, k).biasPct == 0.0
  {
    var before := TimeRows(data, k, Before);
    var after := TimeRows(data, k, After);
    var rb :| rb in data && InPair(k, rb) && rb.stabilityTime == Some(Before);
    var ra :| ra in data && InPair(k, ra) && ra.stabilityTime == Some(After);
    assert rb in before && ra in after;
    var bb := Backs(before, back);
    var ba := Backs(after, back);
    forall i | 0 <= i < |bb| ensures v <= bb[i] <= v {
      assert before[i] in before;
    }
    forall i | 0 <= i < |ba| ensures v <= ba[i] <= v {
      assert after[i] in after;
    }
    MeanWithin(bb, v, v);
    MeanWithin(ba, v, v);
    EqualMeansPass(back, spec, data, k);
  }

  /** Equal, non-zero means before and after: the pair shows no bias. */
  lemma EqualMeansPass(back: real -> real, spec: Spec, data: seq<Row>, k: Key)
    requires |TimeRows(data, k, Before)| > 0 && |TimeRows(data, k, After)| > 0
    requires Mean(Backs(TimeRows(data, k, Before), back)) != 0.0
    requires Mean(Backs(TimeRows(data, k, Before), back)) == Mean(Backs(TimeRows(data, k, After), back))
    requires spec.accTolPct >= 0.0
    ensures EntryPasses(AssessPair(back, spec, data, k))
    ensures AssessPair(back, spec, data, k).biasPct == 0.0
  {
    var e := AssessPair(back, spec, data, k);
    NoChangeNoBias(e.biasPct, e.meanAfter, e.meanBefore);
  }

  /** Equal means: the relative bias is zero. */
  lemma NoChangeNoBias(bias: real, after: real, before: real)
    requires before != 0.0 && after == before
    requires bias * before == Abs(after - before) * 100.0
    ensures bias == 0.0
  {
  }
}
