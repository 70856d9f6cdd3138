/** The dilution-linearity verdict over dilution factors and series
    (`eval_dilution_linearity` in the engine's `dilution` module): every
    (dilution factor, series) point must back-calculate to its expected
    diluted concentration with a small CV; enough factors and series per
    factor must be present; and no diluted point may show a hook effect,
    i.e. recover too little of the undiluted concentration. */
module FactorDilution {
  import opened Wrappers
  import opened Seqs
  import opened Stats
  import opened Layout
  import opened Groups
  import opened AcceptanceUtils

  /** The spec fields the evaluator reads. */
  datatype Spec = Spec(
    minReplicatesPerPoint: int,
    accTolPct: real,
    cvTolPct: real,
    minDilutionFactors: int,
    minSeries: int,
    passFraction: real,
    undilutedRecoveryMinPct: real
  )

  datatype Point =
    | TooFewReplicates(factor: real, series: string, n: nat)
    | Assessed(factor: real, series: string, n: nat, biasPct: Option<real>, cvPct: Option<real>, biasOk: bool, cvOk: bool, pass: bool)

  datatype HookCheck = HookCheck(recoveryPct: real, factor: real, series: string, hookOk: bool)

  datatype Report =
    | MissingColumns(columns: set<Column>)
    | Evaluated(
        numDilutionFactors: nat,
        seriesCountsPerFactor: map<real, nat>,
        numPoints: nat,
        numPass: nat,
        passFraction: real,
        hookFailures: nat,
        perPoint: seq<Point>,
        hookChecks: seq<HookCheck>,
        pass: bool
      )

  predicate Pass(r: Report) {
    r.Evaluated? && r.pass
  }

  predicate PointPasses(p: Point) {
    p.Assessed? && p.pass
  }

  predicate HookFails(h: HookCheck) {
    !h.hookOk
  }

  const RequiredColumns: set<Column> := {DilutionFactorCol, SeriesIdCol, BackCalcCol, XCol}

  function SeriesKey(r: Row): Option<string> {
    r.seriesId
  }

  /** A row of the point (factor `f`, series `s`). */
  predicate AtPoint(f: real, s: string, r: Row) {
    r.dilutionFactor == Some(f) && r.seriesId == Some(s)
  }

  /** Some row lies at the point. */
  predicate HasPoint(df: seq<Row>, f: real, s: string) {
    exists r :: r in df && AtPoint(f, s, r)
  }

  function PointRows(df: seq<Row>, f: real, s: string): (g: seq<Row>)
    ensures forall r :: r in g <==> r in df && AtPoint(f, s, r)
  {
    Filter(df, (r: Row) => AtPoint(f, s, r))
  }

  /** The points of one factor, its series in order of first appearance. */
  function FactorPoints(df: seq<Row>, f: real): (here: seq<(real, string)>)
    ensures forall p :: p in here ==> p.0 == f
    ensures forall s :: (f, s) in here <==> HasPoint(df, f, s)
  {
    var ss := FirstKeys(Group(df, DilutionFactorKey, f), SeriesKey);
    var here := seq(|ss|, i requires 0 <= i < |ss| => (f, ss[i]));
    forall s | HasPoint(df, f, s) ensures (f, s) in here {
      var r :| r in df && AtPoint(f, s, r);
      assert r in Group(df, DilutionFactorKey, f);
      var i :| 0 <= i < |ss| && ss[i] == s;
      assert here[i] == (f, s);
    }
    forall s | (f, s) in here ensures HasPoint(df, f, s) {
      var i :| 0 <= i < |here| && here[i] == (f, s);
      assert ss[i] in ss;
    }
    here
  }

  /** The points of the given factors, factors in the order given. */
  function PointsOf(df: seq<Row>, fs: seq<real>): (ps: seq<(real, string)>)
    ensures forall f, s :: (f, s) in ps <==> f in fs && HasPoint(df, f, s)
    decreases |fs|
  {
    if |fs| == 0 then []
    else FactorPoints(df, fs[0]) + PointsOf(df, fs[1..])
  }

  /** `df.groupby(["dilution_factor", "series_id"])`: every point with
      a factor and a series, factors ascending. */
  function Points(df: seq<Row>): (ps: seq<(real, string)>)
    ensures forall f, s :: (f, s) in ps <==> HasPoint(df, f, s)
  {
    PointsOf(df, NumericKeys(df, DilutionFactorKey))
  }

  /** `|observed − expected| / expected · 100 if expected else 0.0`, the
      expected value being the mean nominal concentration divided by the
      factor; a factor of 0 makes the expected value infinite or NaN and
      the bias NaN. */
  function PointBias(g: seq<Row>, f: real): (b: Option<real>)
    requires |g| > 0
    ensures f == 0.0 ==> b.None?
    ensures f != 0.0 && Mean(Xs(g)) == 0.0 ==> b == Some(0.0)
    ensures f != 0.0 && Mean(Xs(g)) != 0.0 ==> b.Some?
    ensures f != 0.0 && Mean(Xs(g)) != 0.0 ==>
      IsPct(b.value, Abs(Mean(BackCalcs(g)) - Mean(Xs(g)) / f), Mean(Xs(g)) / f)
  {
    if f == 0.0 then None
    else
      var expected := Mean(Xs(g)) / f;
      if expected == 0.0 then Some(0.0)
      else
        RelativePctScales(Abs(Mean(BackCalcs(g)) - expected), Some(expected));
        RelativePct(Abs(Mean(BackCalcs(g)) - expected), Some(expected))
  }

  /** The entry of one point: too few replicates, or its bias and CV
      judged against the tolerances. */
  function AssessPoint(sd: seq<real> -> real, spec: Spec, df: seq<Row>, f: real, s: string): (p: Point)
    requires HasPoint(df, f, s)
    ensures p.factor == f && p.series == s && p.n == |PointRows(df, f, s)| > 0
    ensures p.TooFewReplicates? <==> |PointRows(df, f, s)| < spec.minReplicatesPerPoint
    ensures p.Assessed? ==> p.biasPct == PointBias(PointRows(df, f, s), f)
    ensures p.Assessed? ==> p.cvPct == Cv(sd, BackCalcs(PointRows(df, f, s)))
    ensures p.Assessed? ==> (p.biasOk <==> AtMost(p.biasPct, spec.accTolPct)) && (p.cvOk <==> AtMost(p.cvPct, spec.cvTolPct))
    ensures PointPasses(p) <==>
      && |PointRows(df, f, s)| >= spec.minReplicatesPerPoint
      && AtMost(PointBias(PointRows(df, f, s), f), spec.accTolPct)
      && AtMost(Cv(sd, BackCalcs(PointRows(df, f, s))), spec.cvTolPct)
  {
    var g := PointRows(df, f, s);
    var r :| r in df && AtPoint(f, s, r);
    assert r in g;
    if |g| < spec.minReplicatesPerPoint then TooFewReplicates(f, s, |g|)
    else
      var bias := PointBias(g, f);
      var cv := Cv(sd, BackCalcs(g));
      var biasOk := AtMost(bias, spec.accTolPct);
      var cvOk := AtMost(cv, spec.cvTolPct);
      Assessed(f, s, |g|, bias, cv, biasOk, cvOk, biasOk && cvOk)
  }

  function PerPoint(sd: seq<real> -> real, spec: Spec, df: seq<Row>, ps: seq<(real, string)>): (es: seq<Point>)
    requires forall i :: 0 <= i < |ps| ==> HasPoint(df, ps[i].0, ps[i].1)
    ensures |es| == |ps|
    ensures forall i :: 0 <= i < |ps| ==> es[i] == AssessPoint(sd, spec, df, ps[i].0, ps[i].1)
  {
    seq(|ps|, i requires 0 <= i < |ps| => AssessPoint(sd, spec, df, ps[i].0, ps[i].1))
  }

  /** `groupby("dilution_factor")["series_id"].nunique()`: for every
      factor present, the number of distinct series among its rows. */
  function SeriesCounts(df: seq<Row>): (m: map<real, nat>)
    ensures forall f :: f in m <==> exists r :: r in df && r.dilutionFactor == Some(f)
    ensures forall f :: f in m ==> m[f] == |FirstKeys(Group(df, DilutionFactorKey, f), SeriesKey)|
  {
    var fs := NumericKeys(df, DilutionFactorKey);
    map f | f in fs :: |FirstKeys(Group(df, DilutionFactorKey, f), SeriesKey)|
  }

  /** Enough series at every factor. */
  predicate EnoughSeries(m: map<real, nat>, minSeries: int) {
    forall f :: f in m ==> m[f] >= minSeries
  }

  predicate Diluted(r: Row) {
    r.dilutionFactor.Some? && r.dilutionFactor.value > 1.0
  }

  predicate Undiluted(r: Row) {
    r.dilutionFactor == Some(1.0)
  }

  /** A diluted point with a positive mean back-calculated value. */
  predicate HookCandidate(df: seq<Row>, p: (real, string)) {
    && p.0 > 1.0
    && HasPoint(df, p.0, p.1)
    && Mean(BackCalcs(PointRows(df, p.0, p.1))) > 0.0
  }

  /** The hook check of one candidate point: the undiluted mean as a
      percentage of the point's mean back-calculated value must reach the
      minimum. */
  function HookOf(spec: Spec, ref: real, df: seq<Row>, p: (real, string)): (h: HookCheck)
    requires HookCandidate(df, p)
    ensures h.factor == p.0 && h.series == p.1
    ensures h.recoveryPct * Mean(BackCalcs(PointRows(df, p.0, p.1))) == ref * 100.0
    ensures h.hookOk <==> h.recoveryPct >= spec.undilutedRecoveryMinPct
  {
    var expected := Mean(BackCalcs(PointRows(df, p.0, p.1)));
    RelativePctScales(ref, Some(expected));
    var rec := RelativePct(ref, Some(expected)).value;
    HookCheck(rec, p.0, p.1, rec >= spec.undilutedRecoveryMinPct)
  }

  /** One hook check per candidate, in order. */
  function HookSeq(spec: Spec, ref: real, df: seq<Row>, cs: seq<(real, string)>): (hs: seq<HookCheck>)
    requires forall i :: 0 <= i < |cs| ==> HookCandidate(df, cs[i])
    ensures |hs| == |cs|
    ensures forall i :: 0 <= i < |cs| ==> hs[i] == HookOf(spec, ref, df, cs[i])
  {
    seq(|cs|, i requires 0 <= i < |cs| => HookOf(spec, ref, df, cs[i]))
  }

  /** The diluted points whose mean back-calculated value is positive, in
      point order. */
  function HookCandidates(df: seq<Row>): (cs: seq<(real, string)>)
    ensures forall i :: 0 <= i < |cs| ==> HookCandidate(df, cs[i])
    ensures forall f, s :: (f, s) in cs <==> HookCandidate(df, (f, s))
  {
    var cs := Filter(Points(df), (p: (real, string)) => HookCandidate(df, p));
    assert forall i :: 0 <= i < |cs| ==> HookCandidate(df, cs[i]) by {
      forall i | 0 <= i < |cs| ensures HookCandidate(df, cs[i]) {
        assert cs[i] in cs;
      }
    }
    cs
  }

  /** The undiluted mean of the hook checks, when undiluted wells exist. */
  function HookReference(df: seq<Row>): (ref: Option<real>)
    ensures ref.Some? <==> exists r :: r in df && Undiluted(r)
    ensures ref.Some? ==> ref.value == Mean(BackCalcs(Filter(df, Undiluted)))
  {
    var und := Filter(df, Undiluted);
    if |und| == 0 then
      assert forall r :: r in df && Undiluted(r) ==> r in und;
      None
    else
      assert und[0] in und;
      Some(Mean(BackCalcs(und)))
  }

  /** The hook checks: none without undiluted wells; otherwise one per
      diluted point whose mean back-calculated value is positive, in point
      order. */
  function HookChecks(spec: Spec, df: seq<Row>): (hs: seq<HookCheck>)
    ensures HookReference(df).None? ==> |hs| == 0
    ensures HookReference(df).Some? ==> hs == HookSeq(spec, HookReference(df).value, df, HookCandidates(df))
  {
    var ref := HookReference(df);
    if ref.None? then [] else HookSeq(spec, ref.value, df, HookCandidates(df))
  }

  /** Every hook check belongs to a candidate point. */
  lemma HookChecksAreCandidates(spec: Spec, df: seq<Row>, i: nat)
    requires i < |HookChecks(spec, df)|
    ensures HookCandidate(df, (HookChecks(spec, df)[i].factor, HookChecks(spec, df)[i].series))
  {
    var cs := HookCandidates(df);
    var h := HookChecks(spec, df)[i];
    assert (h.factor, h.series) == cs[i];
  }

  /** With undiluted wells, every candidate point is checked. */
  lemma HookChecksCoverCandidates(spec: Spec, df: seq<Row>, f: real, s: string)
    requires HookReference(df).Some?
    requires HookCandidate(df, (f, s))
    ensures exists h :: h in HookChecks(spec, df) && h.factor == f && h.series == s
  {
    var hs := HookChecks(spec, df);
    var ref := HookReference(df).value;
    var cs := HookCandidates(df);
    assert (f, s) in cs;
    var i :| 0 <= i < |cs| && cs[i] == (f, s);
    assert hs[i] == HookOf(spec, ref, df, cs[i]);
    assert hs[i] in hs;
  }

  function Summarize(spec: Spec, df: seq<Row>, es: seq<Point>, hs: seq<HookCheck>): (rep: Report)
    ensures rep.Evaluated? && rep.perPoint == es && rep.hookChecks == hs && rep.numPoints == |es|
    ensures rep.numDilutionFactors == |NumericKeys(df, DilutionFactorKey)|
    ensures rep.seriesCountsPerFactor == SeriesCounts(df)
    ensures rep.numPass == Count(es, PointPasses) && rep.numPass <= rep.numPoints
    ensures rep.hookFailures == Count(hs, HookFails)
    ensures rep.numPoints == 0 ==> rep.passFraction == 0.0
    ensures rep.pass <==>
      && rep.numDilutionFactors >= spec.minDilutionFactors
      && EnoughSeries(rep.seriesCountsPerFactor, spec.minSeries)
      && rep.passFraction >= spec.passFraction
      && rep.hookFailures == 0
  {
    var nf := |NumericKeys(df, DilutionFactorKey)|;
    var sc := SeriesCounts(df);
    var k := Count(es, PointPasses);
    var frac := Fraction(k, |es|);
    var hf := Count(hs, HookFails);
    Evaluated(nf, sc, |es|, k, frac, hf, es, hs,
      nf >= spec.minDilutionFactors && EnoughSeries(sc, spec.minSeries) && frac >= spec.passFraction && hf == 0)
  }

  /** `eval_dilution_linearity` over factors and series. */
  function Evaluate(inp: Input, spec: Spec): (rep: Report)
    ensures rep.MissingColumns? <==> !(RequiredColumns <= inp.columns)
    ensures rep.MissingColumns? ==> rep.columns == RequiredColumns - inp.columns
    ensures rep.Evaluated? ==> rep.perPoint == PerPoint(inp.sd, spec, inp.data, Points(inp.data))
    ensures rep.Evaluated? ==> rep.hookChecks == HookChecks(spec, inp.data)
    ensures rep.Evaluated? ==> rep.numDilutionFactors == |NumericKeys(inp.data, DilutionFactorKey)|
    ensures rep.Evaluated? ==> rep.seriesCountsPerFactor == SeriesCounts(inp.data)
    ensures rep.Evaluated? ==> rep.numPass <= rep.numPoints
    ensures rep.Evaluated? ==> (rep.pass <==>
      && rep.numDilutionFactors >= spec.minDilutionFactors
      && EnoughSeries(rep.seriesCountsPerFactor, spec.minSeries)
      && rep.passFraction >= spec.passFraction
      && Count(rep.hookChecks, HookFails) == 0)
  {
    if !(RequiredColumns <= inp.columns) then MissingColumns(RequiredColumns - inp.columns)
    else
      var ps := Points(inp.data);
      assert forall i :: 0 <= i < |ps| ==> HasPoint(inp.data, ps[i].0, ps[i].1) by {
        forall i | 0 <= i < |ps| ensures HasPoint(inp.data, ps[i].0, ps[i].1) {
          assert (ps[i].0, ps[i].1) in ps;
        }
      }
      Summarize(spec, inp.data, PerPoint(inp.sd, spec, inp.data, ps), HookChecks(spec, inp.data))
  }

  /** Rows that all read one back-calculated value have that mean. */
  lemma UniformMean(g: seq<Row>, v: real)
    requires |g| > 0
    requires forall r :: r in g ==> r.backCalc == v
    ensures Mean(BackCalcs(g)) == v
  {
    var b := BackCalcs(g);
    forall j | 0 <= j < |b| ensures v <= b[j] <= v {
      assert g[j] in g;
    }
    MeanWithin(b, v, v);
  }

  /** A candidate point whose rows read the undiluted reference value
      recovers 100 %. */
  lemma HookOfMatchingPoint(spec: Spec, v: real, df: seq<Row>, p: (real, string))
    requires HookCandidate(df, p)
    requires Mean(BackCalcs(PointRows(df, p.0, p.1))) == v
    requires spec.undilutedRecoveryMinPct <= 100.0
    ensures !HookFails(HookOf(spec, v, df, p))
  {
  }

  /** When every well with a dilution factor reads one positive
      back-calculated value, no diluted point shows a hook effect for a
      minimum recovery of at most 100 %: each recovers exactly 100 %. */
  lemma UniformBackCalcHasNoHook(spec: Spec, df: seq<Row>, v: real)
    requires v > 0.0
    requires forall r :: r in df && r.dilutionFactor.Some? ==> r.backCalc == v
    requires spec.undilutedRecoveryMinPct <= 100.0
    ensures Count(HookChecks(spec, df), HookFails) == 0
  {
    var hs := HookChecks(spec, df);
    if HookReference(df).Some? {
      var und := Filter(df, Undiluted);
      UniformMean(und, v);
      var cs := HookCandidates(df);
      forall i | 0 <= i < |hs| ensures !HookFails(hs[i]) {
        var g := PointRows(df, cs[i].0, cs[i].1);
        UniformMean(g, v);
        HookOfMatchingPoint(spec, v, df, cs[i]);
      }
    }
    CountNone(hs, HookFails);
  }
}
