/** The validation dilution-linearity verdict over level indices
    (`eval_dilution_linearity` in the validation engine): every dilution
    level of the in-range QC wells must back-calculate to its nominal mean
    with a small CV, enough levels must be present, and every above-ULOQ QC
    well must read above the highest calibration concentration while
    recovering enough of its nominal value (no hook effect). */
module ValidationDilution {
  import opened Wrappers
  import opened Seqs
  import opened Stats
  import opened Layout
  import opened TablePattern
  import opened Groups
  import opened AcceptanceUtils

  /** The spec fields the evaluator reads. */
  datatype Spec = Spec(
    requiredPatterns: seq<Pattern>,
    minReplicates: int,
    accTolPct: real,
    cvTolPct: real,
    minDilutions: int,
    undilutedRecoveryMinPct: real
  )

  datatype Point =
    | TooFewReplicates(levelIdx: real, n: nat)
    | Assessed(levelIdx: real, n: nat, accPct: real, cvPct: Option<real>, accOk: bool, cvOk: bool, pass: bool)

  datatype HookCheck = HookCheck(
    well: string,
    x: real,
    backCalc: real,
    recoveryPct: Option<real>,
    uloqConc: Option<real>,
    aboveUloq: bool,
    recoveryOk: bool,
    hookOk: bool
  )

  datatype Report =
    | Missing(error: PatternError<Pattern>)
    | Evaluated(
        numDilutionLevels: nat,
        numPoints: nat,
        numPass: nat,
        hookFailures: nat,
        perPoint: seq<Point>,
        hookChecks: seq<HookCheck>,
        pass: bool
      )

  predicate Pass(r: Report) {
    r.Evaluated? && r.pass
  }

  predicate PointPasses(p: Point) {
    p.Assessed? && p.pass
  }

  predicate HookFails(h: HookCheck) {
    !h.hookOk
  }

  /** A QC well whose level lies within the calibration range. */
  predicate InRangeQc(r: Row) {
    IsQc(r) && r.qcLevel.Some? && r.qcLevel.value != AboveUloq
  }

  predicate AboveUloqQc(r: Row) {
    IsQc(r) && r.qcLevel == Some(AboveUloq)
  }

  /** The in-range QC wells of one dilution level. */
  function LevelRows(data: seq<Row>, l: real): (g: seq<Row>)
    ensures forall r :: r in g <==> r in data && InRangeQc(r) && LevelIdxKey(r) == Some(l)
  {
    Group(Filter(data, InRangeQc), LevelIdxKey, l)
  }

  /** The dilution levels of the in-range QC wells, ascending. */
  function Levels(data: seq<Row>): (ls: seq<real>)
    ensures forall l :: l in ls <==> exists r :: r in data && InRangeQc(r) && LevelIdxKey(r) == Some(l)
    ensures forall l :: l in ls ==> |LevelRows(data, l)| > 0
  {
    var ls := NumericKeys(Filter(data, InRangeQc), LevelIdxKey);
    forall l | l in ls ensures |LevelRows(data, l)| > 0 {
      var r :| r in Filter(data, InRangeQc) && LevelIdxKey(r) == Some(l);
      assert r in LevelRows(data, l);
    }
    ls
  }

  /** `compute_relative_pct_scalar(|observed − expected|, expected) or 0.0`:
      the accuracy deviation of the level, 0 when the nominal mean is 0. */
  function LevelAccuracy(g: seq<Row>, back: real -> real): (a: real)
    requires |g| > 0
    ensures Mean(Xs(g)) == 0.0 ==> a == 0.0
    ensures Mean(Xs(g)) != 0.0 ==> a * Mean(Xs(g)) == Abs(Mean(Backs(g, back)) - Mean(Xs(g))) * 100.0
    ensures Mean(Xs(g)) > 0.0 ==> a >= 0.0
  {
    var expected := Mean(Xs(g));
    var num := Abs(Mean(Backs(g, back)) - expected);
    if expected == 0.0 then 0.0
    else
      RelativePctScales(num, Some(expected));
      RelativePct(num, Some(expected)).value
  }

  /** The entry of one dilution level. */
  function AssessLevel(back: real -> real, sd: seq<real> -> real, spec: Spec, data: seq<Row>, l: real): (p: Point)
    requires |LevelRows(data, l)| > 0
    ensures p.levelIdx == l && p.n == |LevelRows(data, l)|
    ensures p.TooFewReplicates? <==> |LevelRows(data, l)| < spec.minReplicates
    ensures p.Assessed? ==> p.accPct == LevelAccuracy(LevelRows(data, l), back)
    ensures p.Assessed? ==> p.cvPct == Cv(sd, Backs(LevelRows(data, l), back))
    ensures p.Assessed? ==> (p.accOk <==> p.accPct <= spec.accTolPct) && (p.cvOk <==> AtMost(p.cvPct, spec.cvTolPct))
    ensures PointPasses(p) <==>
      && |LevelRows(data, l)| >= spec.minReplicates
      && LevelAccuracy(LevelRows(data, l), back) <= spec.accTolPct
      && AtMost(Cv(sd, Backs(LevelRows(data, l), back)), spec.cvTolPct)
  {
    var g := LevelRows(data, l);
    if |g| < spec.minReplicates then TooFewReplicates(l, |g|)
    else
      var acc := LevelAccuracy(g, back);
      var cv := Cv(sd, Backs(g, back));
      var accOk := acc <= spec.accTolPct;
      var cvOk := AtMost(cv, spec.cvTolPct);
      Assessed(l, |g|, acc, cv, accOk, cvOk, accOk && cvOk)
  }

  function PerPoint(back: real -> real, sd: seq<real> -> real, spec: Spec, data: seq<Row>): (es: seq<Point>)
    ensures |es| == |Levels(data)|
    ensures forall i :: 0 <= i < |es| ==> es[i] == AssessLevel(back, sd, spec, data, Levels(data)[i])
  {
    var ls := Levels(data);
    seq(|ls|, i requires 0 <= i < |ls| => AssessLevel(back, sd, spec, data, ls[i]))
  }

  /** The hook check of one above-ULOQ well: its back-calculated value
      must exceed the ULOQ concentration, and recover at least the minimum
      percentage of its nominal value. */
  function HookOf(back: real -> real, spec: Spec, uloq: Option<real>, r: Row): (h: HookCheck)
    ensures h.well == r.well && h.x == r.x && h.backCalc == back(r.y) && h.uloqConc == uloq
    ensures h.recoveryPct == RelativePct(back(r.y), Some(r.x))
    ensures h.aboveUloq <==> uloq.Some? && back(r.y) > uloq.value
    ensures h.hookOk <==> h.aboveUloq && h.recoveryOk
  {
    var b := back(r.y);
    var rec := RelativePct(b, Some(r.x));
    var above := uloq.Some? && b > uloq.value;
    var recOk := AtLeast(rec, spec.undilutedRecoveryMinPct);
    HookCheck(r.well, r.x, b, rec, uloq, above, recOk, above && recOk)
  }

  /** For a positive nominal value, the recovery is sufficient exactly
      when the back-calculated value reaches the minimum percentage of the
      nominal one. */
  lemma RecoveryOkIff(back: real -> real, spec: Spec, uloq: Option<real>, r: Row)
    requires r.x > 0.0
    ensures HookOf(back, spec, uloq, r).recoveryOk <==> back(r.y) * 100.0 >= spec.undilutedRecoveryMinPct * r.x
  {
    var rec := RelativePct(back(r.y), Some(r.x)).value;
    RelativePctScales(back(r.y), Some(r.x));
    assert rec * r.x == back(r.y) * 100.0;
    if rec >= spec.undilutedRecoveryMinPct {
      assert rec * r.x >= spec.undilutedRecoveryMinPct * r.x;
    } else {
      assert rec * r.x < spec.undilutedRecoveryMinPct * r.x;
    }
  }

  function HookChecks(back: real -> real, spec: Spec, data: seq<Row>, uloq: Option<real>): (hs: seq<HookCheck>)
    ensures |hs| == |Filter(data, AboveUloqQc)|
    ensures forall i :: 0 <= i < |hs| ==> hs[i] == HookOf(back, spec, uloq, Filter(data, AboveUloqQc)[i])
  {
    var ws := Filter(data, AboveUloqQc);
    seq(|ws|, i requires 0 <= i < |ws| => HookOf(back, spec, uloq, ws[i]))
  }

  function Summarize(spec: Spec, data: seq<Row>, es: seq<Point>, hs: seq<HookCheck>): (rep: Report)
    ensures rep.Evaluated? && rep.perPoint == es && rep.hookChecks == hs && rep.numPoints == |es|
    ensures rep.numDilutionLevels == |NumericKeys(data, LevelIdxKey)|
    ensures rep.numPass == Count(es, PointPasses) && rep.hookFailures == Count(hs, HookFails)
    ensures rep.pass <==>
      && rep.numDilutionLevels >= spec.minDilutions
      && (forall i :: 0 <= i < |es| ==> PointPasses(es[i]))
      && rep.hookFailures == 0
  {
    var nl := |NumericKeys(data, LevelIdxKey)|;
    var k := Count(es, PointPasses);
    var hf := Count(hs, HookFails);
    CountIsLengthIff(es, PointPasses);
    Evaluated(nl, |es|, k, hf, es, hs, nl >= spec.minDilutions && k == |es| && hf == 0)
  }

  /** The validation `eval_dilution_linearity`. */
  function Evaluate(inp: Input, spec: Spec): (rep: Report)
    ensures rep.Missing? <==> exists p :: p in spec.requiredPatterns && !Present(p, inp.data)
    ensures rep.Missing? ==> rep.error.n > 0 && forall p :: p in rep.error.missing <==> p in spec.requiredPatterns && !Present(p, inp.data)
    ensures rep.Evaluated? ==> rep.perPoint == PerPoint(inp.back, inp.sd, spec, inp.data)
    ensures rep.Evaluated? ==> rep.hookChecks == HookChecks(inp.back, spec, inp.data, UloqConcentration(inp.calib))
    ensures rep.Evaluated? ==> rep.numDilutionLevels == |NumericKeys(inp.data, LevelIdxKey)|
    ensures rep.Evaluated? ==> (rep.pass <==>
      && rep.numDilutionLevels >= spec.minDilutions
      && (forall i :: 0 <= i < |rep.perPoint| ==> PointPasses(rep.perPoint[i]))
      && Count(rep.hookChecks, HookFails) == 0)
  {
    var missing := MissingPatterns(inp.data, spec.requiredPatterns, Present);
    if |missing| > 0 then Missing(PatternErrorOf(missing, "Missing {n} required dilution pattern(s)"))
    else
      var es := PerPoint(inp.back, inp.sd, spec, inp.data);
      var hs := HookChecks(inp.back, spec, inp.data, UloqConcentration(inp.calib));
      Summarize(spec, inp.data, es, hs)
  }

  /** A level whose wells all back-calculate exactly to one positive
      nominal value, with at least two of them, passes under non-negative
      tolerances. */
  lemma ExactLevelPasses(back: real -> real, sd: seq<real> -> real, spec: Spec, data: seq<Row>, l: real, c: real)
    requires LawfulSd(sd)
    requires c > 0.0
    requires |LevelRows(data, l)| >= spec.minReplicates
    requires |LevelRows(data, l)| >= 2
    requires forall r :: r in data && InRangeQc(r) && LevelIdxKey(r) == Some(l) ==> r.x == c && back(r.y) == c
    requires spec.accTolPct >= 0.0 && spec.cvTolPct >= 0.0
    ensures PointPasses(AssessLevel(back, sd, spec, data, l))
  {
    var g := LevelRows(data, l);
    var xs := Xs(g);
    var bs := Backs(g, back);
    forall i | 0 <= i < |g| ensures c <= xs[i] <= c && c <= bs[i] <= c {
      assert g[i] in g;
    }
    MeanWithin(xs, c, c);
    MeanWithin(bs, c, c);
    CvOfAgreeingValues(sd, bs);
  }

  /** An above-ULOQ well whose back-calculated value exceeds the highest
      calibration concentration and recovers its whole nominal value shows
      no hook effect for a minimum recovery of at most 100 %. */
  lemma FullRecoveryAboveUloqHasNoHook(back: real -> real, spec: Spec, calib: seq<Row>, r: Row)
    requires r.x > 0.0 && back(r.y) >= r.x
    requires UloqConcentration(calib).Some? && back(r.y) > UloqConcentration(calib).value
    requires spec.undilutedRecoveryMinPct <= 100.0
    ensures !HookFails(HookOf(back, spec, UloqConcentration(calib), r))
  {
    RecoveryOkIff(back, spec, UloqConcentration(calib), r);
  }
}
