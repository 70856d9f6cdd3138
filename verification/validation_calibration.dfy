/** The validation calibration verdict (`eval_calibration_validation`):
    every calibration level must be both accurate (bias of the mean
    back-calculated concentration) and precise (CV of the back-calculated
    replicates), with wider tolerances at the lowest and highest level. */
module ValidationCalibration {
  import opened Wrappers
  import opened Seqs
  import opened Sorting
  import opened Stats
  import opened Layout
  import opened Groups
  import opened AcceptanceUtils
  import AnalyticalCalibration

  /** `CalibrationSpec`. */
  datatype Spec = Spec(
    minLevels: int,
    passFraction: real,
    accTolPctMid: real,
    accTolPctEdge: real,
    cvTolPctMid: real,
    cvTolPctEdge: real
  )

  datatype Level = Level(
    concentration: real,
    n: nat,
    biasPct: Option<real>,
    cvPct: Option<real>,
    isEdge: bool,
    biasOk: bool,
    cvOk: bool,
    pass: bool
  )

  datatype Report =
    | EmptyCalibration
      /** No row has a concentration: the empty summary table has no
          `concentration` column to index by, and the source raises. */
    | NoLevels
    | Evaluated(numLevels: nat, numPass: nat, passFraction: real, perLevel: seq<Level>, pass: bool)

  predicate Pass(r: Report) {
    r.Evaluated? && r.pass
  }

  /** The CV of a level's back-calculated values, 0 unless the level has
      more than one replicate and a non-zero mean; never NaN. */
  function LevelCv(sd: seq<real> -> real, g: seq<Row>, back: real -> real): (cv: Option<real>)
    ensures cv.Some?
    ensures |g| <= 1 ==> cv == Some(0.0)
    ensures |g| > 1 ==> cv == Cv(sd, Backs(g, back))
  {
    var vs := Backs(g, back);
    if |vs| > 1 && Mean(vs) != 0.0 then RelativePct(sd(vs), Some(Mean(vs))) else Some(0.0)
  }

  function BiasTolerance(spec: Spec, isEdge: bool): real {
    if isEdge then spec.accTolPctEdge else spec.accTolPctMid
  }

  function CvTolerance(spec: Spec, isEdge: bool): real {
    if isEdge then spec.cvTolPctEdge else spec.cvTolPctMid
  }

  /** What the entry of one level says about the calibration table. */
  predicate Describes(cal: seq<Row>, back: real -> real, sd: seq<real> -> real, spec: Spec, l: Level) {
    var g := Group(cal, ConcentrationKey, l.concentration);
    && l.n == |g|
    && (l.isEdge <==> AnalyticalCalibration.IsExtreme(NumericKeys(cal, ConcentrationKey), l.concentration))
    && l.biasPct == AnalyticalCalibration.LevelAccuracy(g, back)
    && l.cvPct == LevelCv(sd, g, back)
    && (l.biasOk <==> AtMost(l.biasPct, BiasTolerance(spec, l.isEdge)))
    && (l.cvOk <==> AtMost(l.cvPct, CvTolerance(spec, l.isEdge)))
    && (l.pass <==> l.biasOk && l.cvOk)
  }

  function EvaluateLevel(cal: seq<Row>, back: real -> real, sd: seq<real> -> real, spec: Spec, ks: seq<real>, i: nat): (l: Level)
    requires ks == NumericKeys(cal, ConcentrationKey)
    requires i < |ks|
    ensures l.concentration == ks[i]
    ensures Describes(cal, back, sd, spec, l)
  {
    var g := Group(cal, ConcentrationKey, ks[i]);
    var bias := AnalyticalCalibration.LevelAccuracy(g, back);
    var cv := LevelCv(sd, g, back);
    var edge := i == 0 || i == |ks| - 1;
    AnalyticalCalibration.EdgeIffExtreme(ks, i);
    var biasOk := AtMost(bias, BiasTolerance(spec, edge));
    var cvOk := AtMost(cv, CvTolerance(spec, edge));
    Level(ks[i], |g|, bias, cv, edge, biasOk, cvOk, biasOk && cvOk)
  }

  /** The entries name exactly the concentrations present in the table. */
  ghost predicate Covers(cal: seq<Row>, ls: seq<Level>) {
    forall c :: HasLevel(ls, c) <==> HasConcentration(cal, c)
  }

  /** Some entry is for concentration `c`. */
  predicate HasLevel(ls: seq<Level>, c: real) {
    exists i :: 0 <= i < |ls| && ls[i].concentration == c
  }

  lemma KeyedEntriesCover(cal: seq<Row>, ls: seq<Level>, ks: seq<real>)
    requires forall c :: c in ks <==> HasConcentration(cal, c)
    requires |ls| == |ks|
    requires forall i :: 0 <= i < |ls| ==> ls[i].concentration == ks[i]
    ensures Covers(cal, ls)
  {
    forall c ensures HasLevel(ls, c) <==> HasConcentration(cal, c) {
      if HasLevel(ls, c) {
        var i :| 0 <= i < |ls| && ls[i].concentration == c;
        assert c in ks;
      }
      if HasConcentration(cal, c) {
        assert c in ks;
        var i :| 0 <= i < |ks| && ks[i] == c;
        assert ls[i].concentration == c;
      }
    }
  }

  /** One entry per distinct calibration concentration, ascending. */
  function Levels(cal: seq<Row>, back: real -> real, sd: seq<real> -> real, spec: Spec): (ls: seq<Level>)
    ensures Covers(cal, ls)
    ensures forall i :: 0 <= i < |ls| ==> Describes(cal, back, sd, spec, ls[i])
    ensures |ls| == |NumericKeys(cal, ConcentrationKey)|
  {
    var ks := NumericKeys(cal, ConcentrationKey);
    var ls := seq(|ks|, i requires 0 <= i < |ks| => EvaluateLevel(cal, back, sd, spec, ks, i));
    KeysAreConcentrations(cal, ks);
    KeyedEntriesCover(cal, ls, ks);
    ls
  }

  predicate LevelPasses(l: Level) {
    l.pass
  }

  function Summarize(ls: seq<Level>, spec: Spec): (rep: Report)
    ensures rep.Evaluated? && rep.perLevel == ls && rep.numLevels == |ls|
    ensures rep.numPass == Count(ls, LevelPasses) && rep.numPass <= rep.numLevels
    ensures rep.numLevels == 0 ==> rep.passFraction == 0.0
    ensures rep.pass <==> rep.numLevels >= spec.minLevels && rep.passFraction >= spec.passFraction
  {
    var k := Count(ls, LevelPasses);
    var f := Fraction(k, |ls|);
    Evaluated(|ls|, k, f, ls, |ls| >= spec.minLevels && f >= spec.passFraction)
  }

  /** `eval_calibration_validation`. */
  function Evaluate(inp: Input, spec: Spec): (rep: Report)
    ensures rep.EmptyCalibration? <==> |inp.calib| == 0
    ensures rep.NoLevels? <==> |inp.calib| > 0 && forall r :: r in inp.calib ==> r.concentration.None?
    ensures rep.Evaluated? ==> |rep.perLevel| == rep.numLevels > 0 && Covers(inp.calib, rep.perLevel)
    ensures rep.Evaluated? ==> forall i :: 0 <= i < |rep.perLevel| ==> Describes(inp.calib, inp.back, inp.sd, spec, rep.perLevel[i])
    ensures rep.Evaluated? ==> rep.numPass == Count(rep.perLevel, LevelPasses)
    ensures rep.Evaluated? ==> (rep.pass <==> rep.numLevels >= spec.minLevels && rep.passFraction >= spec.passFraction)
  {
    if |inp.calib| == 0 then EmptyCalibration
    else
      var ks := NumericKeys(inp.calib, ConcentrationKey);
      if |ks| == 0 then
        NoLevels
      else
        assert exists r :: r in inp.calib && r.concentration.Some? by {
          assert ks[0] in ks;
        }
        Summarize(Levels(inp.calib, inp.back, inp.sd, spec), spec)
  }

  /** A back-calculation that reproduces every standard's nominal
      concentration, replicates of one concentration sharing one nominal
      value, and non-negative tolerances: every level passes, so the run
      passes exactly when it has `min_levels` levels (for a pass fraction
      of at most 1). */
  lemma {:induction false} ExactFitPasses(inp: Input, spec: Spec)
    requires LawfulSd(inp.sd)
    requires forall r :: r in inp.calib ==> inp.back(r.y) == r.x && r.x > 0.0
    requires forall r, s :: r in inp.calib && s in inp.calib && r.concentration == s.concentration ==> r.x == s.x
    requires spec.accTolPctEdge >= 0.0 && spec.accTolPctMid >= 0.0
    requires spec.cvTolPctEdge >= 0.0 && spec.cvTolPctMid >= 0.0
    requires spec.passFraction <= 1.0
    requires exists r :: r in inp.calib && r.concentration.Some?
    ensures Evaluate(inp, spec).Evaluated?
    ensures Evaluate(inp, spec).numPass == Evaluate(inp, spec).numLevels
    ensures Pass(Evaluate(inp, spec)) <==> Evaluate(inp, spec).numLevels >= spec.minLevels
  {
    var r :| r in inp.calib && r.concentration.Some?;
    var rep := Evaluate(inp, spec);
    assert !rep.NoLevels? && !rep.EmptyCalibration?;
    forall i | 0 <= i < |rep.perLevel| ensures LevelPasses(rep.perLevel[i]) {
      CoveredLevelHasRow(inp.calib, rep.perLevel, i);
      ExactFitLevelPasses(inp, spec, rep.perLevel[i]);
    }
    CountAll(rep.perLevel, LevelPasses);
  }

  /** Every entry of a covering list names a concentration some row has. */
  lemma CoveredLevelHasRow(cal: seq<Row>, ls: seq<Level>, i: nat)
    requires Covers(cal, ls) && i < |ls|
    ensures HasConcentration(cal, ls[i].concentration)
  {
    assert HasLevel(ls, ls[i].concentration);
  }

  /** One level of such a table passes. */
  lemma ExactFitLevelPasses(inp: Input, spec: Spec, l: Level)
    requires LawfulSd(inp.sd)
    requires forall r :: r in inp.calib ==> inp.back(r.y) == r.x && r.x > 0.0
    requires forall r, s :: r in inp.calib && s in inp.calib && r.concentration == s.concentration ==> r.x == s.x
    requires spec.accTolPctEdge >= 0.0 && spec.accTolPctMid >= 0.0
    requires spec.cvTolPctEdge >= 0.0 && spec.cvTolPctMid >= 0.0
    requires HasConcentration(inp.calib, l.concentration)
    requires Describes(inp.calib, inp.back, inp.sd, spec, l)
    ensures l.pass
  {
    var g := Group(inp.calib, ConcentrationKey, l.concentration);
    GroupNonEmpty(inp.calib, ConcentrationKey, l.concentration);
    AnalyticalCalibration.ExactLevel(g, inp.back);
    if |g| > 1 {
      var vs := Backs(g, inp.back);
      forall a, b | 0 <= a < |vs| && 0 <= b < |vs| ensures vs[a] == vs[b] {
        assert g[a] in g && g[b] in g;
      }
      CvOfAgreeingValues(inp.sd, vs);
    }
  }
}
