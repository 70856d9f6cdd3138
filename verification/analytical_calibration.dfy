/** The in-run calibration verdict (`eval_calibration`): each distinct
    concentration of the calibration table is a level whose mean
    back-calculated concentration must lie within a tolerance of its mean
    nominal value, a wider one at the lowest and highest level.  The
    verdict also says whether enough levels would survive dropping the
    failing ones for the curve to be refitted. */
module AnalyticalCalibration {
  import opened Wrappers
  import opened Seqs
  import opened Sorting
  import opened Stats
  import opened Layout
  import opened TablePattern
  import opened Groups
  import opened AcceptanceUtils

  /** The fields of `AnalyticalCalibrationSpec` the evaluator reads. */
  datatype Spec = Spec(
    requiredPatterns: seq<Pattern>,
    accTolPctEdge: real,
    accTolPctMid: real,
    minLevels: int,
    minRetainedLevels: int,
    passFraction: real
  )

  datatype Level = Level(concentration: real, accPct: Option<real>, isEdge: bool, pass: bool)

  datatype Report =
    | Missing(error: PatternError<Pattern>)
    | Evaluated(
        numLevels: nat,
        numPass: nat,
        passFraction: real,
        failingLevels: seq<real>,
        perLevel: seq<Level>,
        canRefit: bool,
        pass: bool
      )

  /** The report's `pass` flag; a pattern error reports `False`. */
  predicate Pass(r: Report) {
    r.Evaluated? && r.pass
  }

  /** `|mean back-calc − mean x| / mean x · 100` over the rows of a level;
      undefined when the mean nominal concentration is 0. */
  function LevelAccuracy(g: seq<Row>, back: real -> real): (acc: Option<real>)
    ensures |g| > 0 ==> (acc.Some? <==> Mean(Xs(g)) != 0.0)
    ensures |g| > 0 && acc.Some? ==> acc.value * Mean(Xs(g)) == Abs(Mean(Backs(g, back)) - Mean(Xs(g))) * 100.0
  {
    if |g| == 0 then None
    else
      var mx := Mean(Xs(g));
      var num := Abs(Mean(Backs(g, back)) - mx);
      assert mx != 0.0 ==> RelativePct(num, Some(mx)).value * mx == num * 100.0 by {
        if mx != 0.0 {
          RelativePctScales(num, Some(mx));
        }
      }
      RelativePct(num, Some(mx))
  }

  /** `c` is the lowest or the highest key. */
  predicate IsExtreme(ks: seq<real>, c: real) {
    (forall j :: 0 <= j < |ks| ==> c <= ks[j]) || (forall j :: 0 <= j < |ks| ==> ks[j] <= c)
  }

  /** In strictly ascending keys, the extreme levels are the first and
      the last. */
  lemma EdgeIffExtreme(ks: seq<real>, i: nat)
    requires StrictlySorted(ks) && i < |ks|
    ensures i == 0 || i == |ks| - 1 <==> IsExtreme(ks, ks[i])
  {
    if 0 < i < |ks| - 1 {
      assert ks[0] < ks[i] < ks[|ks| - 1];
    }
  }

  /** The tolerance that applies to a level. */
  function Tolerance(spec: Spec, isEdge: bool): real {
    if isEdge then spec.accTolPctEdge else spec.accTolPctMid
  }

  /** The entry of the `i`-th level. */
  function EvaluateLevel(cal: seq<Row>, back: real -> real, spec: Spec, ks: seq<real>, i: nat): (l: Level)
    requires ks == NumericKeys(cal, ConcentrationKey)
    requires i < |ks|
    ensures l.concentration == ks[i]
    ensures Describes(cal, back, spec, l)
  {
    var acc := LevelAccuracy(Group(cal, ConcentrationKey, ks[i]), back);
    var edge := i == 0 || i == |ks| - 1;
    EdgeIffExtreme(ks, i);
    Level(ks[i], acc, edge, AtMost(acc, Tolerance(spec, edge)))
  }

  predicate LevelPasses(l: Level) {
    l.pass
  }

  predicate LevelFails(l: Level) {
    !l.pass
  }

  /** The concentrations of the given levels, in order. */
  function Concentrations(ls: seq<Level>): (cs: seq<real>)
    ensures |cs| == |ls|
    ensures forall c :: c in cs <==> exists l :: l in ls && l.concentration == c
  {
    var cs := seq(|ls|, i requires 0 <= i < |ls| => ls[i].concentration);
    assert forall c :: c in cs <==> exists l :: l in ls && l.concentration == c by {
      forall c ensures c in cs <==> exists l :: l in ls && l.concentration == c {
        if c in cs {
          var i :| 0 <= i < |cs| && cs[i] == c;
          assert ls[i] in ls;
        }
        if exists l :: l in ls && l.concentration == c {
          var l :| l in ls && l.concentration == c;
          var i :| 0 <= i < |ls| && ls[i] == l;
          assert cs[i] == c;
        }
      }
    }
    cs
  }

  /** What the entry of one level says about the calibration table. */
  predicate Describes(cal: seq<Row>, back: real -> real, spec: Spec, l: Level) {
    && (l.isEdge <==> IsExtreme(NumericKeys(cal, ConcentrationKey), l.concentration))
    && l.accPct == LevelAccuracy(Group(cal, ConcentrationKey, l.concentration), back)
    && (l.pass <==> AtMost(l.accPct, Tolerance(spec, l.isEdge)))
  }

  /** The entries name exactly the concentrations present in the table. */
  ghost predicate Covers(cal: seq<Row>, ls: seq<Level>) {
    forall c :: HasLevel(ls, c) <==> HasConcentration(cal, c)
  }

  /** Some entry is for concentration `c`. */
  predicate HasLevel(ls: seq<Level>, c: real) {
    exists i :: 0 <= i < |ls| && ls[i].concentration == c
  }

  /** One entry per distinct calibration concentration, ascending. */
  function Levels(cal: seq<Row>, back: real -> real, spec: Spec): (ls: seq<Level>)
    ensures Covers(cal, ls)
    ensures forall i :: 0 <= i < |ls| ==> Describes(cal, back, spec, ls[i])
    ensures |ls| == |NumericKeys(cal, ConcentrationKey)|
  {
    var ks := NumericKeys(cal, ConcentrationKey);
    var ls := seq(|ks|, i requires 0 <= i < |ks| => EvaluateLevel(cal, back, spec, ks, i));
    KeysAreConcentrations(cal, ks);
    KeyedEntriesCover(cal, ls, ks);
    ls
  }

  lemma KeyedEntriesCover(cal: seq<Row>, ls: seq<Level>, ks: seq<real>)
    requires forall c :: c in ks <==> HasConcentration(cal, c)
    requires |ls| == |ks|
    requires forall i :: 0 <= i < |ls| ==> ls[i].concentration == ks[i]
    ensures Covers(cal, ls)
  {
    forall c ensures HasLevel(ls, c) <==> HasConcentration(cal, c) {
      if HasLevel(ls, c) {
        var i :| 0 <= i < |ls| && ls[i].concentration == c;
        assert c in ks;
      }
      if HasConcentration(cal, c) {
        assert c in ks;
        var i :| 0 <= i < |ks| && ks[i] == c;
        assert ls[i].concentration == c;
      }
    }
  }

  /** The counts and the refit decision drawn from the level entries. */
  function Summarize(ls: seq<Level>, spec: Spec): (rep: Report)
    ensures rep.Evaluated? && rep.perLevel == ls && rep.numLevels == |ls|
    ensures rep.numPass + |rep.failingLevels| == rep.numLevels
    ensures |rep.failingLevels| == Count(ls, LevelFails)
    ensures forall c :: c in rep.failingLevels <==> exists i :: 0 <= i < |ls| && !ls[i].pass && ls[i].concentration == c
    ensures rep.canRefit <==> rep.numLevels - |rep.failingLevels| >= spec.minRetainedLevels
    ensures rep.pass <==> rep.canRefit && rep.passFraction >= spec.passFraction && |rep.failingLevels| == 0 && rep.numLevels >= spec.minLevels
    ensures rep.numLevels == 0 ==> rep.passFraction == 0.0
  {
    var nPass := Count(ls, LevelPasses);
    var failed := Filter(ls, LevelFails);
    var failing := Concentrations(failed);
    FilterPartition(ls, LevelPasses, LevelFails);
    var frac := Fraction(nPass, |ls|);
    var canRefit := |ls| - |failing| >= spec.minRetainedLevels;
    Evaluated(|ls|, nPass, frac, failing, ls, canRefit,
      canRefit && frac >= spec.passFraction && |failing| == 0 && |ls| >= spec.minLevels)
  }

  /** `eval_calibration`. */
  function Evaluate(inp: Input, spec: Spec): (rep: Report)
    ensures rep.Missing? <==> exists p :: p in spec.requiredPatterns && !Present(p, inp.calib)
    ensures rep.Missing? ==> rep.error.n > 0 && forall p :: p in rep.error.missing <==> p in spec.requiredPatterns && !Present(p, inp.calib)
    ensures rep.Evaluated? ==> |rep.perLevel| == rep.numLevels && Covers(inp.calib, rep.perLevel)
    ensures rep.Evaluated? ==> forall i :: 0 <= i < |rep.perLevel| ==> Describes(inp.calib, inp.back, spec, rep.perLevel[i])
    ensures rep.Evaluated? ==> rep.numPass + |rep.failingLevels| == rep.numLevels
    ensures rep.Evaluated? ==> forall c :: c in rep.failingLevels <==> exists i :: 0 <= i < |rep.perLevel| && !rep.perLevel[i].pass && rep.perLevel[i].concentration == c
    ensures rep.Evaluated? ==> (rep.canRefit <==> rep.numLevels - |rep.failingLevels| >= spec.minRetainedLevels)
    ensures rep.Evaluated? && rep.pass ==> rep.canRefit && |rep.failingLevels| == 0 && rep.numLevels >= spec.minLevels
    ensures rep.Evaluated? && rep.numLevels == 0 ==> rep.passFraction == 0.0
  {
    var missing := MissingPatterns(inp.calib, spec.requiredPatterns, Present);
    if |missing| > 0 then
      Missing(PatternErrorOf(missing, "Missing {n} required calibration pattern(s)"))
    else
      Summarize(Levels(inp.calib, inp.back, spec), spec)
  }

  /** Equal sequences have equal means; a sequence of positive values has
      a positive mean. */
  lemma PositiveMean(s: seq<real>)
    requires |s| > 0
    requires forall i :: 0 <= i < |s| ==> s[i] > 0.0
    ensures Mean(s) > 0.0
  {
    MeanWithin(s, MinOf(s), MaxOf(s));
  }

  /** A level whose back-calculated values equal its nominal values has
      zero accuracy error. */
  lemma ExactLevel(g: seq<Row>, back: real -> real)
    requires |g| > 0
    requires forall r :: r in g ==> back(r.y) == r.x && r.x > 0.0
    ensures LevelAccuracy(g, back) == Some(0.0)
  {
    assert Backs(g, back) == Xs(g);
    PositiveMean(Xs(g));
    RelativePctOfZero(Some(Mean(Xs(g))));
  }

  /** With a back-calculation that reproduces every standard's nominal
      concentration and non-negative tolerances, no level fails: every
      level counts as passing and refitting is possible exactly when there
      are at least `min_retained_levels` levels. */
  lemma {:induction false} ExactFitKeepsEveryLevel(inp: Input, spec: Spec)
    requires forall r :: r in inp.calib ==> inp.back(r.y) == r.x && r.x > 0.0
    requires spec.accTolPctEdge >= 0.0 && spec.accTolPctMid >= 0.0
    requires forall p :: p in spec.requiredPatterns ==> Present(p, inp.calib)
    ensures Evaluate(inp, spec).Evaluated?
    ensures |Evaluate(inp, spec).failingLevels| == 0
    ensures Evaluate(inp, spec).numPass == Evaluate(inp, spec).numLevels
    ensures Evaluate(inp, spec).canRefit <==> Evaluate(inp, spec).numLevels >= spec.minRetainedLevels
  {
    var ls := Levels(inp.calib, inp.back, spec);
    forall i | 0 <= i < |ls| ensures !LevelFails(ls[i]) {
      var l := ls[i];
      assert l in ls;
      var g := Group(inp.calib, ConcentrationKey, l.concentration);
      GroupNonEmpty(inp.calib, ConcentrationKey, l.concentration);
      ExactLevel(g, inp.back);
    }
    CountNone(ls, LevelFails);
  }
}
