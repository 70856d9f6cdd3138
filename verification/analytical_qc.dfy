/** The in-run QC verdict (`eval_qc`): a QC well is acceptable when its
    back-calculated concentration is within a relative tolerance of its
    nominal one; the run passes when enough wells pass overall and at each
    of the LOW, MID and HIGH levels. */
module AnalyticalQc {
  import opened Wrappers
  import opened Seqs
  import opened Stats
  import opened Layout
  import opened WellPattern
  import opened AcceptanceUtils

  /** The fields of `QCSpec` the evaluator reads. */
  datatype Spec = Spec(
    requiredPatterns: seq<Pattern>,
    accTolPct: real,
    passFractionTotal: real,
    passFractionEachLevel: real
  )

  datatype LevelSummary = LevelSummary(level: QcLevel, n: nat, numPass: nat, passFrac: real, meetsLevelFraction: bool)

  datatype Report =
    | Missing(error: PatternError<Pattern>)
    | Evaluated(
        totalWells: nat,
        numPass: nat,
        passFraction: real,
        perLevel: seq<LevelSummary>,
        failingWells: seq<nat>,
        pass: bool
      )

  predicate Pass(r: Report) {
    r.Evaluated? && r.pass
  }

  /** The levels summarised, in the order they are reported. */
  const Summarised: seq<QcLevel> := [Low, Mid, High]

  /** `|back-calc − x| / x · 100 ≤ acc_tol_pct`; a well with `x = 0` has no
      accuracy and is not ok. */
  predicate WellOk(back: real -> real, tol: real, r: Row) {
    AtMost(RelativePct(Abs(back(r.y) - r.x), Some(r.x)), tol)
  }

  function LevelRows(q: seq<Row>, lvl: QcLevel): (g: seq<Row>)
    ensures forall r :: r in g <==> r in q && r.qcLevel == Some(lvl)
  {
    Filter(q, (r: Row) => r.qcLevel == Some(lvl))
  }

  /** Number of acceptable wells among `g`. */
  function NumOk(back: real -> real, tol: real, g: seq<Row>): (k: nat)
    ensures k <= |g|
    ensures k == |g| <==> forall i :: 0 <= i < |g| ==> WellOk(back, tol, g[i])
  {
    var ok := (r: Row) => WellOk(back, tol, r);
    if forall i :: 0 <= i < |g| ==> WellOk(back, tol, g[i]) then
      CountAll(g, ok);
      Count(g, ok)
    else
      var k :| 0 <= k < |g| && !WellOk(back, tol, g[k]);
      CountMissesOne(g, ok, k);
      Count(g, ok)
  }

  function SummarizeLevel(back: real -> real, spec: Spec, q: seq<Row>, lvl: QcLevel): (s: LevelSummary)
    ensures s.level == lvl
    ensures s.n == |LevelRows(q, lvl)|
    ensures s.numPass == NumOk(back, spec.accTolPct, LevelRows(q, lvl))
    ensures s.n == 0 ==> s.passFrac == 0.0
    ensures s.n > 0 ==> s.passFrac == s.numPass as real / s.n as real
    ensures s.meetsLevelFraction <==> s.passFrac >= spec.passFractionEachLevel
  {
    var g := LevelRows(q, lvl);
    var k := NumOk(back, spec.accTolPct, g);
    var f := Fraction(k, |g|);
    LevelSummary(lvl, |g|, k, f, f >= spec.passFractionEachLevel)
  }

  /** A position holds a QC well at a summarised level that is not ok. */
  predicate FailingAt(back: real -> real, tol: real, data: seq<Row>, lvl: QcLevel, j: nat) {
    j < |data| && IsQc(data[j]) && data[j].qcLevel == Some(lvl) && !WellOk(back, tol, data[j])
  }

  /** A position holds a failing QC well at LOW, MID or HIGH. */
  predicate FailingAtSummarised(back: real -> real, tol: real, data: seq<Row>, j: nat) {
    exists k :: 0 <= k < 3 && FailingAt(back, tol, data, Summarised[k], j)
  }

  /** Every summarised level meets its fraction. */
  predicate AllMeet(per: seq<LevelSummary>) {
    forall k :: 0 <= k < |per| ==> per[k].meetsLevelFraction
  }

  /** Table positions of the failing wells of one level, ascending. */
  function FailingPositions(back: real -> real, tol: real, data: seq<Row>, lvl: QcLevel): (ps: seq<nat>)
    ensures forall j :: j in ps <==> FailingAt(back, tol, data, lvl, j)
  {
    var all := Range(|data|);
    forall j: nat | j < |data| ensures j in all {
      assert all[j] == j;
    }
    Filter(all, (j: nat) => FailingAt(back, tol, data, lvl, j))
  }

  /** Table positions of the failing LOW, MID and HIGH wells. */
  function AllFailing(back: real -> real, tol: real, data: seq<Row>): (ps: seq<nat>)
    ensures forall j :: j in ps <==> FailingAtSummarised(back, tol, data, j)
  {
    var ps := FailingPositions(back, tol, data, Low)
      + FailingPositions(back, tol, data, Mid)
      + FailingPositions(back, tol, data, High);
    assert forall j :: j in ps <==> FailingAtSummarised(back, tol, data, j) by {
      forall j ensures j in ps <==> FailingAtSummarised(back, tol, data, j) {
        assert Summarised[0] == Low && Summarised[1] == Mid && Summarised[2] == High;
      }
    }
    ps
  }

  /** The verdict once every required pattern is present. */
  function Assess(inp: Input, spec: Spec, q: seq<Row>): (rep: Report)
    requires q == QcRows(inp.data)
    ensures rep.Evaluated?
    ensures rep.totalWells == |q| && rep.numPass <= rep.totalWells
    ensures rep.numPass == rep.totalWells <==> forall r :: r in inp.data && IsQc(r) ==> WellOk(inp.back, spec.accTolPct, r)
    ensures |rep.perLevel| == 3 && forall k :: 0 <= k < 3 ==> rep.perLevel[k] == SummarizeLevel(inp.back, spec, q, Summarised[k])
    ensures forall j :: j in rep.failingWells <==> FailingAtSummarised(inp.back, spec.accTolPct, inp.data, j)
    ensures rep.pass <==> rep.passFraction >= spec.passFractionTotal && AllMeet(rep.perLevel)
    ensures rep.totalWells == 0 ==> rep.passFraction == 0.0
  {
    var tol := spec.accTolPct;
    var k := NumOk(inp.back, tol, q);
    assert k == |q| <==> forall r :: r in inp.data && IsQc(r) ==> WellOk(inp.back, tol, r) by {
      assert (forall i :: 0 <= i < |q| ==> WellOk(inp.back, tol, q[i])) <==> forall r :: r in q ==> WellOk(inp.back, tol, r);
    }
    var per := seq(3, k requires 0 <= k < 3 => SummarizeLevel(inp.back, spec, q, Summarised[k]));
    assert |per| == 3 && forall k :: 0 <= k < 3 ==> per[k] == SummarizeLevel(inp.back, spec, q, Summarised[k]);
    var frac := Fraction(k, |q|);
    Evaluated(|q|, k, frac, per, AllFailing(inp.back, tol, inp.data), frac >= spec.passFractionTotal && AllMeet(per))
  }

  /** `eval_qc`. */
  function Evaluate(inp: Input, spec: Spec): (rep: Report)
    ensures rep.Missing? <==> exists p :: p in spec.requiredPatterns && !Present(p, QcRows(inp.data))
    ensures rep.Missing? ==> rep.error.n > 0 && forall p :: p in rep.error.missing <==> p in spec.requiredPatterns && !Present(p, QcRows(inp.data))
    ensures rep.Evaluated? ==> rep.totalWells == |QcRows(inp.data)| && rep.numPass <= rep.totalWells
    ensures rep.Evaluated? ==> (rep.numPass == rep.totalWells <==> forall r :: r in inp.data && IsQc(r) ==> WellOk(inp.back, spec.accTolPct, r))
    ensures rep.Evaluated? ==> |rep.perLevel| == 3 && forall k :: 0 <= k < 3 ==> rep.perLevel[k] == SummarizeLevel(inp.back, spec, QcRows(inp.data), Summarised[k])
    ensures rep.Evaluated? ==> forall j :: j in rep.failingWells <==> FailingAtSummarised(inp.back, spec.accTolPct, inp.data, j)
    ensures rep.Evaluated? ==> (rep.pass <==> rep.passFraction >= spec.passFractionTotal && AllMeet(rep.perLevel))
    ensures rep.Evaluated? && rep.totalWells == 0 ==> rep.passFraction == 0.0
  {
    var q := QcRows(inp.data);
    var missing := MissingPatterns(q, spec.requiredPatterns, Present);
    if |missing| > 0 then
      Missing(PatternErrorOf(missing, "Missing {n} required QC pattern(s)"))
    else
      Assess(inp, spec, q)
  }

  /** A level with at least one well, all of them ok, meets any
      fraction up to 1. */
  lemma FullLevelMeets(inp: Input, spec: Spec, lvl: QcLevel)
    requires forall r :: r in inp.data && IsQc(r) ==> WellOk(inp.back, spec.accTolPct, r)
    requires exists r :: r in inp.data && IsQc(r) && r.qcLevel == Some(lvl)
    requires spec.passFractionEachLevel <= 1.0
    ensures SummarizeLevel(inp.back, spec, QcRows(inp.data), lvl).meetsLevelFraction
  {
    var g := LevelRows(QcRows(inp.data), lvl);
    var r :| r in inp.data && IsQc(r) && r.qcLevel == Some(lvl);
    assert r in g;
    forall i | 0 <= i < |g| ensures WellOk(inp.back, spec.accTolPct, g[i]) {
      assert g[i] in g;
    }
  }

  /** With every QC well ok, no position is reported failing. */
  lemma NoneFailing(inp: Input, spec: Spec)
    requires forall r :: r in inp.data && IsQc(r) ==> WellOk(inp.back, spec.accTolPct, r)
    ensures forall j: nat :: !FailingAtSummarised(inp.back, spec.accTolPct, inp.data, j)
  {
  }

  /** A run whose every QC well is within tolerance passes whenever each
      summarised level has at least one well and the required fractions
      are at most 1; no well is then reported failing. */
  lemma AllWellsOkPasses(inp: Input, spec: Spec)
    requires forall p :: p in spec.requiredPatterns ==> Present(p, QcRows(inp.data))
    requires forall r :: r in inp.data && IsQc(r) ==> WellOk(inp.back, spec.accTolPct, r)
    requires forall k :: 0 <= k < 3 ==> exists r :: r in inp.data && IsQc(r) && r.qcLevel == Some(Summarised[k])
    requires spec.passFractionTotal <= 1.0 && spec.passFractionEachLevel <= 1.0
    ensures Pass(Evaluate(inp, spec))
    ensures forall j :: j !in Evaluate(inp, spec).failingWells
  {
    var rep := Evaluate(inp, spec);
    forall k | 0 <= k < 3 ensures rep.perLevel[k].meetsLevelFraction {
      FullLevelMeets(inp, spec, Summarised[k]);
    }
    assert exists r :: r in inp.data && IsQc(r) && r.qcLevel == Some(Summarised[0]);
    var r0 :| r0 in inp.data && IsQc(r0) && r0.qcLevel == Some(Summarised[0]);
    assert r0 in QcRows(inp.data);
    NoneFailing(inp, spec);
  }
}
