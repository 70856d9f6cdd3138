/** The validation accuracy verdict (`eval_accuracy`): for every required
    QC pattern, the bias of the mean back-calculated concentration from the
    mean nominal one, and the total error (bias plus CV), must lie within
    tolerances that are wider at LLOQ and ULOQ; the run passes when at
    least `min_levels` patterns pass. */
module ValidationAccuracy {
  import opened Wrappers
  import opened Seqs
  import opened Stats
  import opened Layout
  import opened TablePattern
  import opened Groups
  import opened AcceptanceUtils
  import opened QcLevels
  import AnalyticalCalibration

  /** The fields of `AccuracySpec` the evaluator reads. */
  datatype Spec = Spec(
    requiredPatterns: seq<Pattern>,
    minLevels: int,
    minReplicatesPerLevel: int,
    accTolPctMid: real,
    accTolPctEdge: real,
    totalErrorPctMid: real,
    totalErrorPctEdge: real
  )

  datatype LevelEntry =
    | TooFewReplicates(n: nat)
    | Assessed(
        n: nat,
        biasPct: Option<real>,
        cvPct: Option<real>,
        totalErrorPct: Option<real>,
        biasTol: real,
        totalTol: real,
        biasOk: bool,
        totalOk: bool,
        pass: bool
      )

  datatype Report =
    | NoQcLevelColumn
    | Missing(error: PatternError<Pattern>)
    | Evaluated(numLevels: nat, numPass: nat, minLevels: int, perLevel: map<Option<QcLevel>, LevelEntry>, pass: bool)

  predicate Pass(r: Report) {
    r.Evaluated? && r.pass
  }

  predicate EntryPasses(e: LevelEntry) {
    e.Assessed? && e.pass
  }

  /** The entry of one required pattern. */
  function AssessLevel(back: real -> real, sd: seq<real> -> real, spec: Spec, qc: seq<Row>, p: Pattern): (e: LevelEntry)
    ensures e.n == |LevelRows(qc, p)|
    ensures e.TooFewReplicates? <==> |LevelRows(qc, p)| < spec.minReplicatesPerLevel
    ensures e.Assessed? ==> e.biasPct == AnalyticalCalibration.LevelAccuracy(LevelRows(qc, p), back)
    ensures e.Assessed? ==> e.cvPct == Cv(sd, Backs(LevelRows(qc, p), back))
    ensures e.Assessed? ==> e.totalErrorPct == OptAdd(e.biasPct, e.cvPct)
    ensures e.Assessed? ==> e.biasTol == (if IsEdge(p.qcLevel) then spec.accTolPctEdge else spec.accTolPctMid)
    ensures e.Assessed? ==> e.totalTol == (if IsEdge(p.qcLevel) then spec.totalErrorPctEdge else spec.totalErrorPctMid)
    ensures e.Assessed? ==> (e.pass <==> e.biasOk && e.totalOk)
    ensures EntryPasses(e) <==>
      && |LevelRows(qc, p)| >= spec.minReplicatesPerLevel
      && AtMost(AnalyticalCalibration.LevelAccuracy(LevelRows(qc, p), back), e.biasTol)
      && AtMost(e.totalErrorPct, e.totalTol)
  {
    var g := LevelRows(qc, p);
    if |g| < spec.minReplicatesPerLevel then TooFewReplicates(|g|)
    else
      var bias := AnalyticalCalibration.LevelAccuracy(g, back);
      var cv := Cv(sd, Backs(g, back));
      var total := OptAdd(bias, cv);
      var edge := IsEdge(p.qcLevel);
      var biasTol := if edge then spec.accTolPctEdge else spec.accTolPctMid;
      var totalTol := if edge then spec.totalErrorPctEdge else spec.totalErrorPctMid;
      var biasOk := AtMost(bias, biasTol);
      var totalOk := AtMost(total, totalTol);
      Assessed(|g|, bias, cv, total, biasTol, totalTol, biasOk, totalOk, biasOk && totalOk)
  }

  /** One entry per required pattern, in order. */
  function Entries(inp: Input, spec: Spec, qc: seq<Row>): (es: seq<LevelEntry>)
    ensures |es| == |spec.requiredPatterns|
    ensures forall i :: 0 <= i < |es| ==> es[i] == AssessLevel(inp.back, inp.sd, spec, qc, spec.requiredPatterns[i])
  {
    var ps := spec.requiredPatterns;
    seq(|ps|, i requires 0 <= i < |ps| => AssessLevel(inp.back, inp.sd, spec, qc, ps[i]))
  }

  function Summarize(spec: Spec, es: seq<LevelEntry>): (rep: Report)
    requires |es| == |spec.requiredPatterns|
    ensures rep.Evaluated? && rep.minLevels == spec.minLevels
    ensures rep.numPass == Count(es, EntryPasses) && rep.numPass <= |spec.requiredPatterns|
    ensures forall l :: l in rep.perLevel <==> exists p :: p in spec.requiredPatterns && p.qcLevel == l
    ensures rep.numLevels == |rep.perLevel|
    ensures rep.pass <==> rep.numPass >= spec.minLevels
  {
    var ls := PatternLevels(spec.requiredPatterns);
    var per := KeyedLast(ls, es);
    assert forall l :: l in ls <==> exists p :: p in spec.requiredPatterns && p.qcLevel == l by {
      forall l ensures l in ls <==> exists p :: p in spec.requiredPatterns && p.qcLevel == l {
        if l in ls {
          var i :| 0 <= i < |ls| && ls[i] == l;
          assert spec.requiredPatterns[i] in spec.requiredPatterns;
        }
        if exists p :: p in spec.requiredPatterns && p.qcLevel == l {
          var p :| p in spec.requiredPatterns && p.qcLevel == l;
          var i :| 0 <= i < |spec.requiredPatterns| && spec.requiredPatterns[i] == p;
          assert ls[i] == l;
        }
      }
    }
    var k := Count(es, EntryPasses);
    Evaluated(|per|, k, spec.minLevels, per, k >= spec.minLevels)
  }

  /** `eval_accuracy`. */
  function Evaluate(inp: Input, spec: Spec): (rep: Report)
    ensures rep.NoQcLevelColumn? <==> QcLevelCol !in inp.columns
    ensures rep.Missing? <==> QcLevelCol in inp.columns && exists p :: p in spec.requiredPatterns && !Present(p, QcRows(inp.data))
    ensures rep.Missing? ==> rep.error.n > 0 && forall p :: p in rep.error.missing <==> p in spec.requiredPatterns && !Present(p, QcRows(inp.data))
    ensures rep.Evaluated? ==> rep.numPass == Count(Entries(inp, spec, QcRows(inp.data)), EntryPasses)
    ensures rep.Evaluated? ==> rep.numPass <= |spec.requiredPatterns|
    ensures rep.Evaluated? ==> forall l :: l in rep.perLevel <==> exists p :: p in spec.requiredPatterns && p.qcLevel == l
    ensures rep.Evaluated? ==> (rep.pass <==> rep.numPass >= spec.minLevels)
  {
    if QcLevelCol !in inp.columns then NoQcLevelColumn
    else
      var qc := QcRows(inp.data);
      var missing := MissingPatterns(qc, spec.requiredPatterns, Present);
      if |missing| > 0 then Missing(PatternErrorOf(missing, "Missing {n} required QC pattern(s)"))
      else Summarize(spec, Entries(inp, spec, qc))
  }

  /** The report's `per_level` entry of a QC level is that of the last
      required pattern naming the level. */
  lemma PerLevelIsLastPattern(inp: Input, spec: Spec, i: nat)
    requires Evaluate(inp, spec).Evaluated?
    requires i < |spec.requiredPatterns|
    requires forall j :: i < j < |spec.requiredPatterns| ==> spec.requiredPatterns[j].qcLevel != spec.requiredPatterns[i].qcLevel
    ensures Evaluate(inp, spec).perLevel[spec.requiredPatterns[i].qcLevel]
      == AssessLevel(inp.back, inp.sd, spec, QcRows(inp.data), spec.requiredPatterns[i])
  {
    var es := Entries(inp, spec, QcRows(inp.data));
    KeyedLastWins(PatternLevels(spec.requiredPatterns), es, i);
  }

  /** A QC level with enough replicates whose back-calculated values all
      reproduce one positive nominal concentration has zero bias and zero
      CV, so it passes under non-negative tolerances. */
  lemma ExactLevelPasses(back: real -> real, sd: seq<real> -> real, spec: Spec, qc: seq<Row>, p: Pattern)
    requires LawfulSd(sd)
    requires |LevelRows(qc, p)| >= spec.minReplicatesPerLevel
    requires |LevelRows(qc, p)| >= 2
    requires forall r :: r in qc && InLevel(p, r) ==> back(r.y) == r.x && r.x > 0.0
    requires forall r, s :: r in qc && InLevel(p, r) && s in qc && InLevel(p, s) ==> r.x == s.x
    requires spec.accTolPctEdge >= 0.0 && spec.accTolPctMid >= 0.0
    requires spec.totalErrorPctEdge >= 0.0 && spec.totalErrorPctMid >= 0.0
    ensures EntryPasses(AssessLevel(back, sd, spec, qc, p))
  {
    var g := LevelRows(qc, p);
    AnalyticalCalibration.ExactLevel(g, back);
    var vs := Backs(g, back);
    forall a, b | 0 <= a < |vs| && 0 <= b < |vs| ensures vs[a] == vs[b] {
      assert g[a] in g && g[b] in g;
    }
    CvOfAgreeingValues(sd, vs);
  }
}
