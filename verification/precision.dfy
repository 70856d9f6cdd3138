/** The validation precision verdict (`eval_precision`): for every
    required QC pattern, the CV of the back-calculated replicates, and the
    total error (CV plus the mean per-well bias), must lie within
    tolerances that are wider at LLOQ and ULOQ; the run passes when at
    least `min_levels` patterns pass. */
module ValidationPrecision {
  import opened Wrappers
  import opened Seqs
  import opened Stats
  import opened Layout
  import opened TablePattern
  import opened Groups
  import opened AcceptanceUtils
  import opened QcLevels

  /** The fields of `PrecisionSpec` the evaluator reads. */
  datatype Spec = Spec(
    requiredPatterns: seq<Pattern>,
    minLevels: int,
    minReplicatesPerLevel: int,
    cvTolPctMid: real,
    cvTolPctEdge: real,
    totalErrorPctMid: real,
    totalErrorPctEdge: real
  )

  datatype LevelEntry =
    | TooFewReplicates(n: nat)
    | Assessed(
        n: nat,
        cvPct: Option<real>,
        biasPct: Option<real>,
        totalErrorPct: Option<real>,
        cvTol: real,
        totalTol: real,
        cvOk: bool,
        totalOk: bool,
        pass: bool
      )

  datatype Report =
    | NoQcLevelColumn
    | Missing(error: PatternError<Pattern>)
    | Evaluated(numLevels: nat, numPass: nat, minLevels: int, perLevel: map<Option<QcLevel>, LevelEntry>, pass: bool)

  predicate Pass(r: Report) {
    r.Evaluated? && r.pass
  }

  predicate EntryPasses(e: LevelEntry) {
    e.Assessed? && e.pass
  }

  /** `b` is the bias of the well `r`: `|back − x|` as a percentage of
      `|x|`. */
  predicate IsRowBias(b: real, back: real -> real, r: Row) {
    IsPct(b, Abs(back(r.y) - r.x), Abs(r.x))
  }

  /** `|(back − x) / x| · 100` of a well with a non-zero nominal
      concentration. */
  function RowBias(back: real -> real, r: Row): (b: real)
    requires HasNominal(r)
    ensures b >= 0.0
    ensures IsRowBias(b, back, r)
  {
    AbsQuotientPct(back(r.y) - r.x, r.x);
    Abs((back(r.y) - r.x) / r.x) * 100.0
  }

  /** The biases of the wells with a non-zero nominal concentration, in
      order: the others give 0/0 = NaN, which the mean skips, or ±∞ (see
      `PrecisionBias`). */
  function RowBiases(g: seq<Row>, back: real -> real): (bs: seq<real>)
    ensures |bs| <= |g|
    ensures forall i :: 0 <= i < |bs| ==> bs[i] >= 0.0
    ensures (forall i :: 0 <= i < |g| ==> g[i].x != 0.0) ==> |bs| == |g|
  {
    if |g| == 0 then []
    else
      var r := g[0];
      (if HasNominal(r) then [RowBias(back, r)] else []) + RowBiases(g[1..], back)
  }

  /** Prepending a well and its bias keeps biases and wells paired. */
  lemma BiasesCons(r: Row, rest: seq<real>, nzRest: seq<Row>, back: real -> real)
    requires HasNominal(r) && |rest| == |nzRest|
    requires forall i :: 0 <= i < |rest| ==> HasNominal(nzRest[i]) && rest[i] == RowBias(back, nzRest[i])
    ensures forall i :: 0 <= i < |rest| + 1 ==>
      HasNominal(([r] + nzRest)[i]) && ([RowBias(back, r)] + rest)[i] == RowBias(back, ([r] + nzRest)[i])
  {
    forall i | 0 <= i < |rest| + 1
      ensures HasNominal(([r] + nzRest)[i]) && ([RowBias(back, r)] + rest)[i] == RowBias(back, ([r] + nzRest)[i])
    {
      if i > 0 {
        assert ([RowBias(back, r)] + rest)[i] == rest[i - 1] && ([r] + nzRest)[i] == nzRest[i - 1];
      }
    }
  }

  /** The row biases are the biases of the wells with a non-zero nominal
      concentration, one per well, in table order. */
  lemma {:induction false} RowBiasesOfNominalWells(g: seq<Row>, back: real -> real)
    ensures |RowBiases(g, back)| == |Filter(g, HasNominal)|
    ensures forall i :: 0 <= i < |RowBiases(g, back)| ==>
      HasNominal(Filter(g, HasNominal)[i]) && RowBiases(g, back)[i] == RowBias(back, Filter(g, HasNominal)[i])
  {
    if |g| > 0 {
      RowBiasesOfNominalWells(g[1..], back);
      if HasNominal(g[0]) {
        assert Filter(g, HasNominal) == [g[0]] + Filter(g[1..], HasNominal);
        assert RowBiases(g, back) == [RowBias(back, g[0])] + RowBiases(g[1..], back);
        BiasesCons(g[0], RowBiases(g[1..], back), Filter(g[1..], HasNominal), back);
      } else {
        assert Filter(g, HasNominal) == Filter(g[1..], HasNominal);
        assert RowBiases(g, back) == RowBiases(g[1..], back);
      }
    }
  }

  /** A well with nominal 0 whose back-calculated value is not 0 has an
      infinite bias. */
  predicate InfiniteBias(back: real -> real, r: Row) {
    r.x == 0.0 && back(r.y) != 0.0
  }

  /** `bias_pct.mean()`: NaN when no well has a finite bias, and +∞ —
      which no tolerance admits, reported here as `None` — when some well
      has an infinite one. */
  function PrecisionBias(g: seq<Row>, back: real -> real): (b: Option<real>)
    ensures (exists i :: 0 <= i < |g| && InfiniteBias(back, g[i])) ==> b.None?
    ensures b.Some? ==> b.value >= 0.0
    ensures !(exists i :: 0 <= i < |g| && InfiniteBias(back, g[i])) ==>
      (b.Some? <==> |RowBiases(g, back)| > 0) && (b.Some? ==> AverageOf(b.value, RowBiases(g, back)))
  {
    if exists i :: 0 <= i < |g| && InfiniteBias(back, g[i]) then None
    else
      var bs := RowBiases(g, back);
      if |bs| == 0 then None
      else
        MeanWithin(bs, 0.0, MaxOf(bs));
        MeanScales(bs);
        Some(Mean(bs))
  }

  /** The entry of one required pattern. */
  function AssessLevel(back: real -> real, sd: seq<real> -> real, spec: Spec, qc: seq<Row>, p: Pattern): (e: LevelEntry)
    ensures e.n == |LevelRows(qc, p)|
    ensures e.TooFewReplicates? <==> |LevelRows(qc, p)| < spec.minReplicatesPerLevel
    ensures e.Assessed? ==> e.cvPct == Cv(sd, Backs(LevelRows(qc, p), back))
    ensures e.Assessed? ==> e.biasPct == PrecisionBias(LevelRows(qc, p), back)
    ensures e.Assessed? ==> e.totalErrorPct == OptAdd(e.cvPct, e.biasPct)
    ensures e.Assessed? ==> e.cvTol == (if IsEdge(p.qcLevel) then spec.cvTolPctEdge else spec.cvTolPctMid)
    ensures e.Assessed? ==> e.totalTol == (if IsEdge(p.qcLevel) then spec.totalErrorPctEdge else spec.totalErrorPctMid)
    ensures e.Assessed? ==> (e.pass <==> e.cvOk && e.totalOk)
    ensures EntryPasses(e) <==>
      && |LevelRows(qc, p)| >= spec.minReplicatesPerLevel
      && AtMost(Cv(sd, Backs(LevelRows(qc, p), back)), e.cvTol)
      && AtMost(e.totalErrorPct, e.totalTol)
  {
    var g := LevelRows(qc, p);
    if |g| < spec.minReplicatesPerLevel then TooFewReplicates(|g|)
    else
      var cv := Cv(sd, Backs(g, back));
      var bias := PrecisionBias(g, back);
      var total := OptAdd(cv, bias);
      var edge := IsEdge(p.qcLevel);
      var cvTol := if edge then spec.cvTolPctEdge else spec.cvTolPctMid;
      var totalTol := if edge then spec.totalErrorPctEdge else spec.totalErrorPctMid;
      var cvOk := AtMost(cv, cvTol);
      var totalOk := AtMost(total, totalTol);
      Assessed(|g|, cv, bias, total, cvTol, totalTol, cvOk, totalOk, cvOk && totalOk)
  }

  /** One entry per required pattern, in order. */
  function Entries(inp: Input, spec: Spec, qc: seq<Row>): (es: seq<LevelEntry>)
    ensures |es| == |spec.requiredPatterns|
    ensures forall i :: 0 <= i < |es| ==> es[i] == AssessLevel(inp.back, inp.sd, spec, qc, spec.requiredPatterns[i])
  {
    var ps := spec.requiredPatterns;
    seq(|ps|, i requires 0 <= i < |ps| => AssessLevel(inp.back, inp.sd, spec, qc, ps[i]))
  }

  function Summarize(spec: Spec, es: seq<LevelEntry>): (rep: Report)
    requires |es| == |spec.requiredPatterns|
    ensures rep.Evaluated? && rep.minLevels == spec.minLevels
    ensures rep.numPass == Count(es, EntryPasses) && rep.numPass <= |spec.requiredPatterns|
    ensures forall l :: l in rep.perLevel <==> exists p :: p in spec.requiredPatterns && p.qcLevel == l
    ensures rep.numLevels == |rep.perLevel|
    ensures rep.pass <==> rep.numPass >= spec.minLevels
  {
    var ls := PatternLevels(spec.requiredPatterns);
    var per := KeyedLast(ls, es);
    assert forall l :: l in ls <==> exists p :: p in spec.requiredPatterns && p.qcLevel == l by {
      forall l ensures l in ls <==> exists p :: p in spec.requiredPatterns && p.qcLevel == l {
        if l in ls {
          var i :| 0 <= i < |ls| && ls[i] == l;
          assert spec.requiredPatterns[i] in spec.requiredPatterns;
        }
        if exists p :: p in spec.requiredPatterns && p.qcLevel == l {
          var p :| p in spec.requiredPatterns && p.qcLevel == l;
          var i :| 0 <= i < |spec.requiredPatterns| && spec.requiredPatterns[i] == p;
          assert ls[i] == l;
        }
      }
    }
    var k := Count(es, EntryPasses);
    Evaluated(|per|, k, spec.minLevels, per, k >= spec.minLevels)
  }

  /** `eval_precision`. */
  function Evaluate(inp: Input, spec: Spec): (rep: Report)
    ensures rep.NoQcLevelColumn? <==> QcLevelCol !in inp.columns
    ensures rep.Missing? <==> QcLevelCol in inp.columns && exists p :: p in spec.requiredPatterns && !Present(p, QcRows(inp.data))
    ensures rep.Missing? ==> rep.error.n > 0 && forall p :: p in rep.error.missing <==> p in spec.requiredPatterns && !Present(p, QcRows(inp.data))
    ensures rep.Evaluated? ==> rep.numPass == Count(Entries(inp, spec, QcRows(inp.data)), EntryPasses)
    ensures rep.Evaluated? ==> rep.numPass <= |spec.requiredPatterns|
    ensures rep.Evaluated? ==> forall l :: l in rep.perLevel <==> exists p :: p in spec.requiredPatterns && p.qcLevel == l
    ensures rep.Evaluated? ==> (rep.pass <==> rep.numPass >= spec.minLevels)
  {
    if QcLevelCol !in inp.columns then NoQcLevelColumn
    else
      var qc := QcRows(inp.data);
      var missing := MissingPatterns(qc, spec.requiredPatterns, Present);
      if |missing| > 0 then Missing(PatternErrorOf(missing, "Missing {n} required QC pattern(s)"))
      else Summarize(spec, Entries(inp, spec, qc))
  }

  /** Wells that reproduce their non-zero nominal value exactly have no
      bias. */
  lemma {:induction false} ExactRowBiases(g: seq<Row>, back: real -> real)
    requires forall i :: 0 <= i < |g| ==> back(g[i].y) == g[i].x && g[i].x != 0.0
    ensures forall i :: 0 <= i < |RowBiases(g, back)| ==> RowBiases(g, back)[i] == 0.0
  {
    if |g| > 0 {
      ExactRowBiases(g[1..], back);
      var bs := RowBiases(g, back);
      assert bs == [0.0] + RowBiases(g[1..], back);
    }
  }

  /** A QC level with enough replicates whose back-calculated values all
      reproduce one positive nominal concentration has zero CV and zero
      bias, so it passes under non-negative tolerances. */
  lemma ExactLevelPasses(back: real -> real, sd: seq<real> -> real, spec: Spec, qc: seq<Row>, p: Pattern)
    requires LawfulSd(sd)
    requires |LevelRows(qc, p)| >= spec.minReplicatesPerLevel
    requires |LevelRows(qc, p)| >= 2
    requires forall r :: r in qc && InLevel(p, r) ==> back(r.y) == r.x && r.x > 0.0
    requires forall r, s :: r in qc && InLevel(p, r) && s in qc && InLevel(p, s) ==> r.x == s.x
    requires spec.cvTolPctEdge >= 0.0 && spec.cvTolPctMid >= 0.0
    requires spec.totalErrorPctEdge >= 0.0 && spec.totalErrorPctMid >= 0.0
    ensures EntryPasses(AssessLevel(back, sd, spec, qc, p))
  {
    var g := LevelRows(qc, p);
    var vs := Backs(g, back);
    forall a, b | 0 <= a < |vs| && 0 <= b < |vs| ensures vs[a] == vs[b] {
      assert g[a] in g && g[b] in g;
    }
    CvOfAgreeingValues(sd, vs);
    forall i | 0 <= i < |g| ensures back(g[i].y) == g[i].x && g[i].x != 0.0 {
      assert g[i] in g;
    }
    ExactRowBiases(g, back);
    var bs := RowBiases(g, back);
    MeanWithin(bs, 0.0, 0.0);
  }
}
