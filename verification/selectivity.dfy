/** The validation selectivity verdict (`eval_selectivity` and
    `evaluate_source_group`): for every matrix source, the blank must read
    below the LLOQ calibration signal and the LLOQ and HIGH QCs spiked into
    that matrix must back-calculate within their accuracy tolerances; the
    run passes when enough sources pass and there are enough sources. */
module ValidationSelectivity {
  import opened Wrappers
  import opened Seqs
  import opened Stats
  import opened Layout
  import opened TablePattern
  import opened Groups
  import opened AcceptanceUtils

  /** The fields of `ValidationSelectivitySpec` the evaluator reads. */
  datatype Spec = Spec(
    requiredPatterns: seq<Pattern>,
    minSources: int,
    passFraction: real,
    accTolPctLloq: real,
    accTolPctHigh: real
  )

  datatype SourceEntry = SourceEntry(
    sourceId: string,
    matrixType: string,
    blankSignal: Option<real>,
    blankOk: bool,
    lloqAccPct: Option<real>,
    lloqOk: bool,
    highAccPct: Option<real>,
    highOk: bool,
    pass: bool
  )

  datatype Report =
    | Missing(error: PatternError<Pattern>)
    | NoLloqSignal
    | Evaluated(
        numSources: nat,
        numPassed: nat,
        passFraction: real,
        matrixTypes: map<string, nat>,
        perSource: seq<SourceEntry>,
        pass: bool
      )

  predicate Pass(r: Report) {
    r.Evaluated? && r.pass
  }

  predicate SourcePasses(e: SourceEntry) {
    e.pass
  }

  function SourceKey(r: Row): Option<string> {
    r.matrixSourceId
  }

  /** `matrix_type.fillna("normal")`. */
  function MatrixType(r: Row): string {
    r.matrixType.GetOr("normal")
  }

  /** The relative error `|back − x| / x · 100` of a well with a
      non-zero nominal concentration: `|back − x|` as a percentage of `x`
      (negative for a negative nominal value, as the source divides by the
      signed `x`). */
  function RelativeError(back: real -> real, r: Row): (e: real)
    requires HasNominal(r)
    ensures IsPct(e, Abs(back(r.y) - r.x), r.x)
  {
    RelativePctScales(Abs(back(r.y) - r.x), Some(r.x));
    RelativePct(Abs(back(r.y) - r.x), Some(r.x)).value
  }

  /** The relative error of every well with a non-zero nominal
      concentration, in order; a well with nominal 0 has none (NaN), which
      the mean skips. */
  function RelativeErrors(g: seq<Row>, back: real -> real): (es: seq<real>)
    ensures |es| <= |g|
    ensures (forall i :: 0 <= i < |g| ==> g[i].x != 0.0) ==> |es| == |g|
  {
    if |g| == 0 then []
    else
      var r := g[0];
      (if HasNominal(r) then [RelativeError(back, r)] else []) + RelativeErrors(g[1..], back)
  }

  /** Prepending a well and its error keeps errors and wells paired. */
  lemma ErrorsCons(r: Row, rest: seq<real>, nzRest: seq<Row>, back: real -> real)
    requires HasNominal(r) && |rest| == |nzRest|
    requires forall i :: 0 <= i < |rest| ==> HasNominal(nzRest[i]) && rest[i] == RelativeError(back, nzRest[i])
    ensures forall i :: 0 <= i < |rest| + 1 ==>
      HasNominal(([r] + nzRest)[i]) && ([RelativeError(back, r)] + rest)[i] == RelativeError(back, ([r] + nzRest)[i])
  {
    forall i | 0 <= i < |rest| + 1
      ensures HasNominal(([r] + nzRest)[i]) && ([RelativeError(back, r)] + rest)[i] == RelativeError(back, ([r] + nzRest)[i])
    {
      if i > 0 {
        assert ([RelativeError(back, r)] + rest)[i] == rest[i - 1] && ([r] + nzRest)[i] == nzRest[i - 1];
      }
    }
  }

  /** The relative errors are those of the wells with a non-zero nominal
      concentration, one per well, in table order. */
  lemma {:induction false} RelativeErrorsOfNominalWells(g: seq<Row>, back: real -> real)
    ensures |RelativeErrors(g, back)| == |Filter(g, HasNominal)|
    ensures forall i :: 0 <= i < |RelativeErrors(g, back)| ==>
      HasNominal(Filter(g, HasNominal)[i]) && RelativeErrors(g, back)[i] == RelativeError(back, Filter(g, HasNominal)[i])
  {
    if |g| > 0 {
      RelativeErrorsOfNominalWells(g[1..], back);
      if HasNominal(g[0]) {
        assert Filter(g, HasNominal) == [g[0]] + Filter(g[1..], HasNominal);
        assert RelativeErrors(g, back) == [RelativeError(back, g[0])] + RelativeErrors(g[1..], back);
        ErrorsCons(g[0], RelativeErrors(g[1..], back), Filter(g[1..], HasNominal), back);
      } else {
        assert Filter(g, HasNominal) == Filter(g[1..], HasNominal);
        assert RelativeErrors(g, back) == RelativeErrors(g[1..], back);
      }
    }
  }

  /** The mean relative error of a group of QC wells: NaN (`None`) when
      no well has one, in particular for an empty group. */
  function MeanAccuracy(g: seq<Row>, back: real -> real): (a: Option<real>)
    ensures |g| == 0 ==> a.None?
    ensures (forall i :: 0 <= i < |g| ==> g[i].x != 0.0) ==> (a.Some? <==> |g| > 0)
    ensures a.Some? <==> |RelativeErrors(g, back)| > 0
    ensures a.Some? ==> AverageOf(a.value, RelativeErrors(g, back))
  {
    var es := RelativeErrors(g, back);
    if |es| == 0 then None
    else
      MeanScales(es);
      Some(Mean(es))
  }

  predicate IsQcAt(lvl: QcLevel, r: Row) {
    IsQc(r) && r.qcLevel == Some(lvl)
  }

  function QcAt(sub: seq<Row>, lvl: QcLevel): (g: seq<Row>)
    ensures forall r :: r in g <==> r in sub && IsQcAt(lvl, r)
  {
    Filter(sub, (r: Row) => IsQcAt(lvl, r))
  }

  function Blanks(sub: seq<Row>): (g: seq<Row>)
    ensures forall r :: r in g <==> r in sub && IsBlank(r)
  {
    Filter(sub, IsBlank)
  }

  /** `evaluate_source_group` on the rows `sub` of one matrix source. */
  function EvaluateSource(back: real -> real, spec: Spec, lloq: real, sid: string, sub: seq<Row>): (e: SourceEntry)
    requires |sub| > 0
    ensures e.sourceId == sid && e.matrixType == MatrixType(sub[0])
    ensures e.blankSignal == MeanOpt(Signals(Blanks(sub)))
    ensures e.blankOk <==> Below(e.blankSignal, lloq)
    ensures e.lloqAccPct == MeanAccuracy(QcAt(sub, Lloq), back)
    ensures e.lloqOk <==> AtMost(e.lloqAccPct, spec.accTolPctLloq)
    ensures e.highAccPct == MeanAccuracy(QcAt(sub, High), back)
    ensures e.highOk <==> AtMost(e.highAccPct, spec.accTolPctHigh)
    ensures e.pass <==> e.blankOk && e.lloqOk && e.highOk
    ensures e.pass ==> |Blanks(sub)| > 0 && |QcAt(sub, Lloq)| > 0 && |QcAt(sub, High)| > 0
  {
    var bs := MeanOpt(Signals(Blanks(sub)));
    var la := MeanAccuracy(QcAt(sub, Lloq), back);
    var ha := MeanAccuracy(QcAt(sub, High), back);
    var blankOk := Below(bs, lloq);
    var lloqOk := AtMost(la, spec.accTolPctLloq);
    var highOk := AtMost(ha, spec.accTolPctHigh);
    SourceEntry(sid, MatrixType(sub[0]), bs, blankOk, la, lloqOk, ha, highOk, blankOk && lloqOk && highOk)
  }

  /** One entry per matrix source, in order of first appearance; rows
      without a source belong to none. */
  function Sources(inp: Input, spec: Spec, lloq: real): (es: seq<SourceEntry>)
    ensures |es| == |FirstKeys(inp.data, SourceKey)|
    ensures forall i :: 0 <= i < |es| ==>
      var sid := FirstKeys(inp.data, SourceKey)[i];
      |Group(inp.data, SourceKey, sid)| > 0 && es[i] == EvaluateSource(inp.back, spec, lloq, sid, Group(inp.data, SourceKey, sid))
  {
    var ids := FirstKeys(inp.data, SourceKey);
    seq(|ids|, i requires 0 <= i < |ids| =>
      GroupNonEmpty(inp.data, SourceKey, ids[i]);
      EvaluateSource(inp.back, spec, lloq, ids[i], Group(inp.data, SourceKey, ids[i])))
  }

  predicate HasType(t: string, e: SourceEntry) {
    e.matrixType == t
  }

  /** Some entry has matrix type `t`. */
  predicate Typed(es: seq<SourceEntry>, t: string) {
    exists i :: 0 <= i < |es| && HasType(t, es[i])
  }

  /** `matrix_type_counts`: how many sources have each matrix type. */
  function TypeCounts(es: seq<SourceEntry>): (m: map<string, nat>)
    ensures forall t :: t in m <==> Typed(es, t)
  {
    if |es| == 0 then map[]
    else
      var m := TypeCounts(es[1..]);
      var t := es[0].matrixType;
      assert forall u :: Typed(es, u) <==> u == t || Typed(es[1..], u) by {
        forall u | Typed(es, u) ensures u == t || Typed(es[1..], u) {
          var i :| 0 <= i < |es| && HasType(u, es[i]);
          if i > 0 {
            assert HasType(u, es[1..][i - 1]);
          }
        }
        forall u | Typed(es[1..], u) ensures Typed(es, u) {
          var i :| 0 <= i < |es[1..]| && HasType(u, es[1..][i]);
          assert HasType(u, es[i + 1]);
        }
      }
      m[t := (if t in m then m[t] else 0) + 1]
  }

  /** Each matrix type is counted once per source of that type. */
  lemma {:induction false} TypeCountsCount(es: seq<SourceEntry>, t: string)
    requires t in TypeCounts(es)
    ensures TypeCounts(es)[t] == Count(es, (e: SourceEntry) => HasType(t, e))
  {
    var p := (e: SourceEntry) => HasType(t, e);
    var m := TypeCounts(es[1..]);
    if t in m {
      TypeCountsCount(es[1..], t);
    } else if |es[1..]| > 0 {
      forall i | 0 <= i < |es[1..]| ensures !p(es[1..][i]) {
      }
      CountNone(es[1..], p);
    }
  }

  function Summarize(spec: Spec, es: seq<SourceEntry>): (rep: Report)
    ensures rep.Evaluated? && rep.perSource == es && rep.numSources == |es|
    ensures rep.numPassed == Count(es, SourcePasses) && rep.numPassed <= rep.numSources
    ensures rep.numSources == 0 ==> rep.passFraction == 0.0
    ensures rep.matrixTypes == TypeCounts(es)
    ensures rep.pass <==> rep.passFraction >= spec.passFraction && rep.numSources >= spec.minSources
  {
    var k := Count(es, SourcePasses);
    var f := Fraction(k, |es|);
    Evaluated(|es|, k, f, TypeCounts(es), es, f >= spec.passFraction && |es| >= spec.minSources)
  }

  /** `eval_selectivity`. */
  function Evaluate(inp: Input, spec: Spec): (rep: Report)
    ensures rep.Missing? <==> exists p :: p in spec.requiredPatterns && !Present(p, inp.data)
    ensures rep.Missing? ==> rep.error.n > 0 && forall p :: p in rep.error.missing <==> p in spec.requiredPatterns && !Present(p, inp.data)
    ensures rep.NoLloqSignal? <==>
      && (forall p :: p in spec.requiredPatterns ==> Present(p, inp.data))
      && forall r :: r in inp.calib ==> r.concentration.None?
    ensures rep.Evaluated? ==> rep.perSource == Sources(inp, spec, LloqSignal(inp.calib).value)
    ensures rep.Evaluated? ==> rep.numSources == |FirstKeys(inp.data, SourceKey)|
    ensures rep.Evaluated? ==> rep.numPassed == Count(rep.perSource, SourcePasses) && rep.numPassed <= rep.numSources
    ensures rep.Evaluated? ==> (rep.pass <==> rep.passFraction >= spec.passFraction && rep.numSources >= spec.minSources)
  {
    var missing := MissingPatterns(inp.data, spec.requiredPatterns, Present);
    if |missing| > 0 then Missing(PatternErrorOf(missing, "Missing {n} required well pattern(s)"))
    else
      var lloq := LloqSignal(inp.calib);
      if lloq.None? then NoLloqSignal
      else Summarize(spec, Sources(inp, spec, lloq.value))
  }

  /** QC wells that reproduce their non-zero nominal value exactly have
      zero relative error. */
  lemma {:induction false} ExactRelativeErrors(g: seq<Row>, back: real -> real)
    requires forall i :: 0 <= i < |g| ==> back(g[i].y) == g[i].x && g[i].x != 0.0
    ensures forall i :: 0 <= i < |RelativeErrors(g, back)| ==> RelativeErrors(g, back)[i] == 0.0
  {
    if |g| > 0 {
      ExactRelativeErrors(g[1..], back);
      RelativePctOfZero(Some(g[0].x));
      assert RelativeErrors(g, back) == [0.0] + RelativeErrors(g[1..], back);
    }
  }

  lemma ExactGroupAccuracy(g: seq<Row>, back: real -> real)
    requires |g| > 0
    requires forall r :: r in g ==> back(r.y) == r.x && r.x != 0.0
    ensures MeanAccuracy(g, back) == Some(0.0)
  {
    forall i | 0 <= i < |g| ensures back(g[i].y) == g[i].x && g[i].x != 0.0 {
      assert g[i] in g;
    }
    ExactRelativeErrors(g, back);
    MeanWithin(RelativeErrors(g, back), 0.0, 0.0);
  }

  /** Blanks that all read below the LLOQ signal have a mean below it. */
  lemma BlanksBelow(sub: seq<Row>, lloq: real)
    requires exists r :: r in sub && IsBlank(r)
    requires forall r :: r in sub && IsBlank(r) ==> r.signal < lloq
    ensures Below(MeanOpt(Signals(Blanks(sub))), lloq)
  {
    var b := Blanks(sub);
    var rb :| rb in sub && IsBlank(rb);
    assert rb in b;
    var s := Signals(b);
    forall i | 0 <= i < |s| ensures s[i] < lloq {
      assert b[i] in b;
    }
    MeanBetween(s);
  }

  /** QCs of a level present in the source that back-calculate exactly
      have zero mean relative error. */
  lemma ExactLevelAccuracy(back: real -> real, sub: seq<Row>, lvl: QcLevel)
    requires exists r :: r in sub && IsQcAt(lvl, r)
    requires forall r :: r in sub && IsQc(r) ==> back(r.y) == r.x && r.x != 0.0
    ensures MeanAccuracy(QcAt(sub, lvl), back) == Some(0.0)
  {
    var g := QcAt(sub, lvl);
    var r :| r in sub && IsQcAt(lvl, r);
    assert r in g;
    ExactGroupAccuracy(g, back);
  }

  /** A matrix source passes when it has blanks, all reading below the
      LLOQ signal, and LLOQ and HIGH QCs that back-calculate exactly to
      their non-zero nominal values, under non-negative tolerances. */
  lemma CleanSourcePasses(back: real -> real, spec: Spec, lloq: real, sid: string, sub: seq<Row>)
    requires |sub| > 0
    requires exists r :: r in sub && IsBlank(r)
    requires forall r :: r in sub && IsBlank(r) ==> r.signal < lloq
    requires exists r :: r in sub && IsQcAt(Lloq, r)
    requires exists r :: r in sub && IsQcAt(High, r)
    requires forall r :: r in sub && IsQc(r) ==> back(r.y) == r.x && r.x != 0.0
    requires spec.accTolPctLloq >= 0.0 && spec.accTolPctHigh >= 0.0
    ensures EvaluateSource(back, spec, lloq, sid, sub).pass
  {
    BlanksBelow(sub, lloq);
    ExactLevelAccuracy(back, sub, Lloq);
    ExactLevelAccuracy(back, sub, High);
  }
}
