/** The validation specificity verdict (`eval_specificity` and
    `compute_interferent_bias`): a blank spiked with an interferent must
    read below a percentage of the LLOQ calibration signal, and the
    interferent must not shift the mean signal of the LLOQ and ULOQ QCs by
    more than a tolerance. */
module ValidationSpecificity {
  import opened Wrappers
  import opened Seqs
  import opened Stats
  import opened Layout
  import opened WellPattern
  import opened Groups
  import opened AcceptanceUtils

  /** The fields of `SpecificitySpec` the evaluator reads. */
  datatype Spec = Spec(requiredPatterns: seq<Pattern>, accTolPct: real, blankThreshPctLloq: real)

  /** The interferent bias at one QC level, or `Insufficient` when the
      level lacks wells with or without an interferent. */
  datatype BiasCheck =
    | Insufficient
    | Checked(biasPct: real, interferents: set<string>, cleanN: nat, interferedN: nat, pass: bool)

  datatype Report =
    | Missing(error: PatternError<Pattern>)
    | Evaluated(blankPctOfLloq: Option<real>, blankOk: bool, lloqBias: BiasCheck, uloqBias: BiasCheck, pass: bool)

  predicate Pass(r: Report) {
    r.Evaluated? && r.pass
  }

  predicate CheckPasses(c: BiasCheck) {
    c.Checked? && c.pass
  }

  predicate Interfered(r: Row) {
    r.interferent.Some?
  }

  predicate InterferedBlank(r: Row) {
    IsBlank(r) && Interfered(r)
  }

  /** QC wells of a level, with or without an interferent. */
  predicate QcWell(lvl: QcLevel, withInterferent: bool, r: Row) {
    IsQc(r) && r.qcLevel == Some(lvl) && Interfered(r) == withInterferent
  }

  function QcWells(data: seq<Row>, lvl: QcLevel, withInterferent: bool): (g: seq<Row>)
    ensures forall r :: r in g <==> r in data && QcWell(lvl, withInterferent, r)
  {
    Filter(data, (r: Row) => QcWell(lvl, withInterferent, r))
  }

  /** `blank_signal / lloq_signal · 100 if lloq_signal else 0.0`: 0 for a
      zero LLOQ signal, NaN when either mean is NaN (a NaN LLOQ signal is
      truthy). */
  function BlankPctOfLloq(blankSignal: Option<real>, lloq: Option<real>): (p: Option<real>)
    ensures lloq == Some(0.0) ==> p == Some(0.0)
    ensures p.Some? <==> lloq == Some(0.0) || (lloq.Some? && blankSignal.Some?)
    ensures lloq.Some? && lloq.value != 0.0 && blankSignal.Some? ==> IsPct(p.value, blankSignal.value, lloq.value)
  {
    if lloq.None? then None
    else if lloq.value == 0.0 then Some(0.0)
    else if blankSignal.None? then None
    else
      RelativePctScales(blankSignal.value, lloq);
      RelativePct(blankSignal.value, lloq)
  }

  /** `compute_interferent_bias` followed by the tolerance check. */
  function InterferentBias(data: seq<Row>, lvl: QcLevel, tol: real): (c: BiasCheck)
    ensures c.Insufficient? <==> |QcWells(data, lvl, true)| == 0 || |QcWells(data, lvl, false)| == 0
    ensures c.Checked? ==> c.cleanN == |QcWells(data, lvl, false)| && c.interferedN == |QcWells(data, lvl, true)|
    ensures c.Checked? ==> forall i :: i in c.interferents <==> exists r :: r in data && QcWell(lvl, true, r) && r.interferent == Some(i)
    ensures c.Checked? ==> c.biasPct >= 0.0 || Mean(Signals(QcWells(data, lvl, false))) < 0.0
    ensures c.Checked? ==> (c.pass <==> c.biasPct <= tol)
    ensures c.Checked? ==>
      var cm := Mean(Signals(QcWells(data, lvl, false)));
      var im := Mean(Signals(QcWells(data, lvl, true)));
      && (cm != 0.0 ==> IsPct(c.biasPct, Abs(im - cm), cm))
      && (cm == 0.0 ==> c.biasPct == 0.0)
  {
    var interfered := QcWells(data, lvl, true);
    var clean := QcWells(data, lvl, false);
    if |interfered| == 0 || |clean| == 0 then Insufficient
    else
      var cm := Mean(Signals(clean));
      var im := Mean(Signals(interfered));
      var bias := if cm != 0.0 then RelativePct(Abs(im - cm), Some(cm)).value else 0.0;
      assert bias >= 0.0 || cm < 0.0 by {
        if cm > 0.0 {
          RelativePctScales(Abs(im - cm), Some(cm));
        }
      }
      assert cm != 0.0 ==> IsPct(bias, Abs(im - cm), cm) by {
        if cm != 0.0 {
          RelativePctScales(Abs(im - cm), Some(cm));
        }
      }
      var names := set r | r in interfered :: r.interferent.value;
      Checked(bias, names, |clean|, |interfered|, bias <= tol)
  }

  /** `eval_specificity`. */
  function Evaluate(inp: Input, spec: Spec): (rep: Report)
    ensures rep.Missing? <==> exists p :: p in spec.requiredPatterns && !Present(p, inp.data)
    ensures rep.Missing? ==> rep.error.n > 0 && forall p :: p in rep.error.missing <==> p in spec.requiredPatterns && !Present(p, inp.data)
    ensures rep.Evaluated? ==> rep.blankPctOfLloq == BlankPctOfLloq(MeanOpt(Signals(Filter(inp.data, InterferedBlank))), LloqSignal(inp.calib))
    ensures rep.Evaluated? ==> (rep.blankOk <==> Below(rep.blankPctOfLloq, spec.blankThreshPctLloq))
    ensures rep.Evaluated? ==> rep.lloqBias == InterferentBias(inp.data, Lloq, spec.accTolPct)
    ensures rep.Evaluated? ==> rep.uloqBias == InterferentBias(inp.data, Uloq, spec.accTolPct)
    ensures rep.Evaluated? ==> (rep.pass <==> rep.blankOk && CheckPasses(rep.lloqBias) && CheckPasses(rep.uloqBias))
  {
    var missing := MissingPatterns(inp.data, spec.requiredPatterns, Present);
    if |missing| > 0 then Missing(PatternErrorOf(missing, "Missing {n} required well pattern(s) with interferent"))
    else
      var blankSignal := MeanOpt(Signals(Filter(inp.data, InterferedBlank)));
      var pct := BlankPctOfLloq(blankSignal, LloqSignal(inp.calib));
      var blankOk := Below(pct, spec.blankThreshPctLloq);
      var lo := InterferentBias(inp.data, Lloq, spec.accTolPct);
      var hi := InterferentBias(inp.data, Uloq, spec.accTolPct);
      Evaluated(pct, blankOk, lo, hi, blankOk && CheckPasses(lo) && CheckPasses(hi))
  }

  /** An interferent that leaves every signal of a QC level unchanged —
      all wells of the level, with or without it, read the same signal —
      shows no bias, and passes any non-negative tolerance. */
  lemma NeutralInterferentPasses(data: seq<Row>, lvl: QcLevel, tol: real, v: real)
    requires exists r :: r in data && QcWell(lvl, true, r)
    requires exists r :: r in data && QcWell(lvl, false, r)
    requires forall r :: r in data && IsQc(r) && r.qcLevel == Some(lvl) ==> r.signal == v
    requires tol >= 0.0
    ensures CheckPasses(InterferentBias(data, lvl, tol))
    ensures InterferentBias(data, lvl, tol).biasPct == 0.0
  {
    var interfered := QcWells(data, lvl, true);
    var clean := QcWells(data, lvl, false);
    var ri :| ri in data && QcWell(lvl, true, ri);
    var rc :| rc in data && QcWell(lvl, false, rc);
    assert ri in interfered && rc in clean;
    var si := Signals(interfered);
    var sc := Signals(clean);
    forall i | 0 <= i < |si| ensures si[i] == v {
      assert interfered[i] in interfered;
    }
    forall i | 0 <= i < |sc| ensures sc[i] == v {
      assert clean[i] in clean;
    }
    MeanWithin(si, v, v);
    MeanWithin(sc, v, v);
    if v != 0.0 {
      RelativePctOfZero(Some(v));
    }
  }
}
