/** The validation carryover verdict (`eval_carryover`): every blank
    placed after a high sample to detect carryover must read a signal below
    the LLOQ calibration signal. */
module ValidationCarryover {
  import opened Wrappers
  import opened Seqs
  import opened Layout
  import opened WellPattern
  import opened AcceptanceUtils

  /** The fields of the carryover spec the evaluator reads. */
  datatype Spec = Spec(requiredPatterns: seq<Pattern>, minBlanksAfterUloq: int)

  datatype BlankEntry = BlankEntry(well: string, signal: real, pass: bool)

  datatype Report =
    | Missing(error: PatternError<Pattern>)
      /** The LLOQ signal is 0 or NaN. */
    | InvalidLloqSignal
    | TooFewBlanks(nBlanks: nat)
    | Evaluated(nBlanks: nat, nPass: nat, lloqSignal: real, perBlank: seq<BlankEntry>, pass: bool)

  predicate Pass(r: Report) {
    r.Evaluated? && r.pass
  }

  /** A blank flagged as a carryover blank. */
  predicate IsCarryBlank(r: Row) {
    r.sampleType == Blank && r.carryover
  }

  function CarryBlanks(data: seq<Row>): (b: seq<Row>)
    ensures forall r :: r in b <==> r in data && IsCarryBlank(r)
  {
    Filter(data, IsCarryBlank)
  }

  predicate BlankPasses(e: BlankEntry) {
    e.pass
  }

  /** One record per carryover blank: its well, its signal and whether
      the signal is below the LLOQ signal. */
  function PerBlank(blanks: seq<Row>, lloq: real): (es: seq<BlankEntry>)
    ensures |es| == |blanks|
    ensures forall i :: 0 <= i < |es| ==> es[i].well == blanks[i].well && es[i].signal == blanks[i].signal
    ensures forall i :: 0 <= i < |es| ==> (es[i].pass <==> blanks[i].signal < lloq)
  {
    seq(|blanks|, i requires 0 <= i < |blanks| => BlankEntry(blanks[i].well, blanks[i].signal, blanks[i].signal < lloq))
  }

  function Assess(inp: Input, spec: Spec, lloq: real): (rep: Report)
    ensures rep.TooFewBlanks? <==> |CarryBlanks(inp.data)| < spec.minBlanksAfterUloq
    ensures rep.TooFewBlanks? ==> rep.nBlanks == |CarryBlanks(inp.data)|
    ensures rep.Evaluated? ==> rep.perBlank == PerBlank(CarryBlanks(inp.data), lloq) && rep.lloqSignal == lloq
    ensures rep.Evaluated? ==> rep.nBlanks == |CarryBlanks(inp.data)| && rep.nPass <= rep.nBlanks
    ensures rep.Evaluated? ==> (rep.pass <==> forall r :: r in inp.data && IsCarryBlank(r) ==> r.signal < lloq)
    ensures rep.TooFewBlanks? || rep.Evaluated?
  {
    var blanks := CarryBlanks(inp.data);
    if |blanks| < spec.minBlanksAfterUloq then TooFewBlanks(|blanks|)
    else
      var es := PerBlank(blanks, lloq);
      var k := Count(es, BlankPasses);
      CountIsLengthIff(es, BlankPasses);
      assert (forall i :: 0 <= i < |es| ==> es[i].pass) <==> forall r :: r in inp.data && IsCarryBlank(r) ==> r.signal < lloq by {
        if forall i :: 0 <= i < |es| ==> es[i].pass {
          forall r | r in inp.data && IsCarryBlank(r) ensures r.signal < lloq {
            assert r in blanks;
            var i :| 0 <= i < |blanks| && blanks[i] == r;
            assert es[i].pass;
          }
        }
        if forall r :: r in inp.data && IsCarryBlank(r) ==> r.signal < lloq {
          forall i | 0 <= i < |es| ensures es[i].pass {
            assert blanks[i] in blanks;
          }
        }
      }
      Evaluated(|blanks|, k, lloq, es, k == |blanks|)
  }

  /** `eval_carryover`. */
  function Evaluate(inp: Input, spec: Spec): (rep: Report)
    ensures rep.Missing? <==> exists p :: p in spec.requiredPatterns && !Present(p, inp.data)
    ensures rep.Missing? ==> rep.error.n > 0 && forall p :: p in rep.error.missing <==> p in spec.requiredPatterns && !Present(p, inp.data)
    ensures rep.InvalidLloqSignal? <==>
      && (forall p :: p in spec.requiredPatterns ==> Present(p, inp.data))
      && (LloqSignal(inp.calib).None? || LloqSignal(inp.calib).value == 0.0)
    ensures rep.TooFewBlanks? ==> |CarryBlanks(inp.data)| < spec.minBlanksAfterUloq
    ensures rep.Evaluated? ==> Some(rep.lloqSignal) == LloqSignal(inp.calib) && rep.lloqSignal != 0.0
    ensures rep.Evaluated? ==> rep.nBlanks == |CarryBlanks(inp.data)| >= spec.minBlanksAfterUloq
    ensures rep.Evaluated? ==> (rep.pass <==> forall r :: r in inp.data && IsCarryBlank(r) ==> r.signal < rep.lloqSignal)
  {
    var missing := MissingPatterns(inp.data, spec.requiredPatterns, Present);
    if |missing| > 0 then Missing(PatternErrorOf(missing, "Missing {n} required blank(s) for carryover"))
    else
      var lloq := LloqSignal(inp.calib);
      if lloq.None? || lloq.value == 0.0 then InvalidLloqSignal
      else Assess(inp, spec, lloq.value)
  }

  /** Carryover blanks whose signals all lie below every signal read at
      the lowest calibration level pass, once enough of them are present
      and the LLOQ signal is valid: the LLOQ signal is a mean of those
      signals. */
  lemma BlanksBelowLowestStandardPass(inp: Input, spec: Spec, lo: real)
    requires forall p :: p in spec.requiredPatterns ==> Present(p, inp.data)
    requires LloqSignal(inp.calib).Some? && LloqSignal(inp.calib).value != 0.0
    requires |CarryBlanks(inp.data)| >= spec.minBlanksAfterUloq
    requires forall row :: row in inp.calib && row.concentration.Some? && IsLowest(inp.calib, row.concentration.value) ==> lo <= row.signal
    requires forall r :: r in inp.data && IsCarryBlank(r) ==> r.signal < lo
    ensures Pass(Evaluate(inp, spec))
  {
    var l := LloqSignal(inp.calib).value;
    LloqSignalAtLeast(inp.calib, lo);
    var rep := Evaluate(inp, spec);
    assert !rep.Missing? && !rep.InvalidLloqSignal? && !rep.TooFewBlanks?;
    assert rep.lloqSignal == l;
  }

  /** The spec's default pattern asks for a blank flagged for carryover:
      a plate whose blanks carry no carryover flag misses it, however many
      plain blanks it has. */
  lemma PlainBlanksMissCarryoverPattern(inp: Input, spec: Spec)
    requires Pattern(Blank, None, false, true, false, false, None) in spec.requiredPatterns
    requires forall r :: r in inp.data ==> !r.carryover
    ensures Evaluate(inp, spec).Missing?
  {
  }
}
