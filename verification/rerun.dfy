/** The analytical acceptance stage: `EvaluateSpecs`, then `CheckRerun`,
    which, when the calibration verdict failed and a refit is allowed,
    drops the calibration standards at the failing concentrations and
    aborts the pass so the pipeline reruns without them. */
module Rerun {
  import opened Wrappers
  import opened Seqs
  import opened Layout
  import opened Registry
  import opened Dispatcher
  import AnalyticalCalibration

  /** The three keys `CheckRerun` reads from the calibration result, with
      the defaults it uses when a key is absent. */
  datatype CalibrationView = CalibrationView(pass: bool, canRefit: bool, failingLevels: seq<real>)

  /** The part of the pipeline context the stage reads and writes. */
  datatype Context<R> = Context(
    data: seq<Row>,
    calib: Option<seq<Row>>,
    dropped: Option<seq<Row>>,
    acceptance: Acceptance<R>
  )

  /** Whether the rest of the pass runs (`abort_pass`). */
  datatype Signal = Continue | AbortPass

  /** A calibration-evaluator report seen through those keys: a
      missing-pattern report carries only `pass: false`. */
  function ReportView(rep: AnalyticalCalibration.Report): (v: CalibrationView)
    ensures v.pass <==> AnalyticalCalibration.Pass(rep)
    ensures rep.Missing? ==> !v.canRefit && v.failingLevels == []
    ensures rep.Evaluated? ==> v.canRefit == rep.canRefit && v.failingLevels == rep.failingLevels
  {
    match rep
    case Missing(_) => CalibrationView(false, false, [])
    case Evaluated(_, _, _, failing, _, canRefit, pass) => CalibrationView(pass, canRefit, failing)
  }

  /** `results.get("calibration", {})`: no result reads as "failed, no
      refit". */
  function CalibrationOf<R>(view: R -> CalibrationView, results: map<string, R>): (v: CalibrationView)
    ensures "calibration" !in results ==> v == CalibrationView(false, false, [])
    ensures "calibration" in results ==> v == view(results["calibration"])
  {
    if "calibration" in results then view(results["calibration"]) else CalibrationView(false, false, [])
  }

  /** A calibration standard whose concentration is one of the failing
      levels; an undefined concentration matches none. */
  predicate AtFailingLevel(failing: seq<real>, r: Row) {
    IsCalibration(r) && r.concentration.Some? && r.concentration.value in failing
  }

  predicate Kept(failing: seq<real>, r: Row) {
    !AtFailingLevel(failing, r)
  }

  /** The row selections `mask_fail` and `~mask_fail`. */
  function Dropping(failing: seq<real>): Row -> bool {
    (x: Row) => AtFailingLevel(failing, x)
  }

  function Keeping(failing: seq<real>): Row -> bool {
    (x: Row) => Kept(failing, x)
  }

  /** `CheckRerun.logic`. */
  function CheckRerun<R>(view: R -> CalibrationView, c: Context<R>): (r: (Context<R>, Signal))
    ensures var v := CalibrationOf(view, c.acceptance.results);
      v.pass || !v.canRefit || |v.failingLevels| == 0 <==> r == (c, Continue)
    ensures var v := CalibrationOf(view, c.acceptance.results);
      !v.pass && v.canRefit && |v.failingLevels| > 0 ==>
        && r.1 == AbortPass
        && r.0.dropped == Some(Filter(c.data, (x: Row) => AtFailingLevel(v.failingLevels, x)))
        && r.0.data == Filter(c.data, (x: Row) => Kept(v.failingLevels, x))
        && r.0.calib.None?
        && r.0.acceptance == c.acceptance
  {
    var v := CalibrationOf(view, c.acceptance.results);
    if v.pass then (c, Continue)
    else if !v.canRefit || |v.failingLevels| == 0 then (c, Continue)
    else
      var failing := v.failingLevels;
      var drop := Filter(c.data, (x: Row) => AtFailingLevel(failing, x));
      var keep := Filter(c.data, (x: Row) => Kept(failing, x));
      (c.(data := keep, dropped := Some(drop), calib := None), AbortPass)
  }

  /** On the refit path the table splits in two: the dropped standards
      and the kept rows together are the original rows, no row other than
      a calibration standard is dropped, and no kept standard sits at a
      failing level. */
  lemma RefitSplitsTable<R>(view: R -> CalibrationView, c: Context<R>)
    requires CheckRerun(view, c).1 == AbortPass
    ensures var r := CheckRerun(view, c).0;
      && multiset(r.dropped.value) + multiset(r.data) == multiset(c.data)
      && |r.dropped.value| + |r.data| == |c.data|
      && (forall x :: x in c.data && !IsCalibration(x) ==> x in r.data)
      && (forall x :: x in r.dropped.value ==> IsCalibration(x))
      && var v := CalibrationOf(view, c.acceptance.results);
         forall x :: x in r.data && IsCalibration(x) && x.concentration.Some? ==> x.concentration.value !in v.failingLevels
  {
    var v := CalibrationOf(view, c.acceptance.results);
    FilterPartition(c.data, (x: Row) => AtFailingLevel(v.failingLevels, x), (x: Row) => Kept(v.failingLevels, x));
  }

  /** Dropping is idempotent: after a refit, the same failing levels match
      no row of the new table. */
  lemma RefitLeavesNothingToDrop<R>(view: R -> CalibrationView, c: Context<R>)
    requires CheckRerun(view, c).1 == AbortPass
    ensures var v := CalibrationOf(view, c.acceptance.results);
      Filter(CheckRerun(view, c).0.data, (x: Row) => AtFailingLevel(v.failingLevels, x)) == []
  {
    var v := CalibrationOf(view, c.acceptance.results);
    var d := CheckRerun(view, c).0.data;
    forall i | 0 <= i < |d| ensures !AtFailingLevel(v.failingLevels, d[i]) {
      assert d[i] in d;
    }
    CountNone(d, (x: Row) => AtFailingLevel(v.failingLevels, x));
  }

  /** `Analytical`: the dispatcher, then the rerun check on its results. */
  function Analytical<C, S, R>(
    reg: Registry<(C, S) -> R>, passOf: R -> bool, view: R -> CalibrationView,
    ctx: C, fields: seq<Field<S>>, c: Context<R>
  ): (r: Result<(Context<R>, Signal), RegistryError>)
    ensures r.Err? <==> exists i :: 0 <= i < |fields| && Outcome(reg, ctx, fields[i]).Err?
    ensures r.Ok? ==>
      var a := EvaluateSpecs(reg, passOf, ctx, fields, c.acceptance).value;
      r.value == CheckRerun(view, c.(acceptance := a))
  {
    match EvaluateSpecs(reg, passOf, ctx, fields, c.acceptance)
    case Err(e) => Err(e)
    case Ok(a) => Ok(CheckRerun(view, c.(acceptance := a)))
  }

  /** When the calibration field's result passes, the stage records the
      new verdicts and changes nothing else: the table, the calibration
      frame and the dropped wells stay as they were and the pass goes on. */
  lemma PassingCalibrationContinues<C, S, R>(
    reg: Registry<(C, S) -> R>, passOf: R -> bool, view: R -> CalibrationView,
    ctx: C, fields: seq<Field<S>>, c: Context<R>, k: nat
  )
    requires k < |fields| && fields[k].name == "calibration"
    requires forall j :: k < j < |fields| ==> fields[j].name != "calibration"
    requires Analytical(reg, passOf, view, ctx, fields, c).Ok?
    requires Outcome(reg, ctx, fields[k]).Ok? && view(Outcome(reg, ctx, fields[k]).value).pass
    ensures var r := Analytical(reg, passOf, view, ctx, fields, c).value;
      r.1 == Continue && r.0.data == c.data && r.0.calib == c.calib && r.0.dropped == c.dropped
  {
    FieldKeepsItsResult(reg, passOf, ctx, fields, c.acceptance, k);
  }
}
