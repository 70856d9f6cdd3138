/** The preprocess and curve-fit stages of the analysis: blank
    subtraction, normalisation and outlier masking over the whole plate,
    then transforms, weights, selection of the calibration standards and
    the fit.  The registered plug-ins (blank rule, normalisation rule,
    weighting scheme) are the ones modelled in their own modules; the
    outlier rule, the transforms and the least-squares fit are opaque
    functions carried in the configuration. */
module AnalysisSteps {
  import opened Wrappers
  import opened Seqs
  import opened Layout
  import opened Groups
  import opened Blank
  import opened Normalize
  import opened Weighting
  import opened Pipeline

  /** The configuration the steps read, with every plug-in already looked
      up in the registry. */
  datatype Config = Config(
    blankRule: BlankRule,
    normRule: NormRule,
    outlierRule: seq<real> -> seq<bool>,
    transformX: Option<real> -> real,
    transformY: real -> real,
    weighting: Scheme,
    fit: (seq<real>, seq<real>, seq<Option<real>>) -> seq<real>,
    inverse: (real, seq<real>) -> real
  )

  /** The pipeline context: the plate table and what the steps attach. */
  datatype Context = Context(
    data: seq<Row>,
    config: Config,
    blankUsed: Option<real>,
    normSpan: Option<real>,
    calib: Option<seq<Row>>,
    params: Option<seq<real>>,
    back: Option<real -> real>
  )

  datatype StepError =
    | OutlierMaskLength(rows: nat, flags: nat)
    | NoCalibrationWells
    | NoCalibrationFrame

  /** A row with the columns the steps derive blanked out: what is left is
      the measurement as loaded. */
  function Measured(r: Row): Row {
    r.(signalBs := 0.0, cleanSignal := 0.0, isOutlier := false, x := 0.0, y := 0.0, w := None)
  }

  /** The same rows in the same order, up to derived columns. */
  predicate SameRows(a: seq<Row>, b: seq<Row>) {
    |a| == |b| && forall i :: 0 <= i < |a| ==> Measured(a[i]) == Measured(b[i])
  }

  function SignalBs(rows: seq<Row>): (c: seq<real>)
    ensures |c| == |rows|
    ensures forall i :: 0 <= i < |rows| ==> c[i] == rows[i].signalBs
  {
    seq(|rows|, i requires 0 <= i < |rows| => rows[i].signalBs)
  }

  function CleanSignals(rows: seq<Row>): (c: seq<real>)
    ensures |c| == |rows|
    ensures forall i :: 0 <= i < |rows| ==> c[i] == rows[i].cleanSignal
  {
    seq(|rows|, i requires 0 <= i < |rows| => rows[i].cleanSignal)
  }

  function Ys(rows: seq<Row>): (c: seq<real>)
    ensures |c| == |rows|
    ensures forall i :: 0 <= i < |rows| ==> c[i] == rows[i].y
  {
    seq(|rows|, i requires 0 <= i < |rows| => rows[i].y)
  }

  function Ws(rows: seq<Row>): (c: seq<Option<real>>)
    ensures |c| == |rows|
    ensures forall i :: 0 <= i < |rows| ==> c[i] == rows[i].w
  {
    seq(|rows|, i requires 0 <= i < |rows| => rows[i].w)
  }

  /** `sample_type == "blank"`, row by row. */
  function BlankMask(rows: seq<Row>): (m: seq<bool>)
    ensures |m| == |rows|
    ensures forall i :: 0 <= i < |rows| ==> (m[i] <==> IsBlank(rows[i]))
  {
    seq(|rows|, i requires 0 <= i < |rows| => IsBlank(rows[i]))
  }

  // ---------------------------------------------------------------------
  // Preprocess

  /** `LoadData` and `CheckData` are placeholders that pass the context on. */
  function LoadData(c: Context): (r: Context)
    ensures r == c
  {
    c
  }

  function CheckData(c: Context): (r: Context)
    ensures r == c
  {
    c
  }

  /** `SubtractBlank`: the blank value is computed from the signals of the
      blank rows alone and recorded; every row's blank-subtracted signal is
      its signal less that value, or the signal itself when there is none. */
  function SubtractBlank(c: Context): (r: Context)
    ensures r.blankUsed == BlankValue(c.config.blankRule, Signals(c.data), BlankMask(c.data))
    ensures SameRows(c.data, r.data)
    ensures forall i :: 0 <= i < |r.data| ==>
      r.data[i].signalBs + r.blankUsed.GetOr(0.0) == c.data[i].signal
    ensures forall i :: 0 <= i < |r.data| ==>
      r.data[i].cleanSignal == c.data[i].cleanSignal && r.data[i].isOutlier == c.data[i].isOutlier
    ensures r.(data := c.data, blankUsed := c.blankUsed) == c
  {
    var b := BlankValue(c.config.blankRule, Signals(c.data), BlankMask(c.data));
    var sub := b.GetOr(0.0);
    var rows := seq(|c.data|, i requires 0 <= i < |c.data| => c.data[i].(signalBs := c.data[i].signal - sub));
    c.(data := rows, blankUsed := b)
  }

  /** `NormalizeSignal`: the registered rule is applied to the
      blank-subtracted signal (not the raw one); its scale is recorded. */
  function NormalizeSignal(c: Context): (r: Context)
    ensures SameRows(c.data, r.data)
    ensures r.normSpan == Normalize.Normalize(c.config.normRule, c.data, SignalBs(c.data)).scale
    ensures r.normSpan.None? ==> forall i :: 0 <= i < |r.data| ==> r.data[i].cleanSignal == c.data[i].signalBs
    ensures c.config.normRule == MaxRule && r.normSpan.Some? ==>
      Undoes(CleanSignals(r.data), SignalBs(c.data), 0.0, r.normSpan.value)
    ensures c.config.normRule == SpanRule && r.normSpan.Some? ==>
      Undoes(CleanSignals(r.data), SignalBs(c.data), SpanScale(c.data).value.0, r.normSpan.value)
    ensures forall i :: 0 <= i < |r.data| ==>
      r.data[i].signalBs == c.data[i].signalBs && r.data[i].isOutlier == c.data[i].isOutlier
    ensures r.(data := c.data, normSpan := c.normSpan) == c
  {
    var n := Normalize.Normalize(c.config.normRule, c.data, SignalBs(c.data));
    var rows := seq(|c.data|, i requires 0 <= i < |c.data| => c.data[i].(cleanSignal := n.values[i]));
    assert CleanSignals(rows) == n.values;
    forall i | 0 <= i < |rows|
      ensures Measured(c.data[i]) == Measured(rows[i])
      ensures rows[i].signalBs == c.data[i].signalBs && rows[i].isOutlier == c.data[i].isOutlier
      ensures rows[i].cleanSignal == n.values[i]
    {
      assert rows[i] == c.data[i].(cleanSignal := n.values[i]);
    }
    c.(data := rows, normSpan := n.scale)
  }

  /** `MaskOutliers`: the rule flags the clean signals; the flags become a
      column, so the rule must return one flag per row (pandas refuses a
      column of another length).  No row is removed. */
  function MaskOutliers(c: Context): (r: Result<Context, StepError>)
    ensures var m := c.config.outlierRule(CleanSignals(c.data));
      r.Err? <==> |m| != |c.data|
    ensures r.Err? ==> r.error == OutlierMaskLength(|c.data|, |c.config.outlierRule(CleanSignals(c.data))|)
    ensures r.Ok? ==> SameRows(c.data, r.value.data)
    ensures r.Ok? ==> forall i :: 0 <= i < |c.data| ==>
      r.value.data[i].isOutlier == c.config.outlierRule(CleanSignals(c.data))[i]
    ensures r.Ok? ==> forall i :: 0 <= i < |c.data| ==>
      r.value.data[i].signalBs == c.data[i].signalBs && r.value.data[i].cleanSignal == c.data[i].cleanSignal
    ensures r.Ok? ==> r.value.(data := c.data) == c
  {
    var m := c.config.outlierRule(CleanSignals(c.data));
    if |m| != |c.data| then Err(OutlierMaskLength(|c.data|, |m|))
    else Ok(c.(data := seq(|c.data|, i requires 0 <= i < |c.data| => c.data[i].(isOutlier := m[i]))))
  }

  /** The `Preprocess` composite's children, in order. */
  function PreprocessSteps(): (steps: seq<Result<Context, StepError> -> Result<Context, StepError>>)
    ensures |steps| == 5
  {
    [Lift(LoadData), Lift(CheckData), Lift(SubtractBlank), Lift(NormalizeSignal), Bind(MaskOutliers)]
  }

  function Preprocess(c: Context): (r: Result<Context, StepError>)
    ensures r == MaskOutliers(NormalizeSignal(SubtractBlank(c)))
  {
    var steps := PreprocessSteps();
    assert steps[1..][1..][1..][1..][1..] == [];
    Run(steps, Ok(c))
  }

  /** Preprocessing keeps the table's rows and their order, attaches the
      three derived columns and fails only on a mis-sized outlier mask. */
  lemma PreprocessKeepsRows(c: Context)
    ensures var r := Preprocess(c);
      var n := NormalizeSignal(SubtractBlank(c));
      && (r.Err? <==> |c.config.outlierRule(CleanSignals(n.data))| != |c.data|)
      && (r.Ok? ==> SameRows(c.data, r.value.data))
      && (r.Ok? ==> r.value.blankUsed == BlankValue(c.config.blankRule, Signals(c.data), BlankMask(c.data)))
  {
    var s := SubtractBlank(c);
    var n := NormalizeSignal(s);
    var r := Preprocess(c);
    if r.Ok? {
      SameRowsTrans(c.data, s.data, n.data);
      SameRowsTrans(c.data, n.data, r.value.data);
    }
  }

  lemma SameRowsTrans(a: seq<Row>, b: seq<Row>, c: seq<Row>)
    requires SameRows(a, b) && SameRows(b, c)
    ensures SameRows(a, c)
  {
  }

  /** The blank value depends on the blank rows' signals only: two tables
      that agree there get the same `blank_used`, whatever their other
      rows hold. */
  lemma BlankUsesBlankRowsOnly(a: Context, b: Context)
    requires a.config.blankRule == b.config.blankRule
    requires |a.data| == |b.data|
    requires forall i :: 0 <= i < |a.data| ==> (IsBlank(a.data[i]) <==> IsBlank(b.data[i]))
    requires forall i :: 0 <= i < |a.data| && IsBlank(a.data[i]) ==> a.data[i].signal == b.data[i].signal
    ensures SubtractBlank(a).blankUsed == SubtractBlank(b).blankUsed
  {
    assert BlankMask(a.data) == BlankMask(b.data);
    BlankIgnoresUnmasked(a.config.blankRule, Signals(a.data), Signals(b.data), BlankMask(a.data));
  }

  // ---------------------------------------------------------------------
  // Curve fit

  /** `ApplyTransforms`: `x` and `y` are attached to every row, standards
      or not; `y` is the transformed raw signal. */
  function ApplyTransforms(c: Context): (r: Context)
    ensures SameRows(c.data, r.data)
    ensures forall i :: 0 <= i < |r.data| ==>
      r.data[i].x == c.config.transformX(c.data[i].concentration) && r.data[i].y == c.config.transformY(c.data[i].signal)
    ensures forall i :: 0 <= i < |r.data| ==> r.data[i].w == c.data[i].w
    ensures r.(data := c.data) == c
  {
    var tx := c.config.transformX;
    var ty := c.config.transformY;
    c.(data := seq(|c.data|, i requires 0 <= i < |c.data| => c.data[i].(x := tx(c.data[i].concentration), y := ty(c.data[i].signal))))
  }

  /** `ComputeWeights`: one weight per row from that row's `x` and `y`. */
  function ComputeWeights(c: Context): (r: Context)
    ensures SameRows(c.data, r.data)
    ensures forall i :: 0 <= i < |r.data| ==>
      r.data[i].w == Weight(c.config.weighting, c.data[i].x, c.data[i].y)
    ensures forall i :: 0 <= i < |r.data| ==> r.data[i].x == c.data[i].x && r.data[i].y == c.data[i].y
    ensures r.(data := c.data) == c
  {
    var s := c.config.weighting;
    c.(data := seq(|c.data|, i requires 0 <= i < |c.data| => c.data[i].(w := Weight(s, c.data[i].x, c.data[i].y))))
  }

  /** `SelectCalibrationData`: the calibration-standard rows, in order,
      become the calibration frame; with none it raises. */
  function SelectCalibrationData(c: Context): (r: Result<Context, StepError>)
    ensures r.Err? <==> forall x :: x in c.data ==> !IsCalibration(x)
    ensures r.Err? ==> r.error == NoCalibrationWells
    ensures r.Ok? ==> r.value.calib == Some(Filter(c.data, IsCalibration))
    ensures r.Ok? ==> r.value.(calib := c.calib) == c
  {
    var cal := Filter(c.data, IsCalibration);
    if |cal| == 0 then Err(NoCalibrationWells)
    else
      assert cal[0] in cal;
      Ok(c.(calib := Some(cal)))
  }

  /** `FitCalibrationData`: the fit sees the frame's `x`, `y` and `w`;
      `curve_back` inverts with exactly the parameters that fit returned. */
  function FitCalibrationData(c: Context): (r: Result<Context, StepError>)
    ensures r.Err? <==> c.calib.None?
    ensures r.Err? ==> r.error == NoCalibrationFrame
    ensures r.Ok? ==> r.value.params == Some(c.config.fit(Xs(c.calib.value), Ys(c.calib.value), Ws(c.calib.value)))
    ensures r.Ok? ==> r.value.back.Some? && forall y :: r.value.back.value(y) == c.config.inverse(y, r.value.params.value)
    ensures r.Ok? ==> r.value.(params := c.params, back := c.back) == c
  {
    match c.calib
    case None => Err(NoCalibrationFrame)
    case Some(cal) =>
      var p := c.config.fit(Xs(cal), Ys(cal), Ws(cal));
      var inv := c.config.inverse;
      Ok(c.(params := Some(p), back := Some((y: real) => inv(y, p))))
  }

  /** The `CurveFit` composite's children, in order. */
  function CurveFitSteps(): (steps: seq<Result<Context, StepError> -> Result<Context, StepError>>)
    ensures |steps| == 4
  {
    [Lift(ApplyTransforms), Lift(ComputeWeights), Bind(SelectCalibrationData), Bind(FitCalibrationData)]
  }

  function CurveFit(c: Context): (r: Result<Context, StepError>)
    ensures var t := ComputeWeights(ApplyTransforms(c));
      r == (match SelectCalibrationData(t) case Err(e) => Err(e) case Ok(s) => FitCalibrationData(s))
  {
    var steps := CurveFitSteps();
    assert steps[1..][1..][1..][1..] == [];
    Run(steps, Ok(c))
  }

  /** Transforms and weights keep the table's rows. */
  lemma TransformsKeepRows(c: Context)
    ensures SameRows(c.data, ComputeWeights(ApplyTransforms(c)).data)
  {
    var a := ApplyTransforms(c);
    var t := ComputeWeights(a);
    forall i | 0 <= i < |c.data| ensures Measured(c.data[i]) == Measured(t.data[i]) {
      assert Measured(c.data[i]) == Measured(a.data[i]);
    }
  }

  /** Tables with the same rows hold calibration standards alike. */
  lemma SameRowsSameStandards(a: seq<Row>, b: seq<Row>)
    requires SameRows(a, b)
    ensures (forall x :: x in a ==> !IsCalibration(x)) <==> (forall x :: x in b ==> !IsCalibration(x))
  {
    assert forall i :: 0 <= i < |a| ==> a[i].sampleType == Measured(a[i]).sampleType == Measured(b[i]).sampleType == b[i].sampleType;
    if exists x :: x in a && IsCalibration(x) {
      var x :| x in a && IsCalibration(x);
      var i :| 0 <= i < |a| && a[i] == x;
      assert b[i] in b;
    }
    if exists x :: x in b && IsCalibration(x) {
      var x :| x in b && IsCalibration(x);
      var i :| 0 <= i < |b| && b[i] == x;
      assert a[i] in a;
    }
  }

  /** The curve fit raises exactly when the plate has no calibration
      standard; otherwise the curve is fitted to the standards' transformed
      and weighted values and the table keeps all its rows. */
  lemma CurveFitFailsIffNoStandards(c: Context)
    ensures CurveFit(c).Err? <==> forall x :: x in c.data ==> !IsCalibration(x)
    ensures CurveFit(c).Err? ==> CurveFit(c).error == NoCalibrationWells
    ensures CurveFit(c).Ok? ==> SameRows(c.data, CurveFit(c).value.data)
    ensures CurveFit(c).Ok? ==>
      var t := ComputeWeights(ApplyTransforms(c));
      var cal := Filter(t.data, IsCalibration);
      && CurveFit(c).value.calib == Some(cal)
      && CurveFit(c).value.params == Some(c.config.fit(Xs(cal), Ys(cal), Ws(cal)))
  {
    var t := ComputeWeights(ApplyTransforms(c));
    TransformsKeepRows(c);
    SameRowsSameStandards(c.data, t.data);
    var sel := SelectCalibrationData(t);
    if sel.Ok? {
      var fit := FitCalibrationData(sel.value);
      assert sel.value.data == t.data && sel.value.config == c.config;
      assert fit.Ok? && fit.value.data == t.data && fit.value.calib == sel.value.calib;
    }
  }
}
