/** The signal normalisation rules. Each returns the normalised column
    and the scale it divided by, or the column unchanged with no scale. */
module Normalize {
  import opened Wrappers
  import opened Stats
  import opened Layout

  datatype NormRule = SpanRule | MaxRule | NoNorm

  datatype Normalized = Normalized(values: seq<real>, scale: Option<real>)

  /** The concentrations of the calibration-standard rows; a missing
      concentration is skipped, as pandas' `min`/`max` skip NaN. */
  function CalConcentrations(rows: seq<Row>): (cs: seq<real>)
    ensures forall c :: c in cs <==> exists r :: r in rows && IsCalibration(r) && r.concentration == Some(c)
  {
    if |rows| == 0 then []
    else
      var head := if IsCalibration(rows[0]) && rows[0].concentration.Some? then [rows[0].concentration.value] else [];
      assert forall r :: r in rows <==> r == rows[0] || r in rows[1..];
      head + CalConcentrations(rows[1..])
  }

  lemma DivideThenMultiply(a: real, d: real)
    requires d != 0.0
    ensures a / d * d == a
  {
  }

  /** Multiplying back by the scale and adding back the low end recovers
      each original value. */
  predicate Undoes(values: seq<real>, signal: seq<real>, low: real, scale: real)
    requires |values| == |signal|
  {
    forall i :: 0 <= i < |signal| ==> values[i] * scale + low == signal[i]
  }

  /** `(signal - low) / scale`, element by element. */
  function Rescale(signal: seq<real>, low: real, scale: real): (r: seq<real>)
    requires scale != 0.0
    ensures |r| == |signal|
    ensures Undoes(r, signal, low, scale)
  {
    var r := seq(|signal|, i requires 0 <= i < |signal| => (signal[i] - low) / scale);
    assert forall i :: 0 <= i < |signal| ==> r[i] * scale + low == signal[i] by {
      forall i | 0 <= i < |signal| ensures r[i] * scale + low == signal[i] {
        DivideThenMultiply(signal[i] - low, scale);
      }
    }
    r
  }

  /** The span of the calibration concentrations, when there are some
      and it is not zero. */
  function SpanScale(rows: seq<Row>): (r: Option<(real, real)>)
    ensures var cs := CalConcentrations(rows);
      (r.Some? <==> |cs| > 0 && MinOf(cs) < MaxOf(cs))
      && (r.Some? ==> r.value.0 == MinOf(cs) && r.value.1 == MaxOf(cs) - MinOf(cs) && r.value.1 > 0.0)
  {
    var cs := CalConcentrations(rows);
    if |cs| == 0 then None
    else
      var low, high := MinOf(cs), MaxOf(cs);
      assert low <= high by { assert high in cs; }
      if high - low == 0.0 then None else Some((low, high - low))
  }

  /** The highest calibration concentration, when there is one and it is
      not zero. */
  function MaxScale(rows: seq<Row>): (r: Option<real>)
    ensures var cs := CalConcentrations(rows);
      (r.Some? <==> |cs| > 0 && MaxOf(cs) != 0.0)
      && (r.Some? ==> r.value == MaxOf(cs))
  {
    var cs := CalConcentrations(rows);
    if |cs| == 0 || MaxOf(cs) == 0.0 then None else Some(MaxOf(cs))
  }

  /** The registered `norm_rule` functions, applied to `signal` as the
      table's signal column. The span rule subtracts the low end of the
      calibration concentration range and divides by its width; the max
      rule divides by the highest calibration concentration. */
  function Normalize(rule: NormRule, rows: seq<Row>, signal: seq<real>): (r: Normalized)
    requires |signal| == |rows|
    ensures |r.values| == |signal|
    ensures r.scale.None? ==> r.values == signal
    ensures rule == NoNorm ==> r.scale.None?
    ensures rule == SpanRule ==> (r.scale.Some? <==> SpanScale(rows).Some?)
    ensures rule == SpanRule && r.scale.Some? ==> r.scale.value == SpanScale(rows).value.1
    ensures rule == SpanRule && r.scale.Some? ==> Undoes(r.values, signal, SpanScale(rows).value.0, r.scale.value)
    ensures rule == MaxRule ==> r.scale == MaxScale(rows)
    ensures rule == MaxRule && r.scale.Some? ==> Undoes(r.values, signal, 0.0, r.scale.value)
  {
    if rule == SpanRule then
      var ls := SpanScale(rows);
      if ls.None? then Normalized(signal, None)
      else Normalized(Rescale(signal, ls.value.0, ls.value.1), Some(ls.value.1))
    else if rule == MaxRule then
      var top := MaxScale(rows);
      if top.None? then Normalized(signal, None)
      else Normalized(Rescale(signal, 0.0, top.value), top)
    else Normalized(signal, None)
  }

  /** Normalisation loses nothing: under one rule and one table, two
      columns with the same normalised values were equal. */
  lemma UndoesInjective(values: seq<real>, a: seq<real>, b: seq<real>, low: real, scale: real)
    requires |values| == |a| == |b|
    requires Undoes(values, a, low, scale) && Undoes(values, b, low, scale)
    ensures a == b
  {
    forall i | 0 <= i < |a| ensures a[i] == b[i] {
      assert a[i] == values[i] * scale + low;
    }
  }

  lemma {:induction false} NormalizeInjective(rule: NormRule, rows: seq<Row>, a: seq<real>, b: seq<real>)
    requires |a| == |rows| && |b| == |rows|
    requires Normalize(rule, rows, a).values == Normalize(rule, rows, b).values
    ensures a == b
  {
    var ra, rb := Normalize(rule, rows, a), Normalize(rule, rows, b);
    assert rb.scale == ra.scale;
    if ra.scale.Some? {
      if rule == SpanRule {
        UndoesInjective(ra.values, a, b, SpanScale(rows).value.0, ra.scale.value);
      } else {
        UndoesInjective(ra.values, a, b, 0.0, ra.scale.value);
      }
    }
  }
}
