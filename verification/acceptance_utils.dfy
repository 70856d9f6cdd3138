/** What the acceptance evaluators share: the slice of the evaluation
    context they read, the required-pattern check and its error verdict,
    and the calibration-derived reference values (the LLOQ signal and the
    ULOQ concentration). */
module AcceptanceUtils {
  import opened Wrappers
  import opened Seqs
  import opened Stats
  import opened Layout
  import opened Groups

  /** The context as an evaluator sees it: the analysis table and the set
      of optional columns it carries, the calibration table chosen by the
      fit, the fitted back-calculation `curve_back` and the sample
      standard deviation. */
  datatype Input = Input(
    data: seq<Row>,
    columns: set<Column>,
    calib: seq<Row>,
    back: real -> real,
    sd: seq<real> -> real
  )

  /** The QC rows, `df[sample_type == QUALITY_CONTROL]`. */
  function QcRows(data: seq<Row>): (q: seq<Row>)
    ensures forall r :: r in q <==> r in data && IsQc(r)
  {
    Filter(data, IsQc)
  }

  /** `check_required_well_patterns`: the required patterns with no
      matching row, in the order they were required. The pattern type and
      its presence test are parameters, since the specs hold patterns of
      two schema classes (`TablePattern` and `WellPattern`). */
  function MissingPatterns<P(!new)>(rows: seq<Row>, required: seq<P>, present: (P, seq<Row>) -> bool): (m: seq<P>)
    ensures forall p :: p in m <==> p in required && !present(p, rows)
    ensures |m| == 0 <==> forall p :: p in required ==> present(p, rows)
    ensures |m| <= |required|
  {
    var m := Filter(required, (p: P) => !present(p, rows));
    assert |m| > 0 ==> m[0] in m;
    m
  }

  /** Checking two lists of patterns one after the other reports the
      misses of the first list before those of the second. */
  lemma MissingPatternsInOrder<P(!new)>(rows: seq<Row>, a: seq<P>, b: seq<P>, present: (P, seq<Row>) -> bool)
    ensures MissingPatterns(rows, a + b, present) == MissingPatterns(rows, a, present) + MissingPatterns(rows, b, present)
  {
    FilterAppend(a, b, (p: P) => !present(p, rows));
  }

  /** `pattern_error_dict`: a failed verdict carrying the missing patterns
      and the count that the message template's `{n}` receives. */
  datatype PatternError<P> = PatternError(template: string, n: nat, missing: seq<P>)

  function PatternErrorOf<P>(missing: seq<P>, template: string): (e: PatternError<P>)
    ensures e.n == |e.missing|
    ensures e.missing == missing && e.template == template
  {
    PatternError(template, |missing|, missing)
  }

  /** The error verdict built from a pattern check lists exactly the
      absent patterns, and absent and present ones together account for
      every required pattern. */
  lemma {:induction false} PatternErrorCounts<P(!new)>(rows: seq<Row>, required: seq<P>, present: (P, seq<Row>) -> bool, template: string)
    ensures var e := PatternErrorOf(MissingPatterns(rows, required, present), template);
      && e.n + Count(required, (p: P) => present(p, rows)) == |required|
      && (e.n > 0 <==> exists p :: p in required && !present(p, rows))
  {
    var absent := (p: P) => !present(p, rows);
    var isPresent := (p: P) => present(p, rows);
    FilterPartition(required, isPresent, absent);
  }

  /** `get_lloq_signal`: the mean signal of the calibration rows at the
      lowest concentration; `None` for an empty table, and also when no
      row has a concentration (the minimum is then NaN, which no row
      equals, and the mean of nothing is NaN). */
  function LloqSignal(calib: seq<Row>): (r: Option<real>)
    ensures r.Some? <==> exists row :: row in calib && row.concentration.Some?
    ensures r.Some? ==> exists row :: row in calib && row.concentration.Some? && IsLowest(calib, row.concentration.value)
  {
    if |calib| == 0 then None
    else
      var lo := MinOpt(KeyValues(calib, ConcentrationKey));
      if lo.None? then None
      else
        var g := Group(calib, ConcentrationKey, lo.value);
        GroupNonEmpty(calib, ConcentrationKey, lo.value);
        MinIsLowest(calib);
        assert g[0] in g;
        MeanOpt(Signals(g))
  }

  /** The minimum of the concentration column is a concentration some row
      has, and no row has a lower one. */
  lemma MinIsLowest(calib: seq<Row>)
    ensures var m := MinOpt(KeyValues(calib, ConcentrationKey));
      m.Some? <==> exists row :: row in calib && row.concentration.Some?
    ensures var m := MinOpt(KeyValues(calib, ConcentrationKey));
      m.Some? ==> IsLowest(calib, m.value) && exists row :: row in calib && row.concentration == Some(m.value)
  {
    var vs := KeyValues(calib, ConcentrationKey);
    forall row | row in calib && row.concentration.Some?
      ensures row.concentration.value in vs
    {
      assert ConcentrationKey(row) == Some(row.concentration.value);
    }
  }

  /** `c` is the lowest concentration present in the table. */
  predicate IsLowest(rows: seq<Row>, c: real) {
    forall row :: row in rows && row.concentration.Some? ==> c <= row.concentration.value
  }

  /** The rows whose signals the LLOQ signal averages are calibration
      rows at the lowest concentration. */
  lemma LloqGroupIsLowest(calib: seq<Row>)
    requires LloqSignal(calib).Some?
    ensures var m := MinOpt(KeyValues(calib, ConcentrationKey));
      && m.Some?
      && |Group(calib, ConcentrationKey, m.value)| > 0
      && LloqSignal(calib) == Some(Mean(Signals(Group(calib, ConcentrationKey, m.value))))
      && forall row :: row in Group(calib, ConcentrationKey, m.value) ==>
           row in calib && row.concentration.Some? && IsLowest(calib, row.concentration.value)
  {
    var m := MinOpt(KeyValues(calib, ConcentrationKey));
    GroupNonEmpty(calib, ConcentrationKey, m.value);
    MinIsLowest(calib);
  }

  /** The LLOQ signal lies between the smallest and the largest signal
      among the rows at the lowest concentration; in particular, when
      those rows agree on one signal, that is the LLOQ signal. */
  lemma LloqSignalBounds(calib: seq<Row>, lo: real, hi: real)
    requires LloqSignal(calib).Some?
    requires forall row :: row in calib && row.concentration.Some? && IsLowest(calib, row.concentration.value) ==> lo <= row.signal <= hi
    ensures lo <= LloqSignal(calib).value <= hi
  {
    LloqGroupIsLowest(calib);
    var g := Group(calib, ConcentrationKey, MinOpt(KeyValues(calib, ConcentrationKey)).value);
    var s := Signals(g);
    forall i | 0 <= i < |s| ensures lo <= s[i] <= hi {
      assert g[i] in g;
    }
    MeanWithin(s, lo, hi);
  }

  /** A bound below every signal at the lowest concentration bounds the
      LLOQ signal from below. */
  lemma LloqSignalAtLeast(calib: seq<Row>, lo: real)
    requires LloqSignal(calib).Some?
    requires forall row :: row in calib && row.concentration.Some? && IsLowest(calib, row.concentration.value) ==> lo <= row.signal
    ensures lo <= LloqSignal(calib).value
  {
    LloqGroupIsLowest(calib);
    var g := Group(calib, ConcentrationKey, MinOpt(KeyValues(calib, ConcentrationKey)).value);
    var s := Signals(g);
    forall i | 0 <= i < |s| ensures lo <= s[i] <= MaxOf(s) {
      assert g[i] in g;
    }
    MeanWithin(s, lo, MaxOf(s));
  }

  /** `get_calibration_concentration_for_level(.., ULOQ)`: the highest
      calibration concentration, `None` when no row has one. */
  function UloqConcentration(calib: seq<Row>): (r: Option<real>)
    ensures r.Some? <==> exists row :: row in calib && row.concentration.Some?
    ensures r.Some? ==> exists row :: row in calib && row.concentration == r
    ensures r.Some? ==> forall row :: row in calib && row.concentration.Some? ==> row.concentration.value <= r.value
  {
    var vs := KeyValues(calib, ConcentrationKey);
    var m := MaxOpt(vs);
    assert m.Some? ==> forall row :: row in calib && row.concentration.Some? ==> row.concentration.value <= m.value by {
      if m.Some? {
        forall row | row in calib && row.concentration.Some?
          ensures row.concentration.value <= m.value
        {
          assert ConcentrationKey(row) == Some(row.concentration.value);
          assert row.concentration.value in vs;
        }
      }
    }
    m
  }

  /** The coefficient of variation `std / mean · 100` of replicate values,
      taken as 0 when the mean is 0 (`... if mean else 0.0`).  NaN
      (`None`) for no values, whose mean is NaN, and for a single value,
      whose standard deviation is NaN. */
  function Cv(sd: seq<real> -> real, vs: seq<real>): (cv: Option<real>)
    ensures |vs| == 0 ==> cv.None?
    ensures |vs| > 0 && Mean(vs) == 0.0 ==> cv == Some(0.0)
    ensures |vs| > 0 && Mean(vs) != 0.0 ==> (cv.Some? <==> |vs| >= 2)
    ensures |vs| >= 2 && Mean(vs) != 0.0 ==> IsPct(cv.value, sd(vs), Mean(vs))
  {
    if |vs| == 0 then None
    else
      var m := Mean(vs);
      if m == 0.0 then Some(0.0)
      else
        var s := SampleSd(sd, vs);
        if s.None? then None
        else
          RelativePctScales(s.value, Some(m));
          RelativePct(s.value, Some(m))
  }

  /** Two or more values that all agree have a CV of 0. */
  lemma CvOfAgreeingValues(sd: seq<real> -> real, vs: seq<real>)
    requires LawfulSd(sd)
    requires |vs| >= 2
    requires forall i, j :: 0 <= i < |vs| && 0 <= j < |vs| ==> vs[i] == vs[j]
    ensures Cv(sd, vs) == Some(0.0)
  {
    if Mean(vs) != 0.0 {
      assert SampleSd(sd, vs) == Some(0.0);
      RelativePctOfZero(Some(Mean(vs)));
    }
  }
}
