/** The parallelism verdict (`eval_parallelism`): every study sample
    measured at several dilutions must back-calculate to consistent
    concentrations, judged by the coefficient of variation of its
    back-calculated values.  A sample is only assessed when it was run at
    enough dilutions and with enough replicates at each.

    The number of dilutions is, as written in the source, the number of
    DISTINCT REPLICATE COUNTS among the sample's dilution factors
    (`value_counts().nunique()`), not the number of distinct factors; the
    lemma `EqualReplicationIsOneDilution` spells out the consequence. */
module Parallelism {
  import opened Wrappers
  import opened Seqs
  import opened Stats
  import opened Layout
  import opened WellPattern
  import opened Groups
  import opened AcceptanceUtils

  /** The fields of `AnalyticalParallelismSpec` the evaluator reads. */
  datatype Spec = Spec(
    requiredPatterns: seq<Pattern>,
    minDilutions: int,
    minReplicatesEach: int,
    cvTolPct: real,
    passFraction: real
  )

  datatype SampleEntry =
    | TooFewDilutions(sampleId: string, nDilutions: nat)
    | TooFewReplicates(sampleId: string, factor: real, count: nat)
    | Assessed(sampleId: string, nDilutions: nat, cvPct: Option<real>, pass: bool)

  datatype Report =
    | MissingColumns(columns: set<Column>)
    | Missing(error: PatternError<Pattern>)
    | Evaluated(numSeries: nat, numPass: nat, passFraction: real, perSeries: seq<SampleEntry>, pass: bool)

  predicate Pass(r: Report) {
    r.Evaluated? && r.pass
  }

  predicate EntryPasses(e: SampleEntry) {
    e.Assessed? && e.pass
  }

  const RequiredColumns: set<Column> := {SampleIdCol, DilutionFactorCol, BackCalcCol}

  /** The rows the evaluator keeps: samples with an id and a dilution
      factor. */
  predicate Kept(r: Row) {
    r.sampleType == Sample && r.sampleId.Some? && r.dilutionFactor.Some?
  }

  function SampleIdKey(r: Row): Option<string> {
    r.sampleId
  }

  /** Replicates per dilution factor, factors in order of first
      appearance (`value_counts()`). */
  function FactorCounts(sub: seq<Row>): (counts: seq<nat>)
    ensures |counts| == |FirstKeys(sub, DilutionFactorKey)|
    ensures forall i :: 0 <= i < |counts| ==> counts[i] == |Group(sub, DilutionFactorKey, FirstKeys(sub, DilutionFactorKey)[i])|
  {
    var fs := FirstKeys(sub, DilutionFactorKey);
    seq(|fs|, i requires 0 <= i < |fs| => |Group(sub, DilutionFactorKey, fs[i])|)
  }

  /** `n_dilutions`: the number of distinct replicate counts. */
  function DilutionCount(counts: seq<nat>): (n: nat)
    ensures n <= |counts|
    ensures |counts| > 0 ==> n > 0
  {
    var d := Distinct(counts);
    assert |counts| > 0 ==> counts[0] in d;
    |d|
  }

  /** The first position whose count is below `min`, if any. */
  function FirstShort(counts: seq<nat>, min: int): (r: Option<nat>)
    ensures r.None? <==> forall i :: 0 <= i < |counts| ==> counts[i] >= min
    ensures r.Some? ==> r.value < |counts| && counts[r.value] < min
    ensures r.Some? ==> forall j :: 0 <= j < r.value ==> counts[j] >= min
  {
    if |counts| == 0 then None
    else if counts[0] < min then Some(0)
    else
      var t := FirstShort(counts[1..], min);
      if t.None? then None else Some(t.value + 1)
  }

  function AssessSample(sd: seq<real> -> real, spec: Spec, sub: seq<Row>, sid: string): (e: SampleEntry)
    requires |sub| > 0
    ensures e.sampleId == sid
    ensures e.TooFewDilutions? <==> DilutionCount(FactorCounts(sub)) < spec.minDilutions
    ensures e.TooFewReplicates? <==>
      && DilutionCount(FactorCounts(sub)) >= spec.minDilutions
      && exists i :: 0 <= i < |FactorCounts(sub)| && FactorCounts(sub)[i] < spec.minReplicatesEach
    ensures e.TooFewReplicates? ==> e.count < spec.minReplicatesEach && e.factor in FirstKeys(sub, DilutionFactorKey)
    ensures e.Assessed? ==> e.cvPct == Cv(sd, BackCalcs(sub))
    ensures EntryPasses(e) <==>
      && DilutionCount(FactorCounts(sub)) >= spec.minDilutions
      && (forall i :: 0 <= i < |FactorCounts(sub)| ==> FactorCounts(sub)[i] >= spec.minReplicatesEach)
      && AtMost(Cv(sd, BackCalcs(sub)), spec.cvTolPct)
  {
    var counts := FactorCounts(sub);
    var n := DilutionCount(counts);
    if n < spec.minDilutions then TooFewDilutions(sid, n)
    else
      var short := FirstShort(counts, spec.minReplicatesEach);
      if short.Some? then
        TooFewReplicates(sid, FirstKeys(sub, DilutionFactorKey)[short.value], counts[short.value])
      else
        var cv := Cv(sd, BackCalcs(sub));
        Assessed(sid, n, cv, AtMost(cv, spec.cvTolPct))
  }

  /** One entry per sample id, samples in order of first appearance. */
  function Entries(inp: Input, spec: Spec, df: seq<Row>): (es: seq<SampleEntry>)
    ensures |es| == |FirstKeys(df, SampleIdKey)|
    ensures forall i :: 0 <= i < |es| ==> es[i] == AssessSample(inp.sd, spec, Group(df, SampleIdKey, FirstKeys(df, SampleIdKey)[i]), FirstKeys(df, SampleIdKey)[i])
  {
    var ids := FirstKeys(df, SampleIdKey);
    seq(|ids|, i requires 0 <= i < |ids| =>
      GroupNonEmpty(df, SampleIdKey, ids[i]);
      AssessSample(inp.sd, spec, Group(df, SampleIdKey, ids[i]), ids[i]))
  }

  function Summarize(es: seq<SampleEntry>, spec: Spec): (rep: Report)
    ensures rep.Evaluated? && rep.perSeries == es && rep.numSeries == |es|
    ensures rep.numPass <= rep.numSeries
    ensures rep.numPass == Count(es, EntryPasses)
    ensures rep.numSeries == 0 ==> rep.passFraction == 0.0
    ensures rep.pass <==> rep.passFraction >= spec.passFraction
  {
    var k := Count(es, EntryPasses);
    var f := Fraction(k, |es|);
    Evaluated(|es|, k, f, es, f >= spec.passFraction)
  }

  /** `eval_parallelism`. */
  function Evaluate(inp: Input, spec: Spec): (rep: Report)
    ensures rep.MissingColumns? <==> !(RequiredColumns <= inp.columns)
    ensures rep.MissingColumns? ==> rep.columns == RequiredColumns - inp.columns
    ensures rep.Missing? <==> RequiredColumns <= inp.columns && exists p :: p in spec.requiredPatterns && !Present(p, Filter(inp.data, Kept))
    ensures rep.Missing? ==> rep.error.n > 0 && forall p :: p in rep.error.missing <==> p in spec.requiredPatterns && !Present(p, Filter(inp.data, Kept))
    ensures rep.Evaluated? ==> rep.perSeries == Entries(inp, spec, Filter(inp.data, Kept))
    ensures rep.Evaluated? ==> rep.numPass <= rep.numSeries && rep.numSeries == |FirstKeys(Filter(inp.data, Kept), SampleIdKey)|
    ensures rep.Evaluated? ==> (rep.pass <==> rep.passFraction >= spec.passFraction)
    ensures rep.Evaluated? && rep.numSeries == 0 ==> rep.passFraction == 0.0
  {
    if !(RequiredColumns <= inp.columns) then MissingColumns(RequiredColumns - inp.columns)
    else
      var df := Filter(inp.data, Kept);
      var missing := MissingPatterns(df, spec.requiredPatterns, Present);
      if |missing| > 0 then Missing(PatternErrorOf(missing, "Missing {n} required sample patterns"))
      else Summarize(Entries(inp, spec, df), spec)
  }

  /** The entry of every sample is one of the three outcomes the source
      records, and the sample ids reported are exactly those of the kept
      rows. */
  lemma {:induction false} EntriesNameEverySample(inp: Input, spec: Spec, df: seq<Row>)
    ensures forall s ::
      (exists i :: 0 <= i < |Entries(inp, spec, df)| && Entries(inp, spec, df)[i].sampleId == s) <==>
      exists r :: r in df && r.sampleId == Some(s)
  {
    var es := Entries(inp, spec, df);
    IdsCoverSamples(es, FirstKeys(df, SampleIdKey), df);
  }

  lemma IdsCoverSamples(es: seq<SampleEntry>, ids: seq<string>, df: seq<Row>)
    requires ids == FirstKeys(df, SampleIdKey)
    requires |es| == |ids| && forall i :: 0 <= i < |es| ==> es[i].sampleId == ids[i]
    ensures forall s :: (exists i :: 0 <= i < |es| && es[i].sampleId == s) <==> exists r :: r in df && r.sampleId == Some(s)
  {
    forall s ensures (exists i :: 0 <= i < |es| && es[i].sampleId == s) <==> s in ids {
      if s in ids {
        var i :| 0 <= i < |ids| && ids[i] == s;
        assert es[i].sampleId == s;
      }
    }
  }

  /** As written, a sample whose every dilution factor has the same number
      of replicates counts as ONE dilution, however many factors it was
      run at: three factors with three replicates each fail a
      `min_dilutions` of 3. */
  lemma EqualReplicationIsOneDilution(counts: seq<nat>, c: nat)
    requires |counts| > 0
    requires forall i :: 0 <= i < |counts| ==> counts[i] == c
    ensures DilutionCount(counts) == 1
  {
    var d := Distinct(counts);
    assert counts[0] in d;
    NoDupLength(d, [c]);
  }

  /** A sample of at least two wells, run at enough dilutions with enough
      replicates each, whose back-calculated values all agree, passes: its
      CV is 0.  (A single well has no standard deviation and fails.) */
  lemma ConsistentSamplePasses(sd: seq<real> -> real, spec: Spec, sub: seq<Row>, sid: string)
    requires LawfulSd(sd)
    requires |sub| >= 2
    requires spec.cvTolPct >= 0.0
    requires DilutionCount(FactorCounts(sub)) >= spec.minDilutions
    requires forall i :: 0 <= i < |FactorCounts(sub)| ==> FactorCounts(sub)[i] >= spec.minReplicatesEach
    requires forall i, j :: 0 <= i < |sub| && 0 <= j < |sub| ==> sub[i].backCalc == sub[j].backCalc
    ensures EntryPasses(AssessSample(sd, spec, sub, sid))
  {
    CvOfAgreeingValues(sd, BackCalcs(sub));
  }
}
