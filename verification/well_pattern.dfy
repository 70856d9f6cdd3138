/** A required-well pattern matched against a single well template. */
module WellPattern {
  import opened Wrappers
  import opened Layout
  import opened Well

  datatype Pattern = Pattern(
    sampleType: SampleType,
    qcLevel: Option<QcLevel>,
    needsInterferent: bool,
    carryover: bool,
    needsStabilityCondition: bool,
    needsSampleId: bool,
    recoveryStage: Option<Timepoint>
  )

  /** The fields of a well that a pattern reads. A table row carries the
      same fields as the template it was built from, so a pattern reads a
      row the same way. */
  datatype Traits = Traits(
    sampleType: SampleType,
    qcLevel: Option<QcLevel>,
    hasInterferent: bool,
    carryover: bool,
    hasStabilityCondition: bool,
    recoveryStage: Option<Timepoint>
  )

  function TemplateTraits(w: WellTemplate): Traits {
    Traits(w.sampleType, w.qcLevel, w.interferent.Some?, w.carryover, w.stabilityCondition.Some?, w.recoveryStage)
  }

  function RowTraits(r: Row): Traits {
    Traits(r.sampleType, r.qcLevel, r.interferent.Some?, r.carryover, r.stabilityCondition.Some?, r.recoveryStage)
  }

  /** The checks of `matches`, in order; the first that fails rejects.
      `needsSampleId` is never consulted. */
  function Fits(p: Pattern, t: Traits): bool {
    if t.sampleType != p.sampleType then false
    else if p.qcLevel.Some? && t.qcLevel != p.qcLevel then false
    else if p.needsInterferent != t.hasInterferent then false
    else if t.carryover != p.carryover then false
    else if p.needsStabilityCondition != t.hasStabilityCondition then false
    else if p.recoveryStage.Some? && t.recoveryStage != p.recoveryStage then false
    else true
  }

  /** `matches(well)`: the result is the conjunction of every check. */
  function Matches(p: Pattern, w: WellTemplate): (b: bool)
    ensures b <==>
      w.sampleType == p.sampleType
      && (p.qcLevel.Some? ==> w.qcLevel == p.qcLevel)
      && (p.needsInterferent <==> w.interferent.Some?)
      && w.carryover == p.carryover
      && (p.needsStabilityCondition <==> w.stabilityCondition.Some?)
      && (p.recoveryStage.Some? ==> w.recoveryStage == p.recoveryStage)
  {
    Fits(p, TemplateTraits(w))
  }

  /** `matches` applied to the fields of one table row. */
  function MatchesRow(p: Pattern, r: Row): (b: bool)
    ensures b <==>
      r.sampleType == p.sampleType
      && (p.qcLevel.Some? ==> r.qcLevel == p.qcLevel)
      && (p.needsInterferent <==> r.interferent.Some?)
      && r.carryover == p.carryover
      && (p.needsStabilityCondition <==> r.stabilityCondition.Some?)
      && (p.recoveryStage.Some? ==> r.recoveryStage == p.recoveryStage)
  {
    Fits(p, RowTraits(r))
  }

  /** A row and a template with the same pattern-relevant fields are
      matched alike. */
  lemma RowMatchesLikeTemplate(p: Pattern, r: Row, w: WellTemplate)
    requires RowTraits(r) == TemplateTraits(w)
    ensures MatchesRow(p, r) == Matches(p, w)
  {
  }

  /** Presence of a pattern in a table: some row matches it; never on an
      empty table. */
  function Present(p: Pattern, rows: seq<Row>): (b: bool)
    ensures b <==> exists r :: r in rows && MatchesRow(p, r)
    ensures |rows| == 0 ==> !b
  {
    if |rows| == 0 then false
    else if MatchesRow(p, rows[0]) then true
    else
      assert forall r :: r in rows && r != rows[0] ==> r in rows[1..];
      Present(p, rows[1..])
  }

  /** A plain blank does not satisfy a pattern that asks for a carryover
      blank, and a carryover blank does not satisfy one that does not. */
  lemma CarryoverExact(p: Pattern, r: Row)
    requires r.carryover != p.carryover
    ensures !MatchesRow(p, r)
  {
  }

  /** The `needs_sample_id` flag does not change any verdict. */
  lemma SampleIdIgnored(p: Pattern, w: WellTemplate, flag: bool)
    ensures Matches(p.(needsSampleId := flag), w) == Matches(p, w)
  {
  }

  /** A pattern without the interferent flag rejects a well that carries
      an interferent, and a pattern with it rejects one that does not. */
  lemma InterferentExact(p: Pattern, w: WellTemplate)
    requires p.needsInterferent != w.interferent.Some?
    ensures !Matches(p, w)
  {
  }
}
