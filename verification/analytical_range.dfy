/** `AnalyticalRange`: the quantifiable range of an assay with its limits
    of detection and quantitation. */
module AnalyticalRange {
  import opened Wrappers

  datatype Range = Range(lod: real, loq: Option<real>, lower: real, upper: real, units: string)

  datatype RangeError =
    | NotPositive      // a bound is zero or negative
    | LowerNotBelowUpper
    | LoqOutOfOrder    // LOD < LOQ <= lower violated

  /** Every bound, and the LOQ when given, is strictly positive. */
  predicate Positive(r: Range) {
    r.lod > 0.0 && r.lower > 0.0 && r.upper > 0.0 && (r.loq.Some? ==> r.loq.value > 0.0)
  }

  /** Construction: the positivity constraints first, then the bounds
      check, which tests `lower < upper` before the LOQ ordering. A
      positive LOQ is always truthy, so the ordering applies whenever an
      LOQ is given. */
  function Validate(r: Range): (res: Result<Range, RangeError>)
    ensures res.Ok? <==> (Positive(r) && r.lower < r.upper
                          && (r.loq.Some? ==> r.lod < r.loq.value <= r.lower))
    ensures res.Ok? ==> res.value == r
    ensures res == Err(LowerNotBelowUpper) <==> Positive(r) && r.lower >= r.upper
    ensures res == Err(LoqOutOfOrder) ==> r.loq.Some?
  {
    if !Positive(r) then Err(NotPositive)
    else if !(r.lower < r.upper) then Err(LowerNotBelowUpper)
    else if r.loq.Some? && !(r.lod < r.loq.value <= r.lower) then Err(LoqOutOfOrder)
    else Ok(r)
  }

  /** Without an LOQ the LOD is compared with nothing: replacing one
      positive LOD by another, even one above the lower bound, leaves the
      verdict unchanged. */
  lemma LodFreeWithoutLoq(r: Range, lod: real)
    requires r.loq.None? && r.lod > 0.0 && lod > 0.0
    ensures Validate(r.(lod := lod)).Ok? == Validate(r).Ok?
  {
  }

  /** An accepted range with an LOQ is ordered LOD < LOQ <= lower < upper. */
  lemma AcceptedIsOrdered(r: Range)
    requires Validate(r).Ok? && r.loq.Some?
    ensures 0.0 < r.lod < r.loq.value <= r.lower < r.upper
  {
  }
}
