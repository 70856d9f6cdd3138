/** `WellTemplate`: one physical well and its role in the assay, with the
    field constraints and cross-field validators a template must satisfy
    before it is accepted. */
module Well {
  import opened Wrappers
  import opened Text
  import opened Layout
  import opened Seqs

  datatype WellTemplate = WellTemplate(
    well: string,
    fileRow: int,
    fileCol: int,
    sampleId: Option<string>,
    sampleType: SampleType,
    interferent: Option<string>,
    carryover: bool,
    stabilityCondition: Option<string>,
    stabilityTime: Option<Timepoint>,
    recoveryStage: Option<Timepoint>,
    qcLevel: Option<QcLevel>,
    replicate: Option<int>,
    levelIdx: Option<int>,
    concentration: Option<real>,
    concentrationUnits: Option<string>,
    exclude: bool,
    excludeReason: Option<string>
  )

  datatype WellError =
    // field constraints, all reported together
    | BadWellId
    | NegativeFileRow
    | NegativeFileCol
    | ReplicateBelowOne
    | LevelIdxBelowOne
    // cross-field validators, the first failing one is reported
    | ExcludeWithoutReason
    | ConcentrationWithoutUnits
    | QcLevelOnNonQc
    | CarryoverOnNonBlank
    | StabilityFieldsUnpaired
    | RecoveryOnNonQc
    | RecoveryWithoutQcLevel
    | StandardWithoutConcentration
    | LevelIdxOnNonStandard

  predicate IsLetter(c: char) { 'A' <= c <= 'Z' }
  predicate IsDigit(c: char) { '0' <= c <= '9' }

  /** Number of leading capital letters. */
  function LeadingLetters(s: string): (k: nat)
    ensures k <= |s|
    ensures forall i :: 0 <= i < k ==> IsLetter(s[i])
    ensures k < |s| ==> !IsLetter(s[k])
  {
    if |s| > 0 && IsLetter(s[0]) then 1 + LeadingLetters(s[1..]) else 0
  }

  predicate AllDigits(s: string) {
    forall i :: 0 <= i < |s| ==> IsDigit(s[i])
  }

  /** Plate notation, checked left to right: one to three capital letters,
      then a digit 1-9, then any digits. */
  predicate WellIdOk(s: string) {
    var k := LeadingLetters(s);
    1 <= k <= 3 && k < |s| && '1' <= s[k] <= '9' && AllDigits(s[k + 1..])
  }

  /** The same notation read as the regular expression
      `^[A-Z]{1,3}[1-9][0-9]*$`: some split of the text matches it. */
  ghost predicate MatchesWellPattern(s: string) {
    exists k :: 1 <= k <= 3 && k < |s|
      && (forall i :: 0 <= i < k ==> IsLetter(s[i]))
      && '1' <= s[k] <= '9'
      && AllDigits(s[k + 1..])
  }

  lemma WellIdOkIsPattern(s: string)
    ensures WellIdOk(s) <==> MatchesWellPattern(s)
  {
    if MatchesWellPattern(s) {
      var k :| 1 <= k <= 3 && k < |s|
        && (forall i :: 0 <= i < k ==> IsLetter(s[i]))
        && '1' <= s[k] <= '9'
        && AllDigits(s[k + 1..]);
      var n := LeadingLetters(s);
      // a digit stops the letter run exactly at k
      if n < k {
        assert false;
      } else if n > k {
        assert false;
      }
    }
  }

  /** The well-ID field validator: strip, upper-case, then check. */
  function NormalizeWellId(raw: string): (r: Option<string>)
    ensures r.Some? <==> WellIdOk(Upper(Strip(raw)))
    ensures r.Some? ==> r.value == Upper(Strip(raw)) && MatchesWellPattern(r.value)
  {
    var v := Upper(Strip(raw));
    WellIdOkIsPattern(v);
    if WellIdOk(v) then Some(v) else None
  }

  /** The error of one constraint, when it fails. */
  function Check(fails: bool, e: WellError): (errs: seq<WellError>)
    ensures e in errs <==> fails
    ensures errs == [] <==> !fails
    ensures forall x :: x in errs ==> x == e
  {
    if fails then [e] else []
  }

  /** Every per-field constraint holds. */
  predicate FieldsOk(w: WellTemplate, idOk: bool) {
    idOk && w.fileRow >= 0 && w.fileCol >= 0
    && (w.replicate.Some? ==> w.replicate.value >= 1)
    && (w.levelIdx.Some? ==> w.levelIdx.value >= 1)
  }

  /** The failures of the per-field constraints, in field order; `idOk`
      is the verdict of the well-ID validator. */
  function FieldErrors(w: WellTemplate, idOk: bool): (errs: seq<WellError>)
    ensures BadWellId in errs <==> !idOk
    ensures NegativeFileRow in errs <==> w.fileRow < 0
    ensures NegativeFileCol in errs <==> w.fileCol < 0
    ensures ReplicateBelowOne in errs <==> w.replicate.Some? && w.replicate.value < 1
    ensures LevelIdxBelowOne in errs <==> w.levelIdx.Some? && w.levelIdx.value < 1
    ensures errs == [] <==> FieldsOk(w, idOk)
  {
    Check(!idOk, BadWellId)
    + Check(w.fileRow < 0, NegativeFileRow)
    + Check(w.fileCol < 0, NegativeFileCol)
    + Check(w.replicate.Some? && w.replicate.value < 1, ReplicateBelowOne)
    + Check(w.levelIdx.Some? && w.levelIdx.value < 1, LevelIdxBelowOne)
  }

  predicate ExcludeOk(w: WellTemplate) {
    w.exclude ==> w.excludeReason.Some? && |w.excludeReason.value| > 0
  }

  predicate UnitsOk(w: WellTemplate) {
    w.concentration.Some? <==> w.concentrationUnits.Some?
  }

  predicate QcLevelOk(w: WellTemplate) {
    w.qcLevel.Some? ==> w.sampleType == QualityControl
  }

  predicate CarryoverOk(w: WellTemplate) {
    w.carryover ==> w.sampleType == Blank
  }

  predicate StabilityOk(w: WellTemplate) {
    w.stabilityCondition.Some? <==> w.stabilityTime.Some?
  }

  predicate RecoveryOk(w: WellTemplate) {
    w.recoveryStage.Some? ==> w.sampleType == QualityControl && w.qcLevel.Some?
  }

  predicate StandardOk(w: WellTemplate) {
    if w.sampleType == CalibrationStandard then w.levelIdx.Some? || w.concentration.Some?
    else w.levelIdx.None?
  }

  /** Every cross-field rule of a well template. */
  predicate CrossFieldOk(w: WellTemplate) {
    ExcludeOk(w) && UnitsOk(w) && QcLevelOk(w) && CarryoverOk(w)
    && StabilityOk(w) && RecoveryOk(w) && StandardOk(w)
  }

  /** The model validators run in declaration order; the first that
      objects stops validation. */
  function FirstCrossFieldError(w: WellTemplate): (e: Option<WellError>)
    ensures e.None? <==> CrossFieldOk(w)
    ensures e == Some(ExcludeWithoutReason) <==> !ExcludeOk(w)
    ensures e == Some(ConcentrationWithoutUnits) ==> !UnitsOk(w)
    ensures e == Some(QcLevelOnNonQc) ==> !QcLevelOk(w)
    ensures e == Some(CarryoverOnNonBlank) ==> !CarryoverOk(w)
    ensures e == Some(StabilityFieldsUnpaired) ==> !StabilityOk(w)
    ensures e == Some(RecoveryOnNonQc) ==> w.recoveryStage.Some? && w.sampleType != QualityControl
    ensures e == Some(RecoveryWithoutQcLevel) ==> w.recoveryStage.Some? && w.qcLevel.None?
    ensures e == Some(StandardWithoutConcentration) ==> w.sampleType == CalibrationStandard && w.levelIdx.None? && w.concentration.None?
    ensures e == Some(LevelIdxOnNonStandard) ==> w.sampleType != CalibrationStandard && w.levelIdx.Some?
  {
    if !ExcludeOk(w) then Some(ExcludeWithoutReason)
    else if !UnitsOk(w) then Some(ConcentrationWithoutUnits)
    else if !QcLevelOk(w) then Some(QcLevelOnNonQc)
    else if !CarryoverOk(w) then Some(CarryoverOnNonBlank)
    else if !StabilityOk(w) then Some(StabilityFieldsUnpaired)
    else if w.recoveryStage.Some? && w.sampleType != QualityControl then Some(RecoveryOnNonQc)
    else if w.recoveryStage.Some? && w.qcLevel.None? then Some(RecoveryWithoutQcLevel)
    else if w.sampleType == CalibrationStandard && !StandardOk(w) then Some(StandardWithoutConcentration)
    else if !StandardOk(w) then Some(LevelIdxOnNonStandard)
    else None
  }

  /** Construction of a `WellTemplate`: the accepted template carries the
      normalised well ID. */
  function Validate(w: WellTemplate): (r: Result<WellTemplate, seq<WellError>>)
    ensures r.Ok? <==> FieldsOk(w, NormalizeWellId(w.well).Some?) && CrossFieldOk(w)
    ensures r.Ok? ==> r.value == w.(well := Upper(Strip(w.well)))
    ensures r.Err? ==> |r.error| > 0
    ensures !FieldsOk(w, NormalizeWellId(w.well).Some?) ==> r == Err(FieldErrors(w, NormalizeWellId(w.well).Some?))
    ensures FieldsOk(w, NormalizeWellId(w.well).Some?) && !CrossFieldOk(w) ==> r == Err([FirstCrossFieldError(w).value])
  {
    var id := NormalizeWellId(w.well);
    var errs := FieldErrors(w, id.Some?);
    if errs != [] then Err(errs)
    else match FirstCrossFieldError(w)
      case Some(e) => Err([e])
      case None => Ok(w.(well := id.value))
  }

  /** An accepted template satisfies every field constraint and every
      cross-field rule, and its well ID is in plate notation. */
  lemma ValidatedInvariants(w: WellTemplate)
    requires Validate(w).Ok?
    ensures var v := Validate(w).value;
      MatchesWellPattern(v.well) && v.fileRow >= 0 && v.fileCol >= 0
      && (v.replicate.Some? ==> v.replicate.value >= 1)
      && (v.levelIdx.Some? ==> v.levelIdx.value >= 1)
      && CrossFieldOk(v)
  {
    assert NormalizeWellId(w.well).Some?;
  }

  /** Validation is idempotent: the normalised template validates to itself. */
  lemma ValidateIdempotent(w: WellTemplate)
    requires Validate(w).Ok?
    ensures Validate(Validate(w).value) == Validate(w)
  {
    var v := Validate(w).value;
    assert FieldsOk(w, true) && CrossFieldOk(w) && WellIdOk(v.well) by {
      assert NormalizeWellId(w.well).Some?;
    }
    NormalizeFixpoint(v.well);
    assert FieldsOk(v, true) && CrossFieldOk(v);
  }

  /** A canonical well ID normalises to itself. */
  lemma NormalizeFixpoint(id: string)
    requires WellIdOk(id)
    ensures NormalizeWellId(id) == Some(id)
  {
    StripOfWellId(id);
    forall i | 0 <= i < |id| ensures UpperChar(id[i]) == id[i] {
      var k := LeadingLetters(id);
      if i > k {
        assert id[i] == id[k + 1..][i - (k + 1)];
      }
    }
    assert Upper(id) == id;
  }

  /** A well ID in plate notation has no surrounding whitespace. */
  lemma StripOfWellId(s: string)
    requires WellIdOk(s)
    ensures Strip(s) == s
  {
    assert !IsSpace(s[0]);
    assert IsDigit(s[|s| - 1]) by {
      var k := LeadingLetters(s);
      if |s| - 1 > k {
        assert s[|s| - 1] == s[k + 1..][|s| - 1 - (k + 1)];
      }
    }
    assert StripLeft(s) == s;
  }
}
