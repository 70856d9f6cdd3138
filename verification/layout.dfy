/** The plate-layout vocabulary and the analysis table.  A well record
    becomes one `Row` of the table the evaluators read; columns added by
    later stages (`x`, `y`, `back_calc`, `signal_bs`, ...) are fields of
    the row whose presence in the table is tracked separately by a set of
    `Column`s, because several evaluators check for them by name. */
module Layout {
  import opened Wrappers

  datatype SampleType =
    | Blank
    | CalibrationStandard
    | InternalStandard
    | ZeroStandard
    | AnchorStandard
    | QualityControl
    | Sample

  datatype QcLevel = Lloq | Low | Mid | High | Uloq | AboveUloq

  /** The wire value of a QC level. */
  function QcLevelName(l: QcLevel): (s: string)
    ensures |s| > 0
  {
    match l
    case Lloq => "lloq"
    case Low => "low"
    case Mid => "mid"
    case High => "high"
    case Uloq => "uloq"
    case AboveUloq => "above_uloq"
  }

  /** Position of a level when the wire values are sorted as strings:
      above_uloq < high < lloq < low < mid < uloq. */
  function AlphaRank(l: QcLevel): (k: nat)
    ensures k < 6
  {
    match l
    case AboveUloq => 0
    case High => 1
    case Lloq => 2
    case Low => 3
    case Mid => 4
    case Uloq => 5
  }

  lemma AlphaRankInjective(a: QcLevel, b: QcLevel)
    ensures AlphaRank(a) == AlphaRank(b) <==> a == b
  {
  }

  /** BEFORE/AFTER marker, used both for the stability time point and for
      the extraction-recovery stage. */
  datatype Timepoint = Before | After

  /** Optional columns whose presence the evaluators test by name. */
  datatype Column =
    | SampleIdCol
    | DilutionFactorCol
    | SeriesIdCol
    | BackCalcCol
    | XCol
    | QcLevelCol
    | SignalBsCol
    | CleanSignalCol

  /** One row of the analysis table. */
  datatype Row = Row(
    well: string,
    sampleType: SampleType,
    qcLevel: Option<QcLevel>,
    concentration: Option<real>,
    signal: real,
    x: real,
    y: real,
    backCalc: real,
    sampleId: Option<string>,
    dilutionFactor: Option<real>,
    seriesId: Option<string>,
    levelIdx: Option<int>,
    interferent: Option<string>,
    carryover: bool,
    stabilityCondition: Option<string>,
    stabilityTime: Option<Timepoint>,
    recoveryStage: Option<Timepoint>,
    matrixSourceId: Option<string>,
    matrixType: Option<string>,
    signalBs: real,
    cleanSignal: real,
    isOutlier: bool,
    w: Option<real>
  )

  predicate IsQc(r: Row) {
    r.sampleType == QualityControl
  }

  predicate IsBlank(r: Row) {
    r.sampleType == Blank
  }

  predicate IsCalibration(r: Row) {
    r.sampleType == CalibrationStandard
  }

  /** A non-zero nominal concentration: a relative error against it is
      finite. */
  predicate HasNominal(r: Row) {
    r.x != 0.0
  }
}
