/** A required-well pattern as the evaluators apply it to a table: a
    sample type and, optionally, a QC level. */
module TablePattern {
  import opened Wrappers
  import opened Layout

  datatype Pattern = Pattern(sampleType: SampleType, qcLevel: Option<QcLevel>)

  /** Whether one row is selected by the pattern. */
  predicate Selects(p: Pattern, r: Row) {
    r.sampleType == p.sampleType && (p.qcLevel.Some? ==> r.qcLevel == p.qcLevel)
  }

  /** `mask(df)`: one flag per row. */
  function Mask(p: Pattern, rows: seq<Row>): (m: seq<bool>)
    ensures |m| == |rows|
    ensures p.qcLevel.None? ==> forall i :: 0 <= i < |rows| ==> (m[i] <==> rows[i].sampleType == p.sampleType)
    ensures p.qcLevel.Some? ==> forall i :: 0 <= i < |rows| ==>
      (m[i] <==> rows[i].sampleType == p.sampleType && rows[i].qcLevel == p.qcLevel)
  {
    seq(|rows|, i requires 0 <= i < |rows| => Selects(p, rows[i]))
  }

  function AnyTrue(m: seq<bool>): (b: bool)
    ensures b <==> exists i :: 0 <= i < |m| && m[i]
  {
    if |m| == 0 then false
    else if m[0] then true
    else
      assert forall i :: 0 < i < |m| ==> m[i] == m[1..][i - 1];
      AnyTrue(m[1..])
  }

  /** `present(df)`: some row is selected; false on an empty table. */
  function Present(p: Pattern, rows: seq<Row>): (b: bool)
    ensures b <==> exists r :: r in rows && Selects(p, r)
    ensures |rows| == 0 ==> !b
  {
    var m := Mask(p, rows);
    assert (exists r :: r in rows && Selects(p, r)) <==> (exists i :: 0 <= i < |m| && m[i]) by {
      if exists r :: r in rows && Selects(p, r) {
        var r :| r in rows && Selects(p, r);
        var i :| 0 <= i < |rows| && rows[i] == r;
        assert m[i];
      }
    }
    AnyTrue(m)
  }

  /** Appending rows never makes a present pattern absent. */
  lemma PresentMonotone(p: Pattern, rows: seq<Row>, more: seq<Row>)
    requires Present(p, rows)
    ensures Present(p, rows + more)
  {
    var r :| r in rows && Selects(p, r);
    assert r in rows + more;
  }
}
