/** What the validation accuracy and precision verdicts share: the rows a
    required pattern selects in their per-level loop, which QC levels count
    as edge levels, NaN-propagating addition, and the `per_level` report
    dictionary, in which a later pattern with the same QC level replaces the
    entry of an earlier one. */
module QcLevels {
  import opened Wrappers
  import opened Seqs
  import opened Layout
  import opened TablePattern

  /** `(qc_level == pat.qc_level) & (sample_type == pat.sample_type)`; a
      pattern without a QC level selects nothing, since pandas compares
      every value with `None` as unequal. */
  predicate InLevel(p: Pattern, r: Row) {
    p.qcLevel.Some? && r.qcLevel == p.qcLevel && r.sampleType == p.sampleType
  }

  function LevelRows(qc: seq<Row>, p: Pattern): (g: seq<Row>)
    ensures forall r :: r in g <==> r in qc && InLevel(p, r)
    ensures |g| <= |qc|
  {
    Filter(qc, (r: Row) => InLevel(p, r))
  }

  /** LLOQ and ULOQ take the edge tolerances. */
  predicate IsEdge(l: Option<QcLevel>) {
    l == Some(Lloq) || l == Some(Uloq)
  }

  /** Addition of two possibly-NaN values. */
  function OptAdd(a: Option<real>, b: Option<real>): (s: Option<real>)
    ensures s.Some? <==> a.Some? && b.Some?
    ensures s.Some? ==> s.value == a.value + b.value
  {
    if a.Some? && b.Some? then Some(a.value + b.value) else None
  }

  /** The QC levels of the patterns, in order. */
  function PatternLevels(ps: seq<Pattern>): (ls: seq<Option<QcLevel>>)
    ensures |ls| == |ps|
    ensures forall i :: 0 <= i < |ps| ==> ls[i] == ps[i].qcLevel
  {
    seq(|ps|, i requires 0 <= i < |ps| => ps[i].qcLevel)
  }

  /** `per_level[k] = v` for each pair in turn: the keys are those
      given (`KeyedLastWins` says which value each keeps). */
  function KeyedLast<V>(ks: seq<Option<QcLevel>>, vs: seq<V>): (m: map<Option<QcLevel>, V>)
    requires |ks| == |vs|
    ensures forall k :: k in m <==> k in ks
    decreases |ks|
  {
    if |ks| == 0 then map[]
    else
      var n := |ks| - 1;
      var m := KeyedLast(ks[..n], vs[..n]);
      assert forall k :: k in ks <==> k in ks[..n] || k == ks[n] by {
        assert ks == ks[..n] + [ks[n]];
      }
      m[ks[n] := vs[n]]
  }

  /** Each key maps to the value of its LAST occurrence. */
  lemma {:induction false} KeyedLastWins<V>(ks: seq<Option<QcLevel>>, vs: seq<V>, i: nat)
    requires |ks| == |vs|
    requires i < |ks|
    requires forall j :: i < j < |ks| ==> ks[j] != ks[i]
    ensures ks[i] in KeyedLast(ks, vs) && KeyedLast(ks, vs)[ks[i]] == vs[i]
    decreases |ks|
  {
    var n := |ks| - 1;
    if i < n {
      assert forall j :: i < j < n ==> ks[..n][j] == ks[j];
      KeyedLastWins(ks[..n], vs[..n], i);
      assert ks[..n][i] == ks[i] && vs[..n][i] == vs[i];
      assert ks[n] != ks[i];
    }
  }

  /** The dictionary has one entry per distinct key. */
  lemma {:induction false} KeyedLastSize<V>(ks: seq<Option<QcLevel>>, vs: seq<V>)
    requires |ks| == |vs|
    ensures |KeyedLast(ks, vs)| == |Distinct(ks)|
  {
    var m := KeyedLast(ks, vs);
    var d := Distinct(ks);
    assert m.Keys == set k | k in d;
    SetOfNoDup(d);
  }
}
