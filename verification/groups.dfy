/** Column extraction and `groupby` on the analysis table.  A numeric
    group key (concentration, level index, dilution factor) gives groups
    in ascending key order, as pandas does; any other key gives them in
    order of first appearance.  Rows whose key is missing (NaN) belong to
    no group, which is pandas' default `dropna=True`. */
module Groups {
  import opened Wrappers
  import opened Seqs
  import opened Sorting
  import opened Layout

  function ConcentrationKey(r: Row): Option<real> {
    r.concentration
  }

  /** Some row has concentration `c`. */
  predicate HasConcentration(rows: seq<Row>, c: real) {
    exists r :: r in rows && r.concentration == Some(c)
  }

  /** The concentration keys are the concentrations some row has. */
  lemma KeysAreConcentrations(cal: seq<Row>, ks: seq<real>)
    requires ks == NumericKeys(cal, ConcentrationKey)
    ensures forall c :: c in ks <==> HasConcentration(cal, c)
  {
    forall c ensures c in ks <==> HasConcentration(cal, c) {
      if exists r :: r in cal && r.concentration == Some(c) {
        var r :| r in cal && r.concentration == Some(c);
        assert ConcentrationKey(r) == Some(c);
      }
    }
  }

  function DilutionFactorKey(r: Row): Option<real> {
    r.dilutionFactor
  }

  function LevelIdxKey(r: Row): Option<real> {
    if r.levelIdx.Some? then Some(r.levelIdx.value as real) else None
  }

  /** The present values of an optional column, in row order (`dropna`). */
  function Defined<K(!new)>(vs: seq<Option<K>>): (d: seq<K>)
    ensures forall v :: v in d <==> Some(v) in vs
  {
    if |vs| == 0 then []
    else
      var t := Defined(vs[1..]);
      assert forall v :: Some(v) in vs <==> Some(v) == vs[0] || Some(v) in vs[1..] by {
        assert vs == [vs[0]] + vs[1..];
      }
      (if vs[0].Some? then [vs[0].value] else []) + t
  }

  /** One key per row. */
  function KeyColumn<K>(rows: seq<Row>, key: Row -> Option<K>): (c: seq<Option<K>>)
    ensures |c| == |rows|
    ensures forall i :: 0 <= i < |rows| ==> c[i] == key(rows[i])
  {
    seq(|rows|, i requires 0 <= i < |rows| => key(rows[i]))
  }

  /** The present values of a key column, in row order. */
  function KeyValues<K(!new)>(rows: seq<Row>, key: Row -> Option<K>): (d: seq<K>)
    ensures forall k :: k in d <==> exists r :: r in rows && key(r) == Some(k)
  {
    var c := KeyColumn(rows, key);
    assert forall k :: Some(k) in c <==> exists r :: r in rows && key(r) == Some(k) by {
      forall k
        ensures Some(k) in c <==> exists r :: r in rows && key(r) == Some(k)
      {
        if Some(k) in c {
          var i :| 0 <= i < |c| && c[i] == Some(k);
          assert rows[i] in rows;
        }
        if exists r :: r in rows && key(r) == Some(k) {
          var r :| r in rows && key(r) == Some(k);
          var i :| 0 <= i < |rows| && rows[i] == r;
          assert c[i] == Some(k);
        }
      }
    }
    Defined(c)
  }

  /** Group keys of a numeric column: its distinct present values,
      ascending. */
  function NumericKeys(rows: seq<Row>, key: Row -> Option<real>): (ks: seq<real>)
    ensures StrictlySorted(ks)
    ensures forall k :: k in ks <==> exists r :: r in rows && key(r) == Some(k)
  {
    SortedKeys(KeyValues(rows, key))
  }

  /** Group keys of any other column: distinct present values in order of
      first appearance. */
  function FirstKeys<K(==,!new)>(rows: seq<Row>, key: Row -> Option<K>): (ks: seq<K>)
    ensures NoDup(ks)
    ensures forall k :: k in ks <==> exists r :: r in rows && key(r) == Some(k)
  {
    Distinct(KeyValues(rows, key))
  }

  /** The rows of one group, in table order. */
  function Group<K(==)>(rows: seq<Row>, key: Row -> Option<K>, k: K): (g: seq<Row>)
    ensures forall r :: r in g <==> r in rows && key(r) == Some(k)
    ensures |g| <= |rows|
  {
    Filter(rows, (r: Row) => key(r) == Some(k))
  }

  /** Every group key names a non-empty group. */
  lemma GroupNonEmpty<K>(rows: seq<Row>, key: Row -> Option<K>, k: K)
    requires exists r :: r in rows && key(r) == Some(k)
    ensures |Group(rows, key, k)| > 0
  {
    var r :| r in rows && key(r) == Some(k);
    assert r in Group(rows, key, k);
  }

  function Xs(rows: seq<Row>): (c: seq<real>)
    ensures |c| == |rows|
    ensures forall i :: 0 <= i < |rows| ==> c[i] == rows[i].x
  {
    seq(|rows|, i requires 0 <= i < |rows| => rows[i].x)
  }

  function Signals(rows: seq<Row>): (c: seq<real>)
    ensures |c| == |rows|
    ensures forall i :: 0 <= i < |rows| ==> c[i] == rows[i].signal
  {
    seq(|rows|, i requires 0 <= i < |rows| => rows[i].signal)
  }

  /** The stored `back_calc` column. */
  function BackCalcs(rows: seq<Row>): (c: seq<real>)
    ensures |c| == |rows|
    ensures forall i :: 0 <= i < |rows| ==> c[i] == rows[i].backCalc
  {
    seq(|rows|, i requires 0 <= i < |rows| => rows[i].backCalc)
  }

  /** `curve_back(df["y"])`: the back-calculated concentration of every row. */
  function Backs(rows: seq<Row>, back: real -> real): (c: seq<real>)
    ensures |c| == |rows|
    ensures forall i :: 0 <= i < |rows| ==> c[i] == back(rows[i].y)
  {
    seq(|rows|, i requires 0 <= i < |rows| => back(rows[i].y))
  }
}
