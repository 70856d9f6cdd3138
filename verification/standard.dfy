/** The nominal concentrations of a serially diluted standard curve. */
module Standard {
  import opened Wrappers

  datatype StandardSeries = StandardSeries(start: real, factor: real, numLevels: int, units: string)

  datatype SeriesError = DivisionByZero

  function Pow(b: real, k: nat): (r: real)
    ensures b != 0.0 ==> r != 0.0
    ensures b > 0.0 ==> r > 0.0
  {
    if k == 0 then 1.0 else b * Pow(b, k - 1)
  }

  /** The level numbers 1..n. */
  function Levels(n: int): (r: set<int>)
    ensures forall k :: k in r <==> 1 <= k <= n
  {
    if n < 1 then {} else Levels(n - 1) + {n}
  }

  /** Nominal concentration of level `k`. */
  function LevelConcentration(s: StandardSeries, k: int): real
    requires s.factor != 0.0 && k >= 1
  {
    s.start / Pow(s.factor, k - 1)
  }

  /** `series_concentration_map`: level `k` (1-based) is the start
      concentration divided by `factor^(k-1)`. A zero factor divides by
      zero from level 2 on; `num_levels >= 2` is a field constraint of
      `StandardSeries`. */
  function SeriesMap(s: StandardSeries): (r: Result<map<int, real>, SeriesError>)
    requires s.numLevels >= 2
    ensures r.Err? <==> s.factor == 0.0
    ensures r.Ok? ==> forall k :: k in r.value <==> 1 <= k <= s.numLevels
    ensures r.Ok? ==> r.value[1] == s.start
    ensures r.Ok? ==> forall k :: 2 <= k <= s.numLevels ==> r.value[k] * s.factor == r.value[k - 1]
  {
    if s.factor == 0.0 then Err(DivisionByZero)
    else
      var m := LevelMap(s);
      LevelsChain(s);
      Ok(m)
  }

  /** Every level with its concentration. */
  function LevelMap(s: StandardSeries): (m: map<int, real>)
    requires s.factor != 0.0
    ensures forall k :: k in m <==> 1 <= k <= s.numLevels
    ensures forall k :: k in m ==> m[k] == LevelConcentration(s, k)
  {
    map k | k in Levels(s.numLevels) :: LevelConcentration(s, k)
  }

  /** Each level times the factor is the level before it. */
  lemma LevelsChain(s: StandardSeries)
    requires s.factor != 0.0
    ensures LevelConcentration(s, 1) == s.start
    ensures forall k :: 2 <= k ==> LevelConcentration(s, k) * s.factor == LevelConcentration(s, k - 1)
  {
    forall k | 2 <= k ensures LevelConcentration(s, k) * s.factor == LevelConcentration(s, k - 1) {
      NextLevel(s.start, s.factor, k - 1);
    }
  }

  lemma NextLevel(c: real, f: real, k: nat)
    requires f != 0.0 && k >= 1
    ensures c / Pow(f, k) * f == c / Pow(f, k - 1)
  {
    var p := Pow(f, k - 1);
    assert Pow(f, k) == f * p;
    assert p != 0.0;
    calc {
      c / (f * p) * f;
      == { assert (c / (f * p)) * (f * p) == c; }
      c / p;
    }
  }

  lemma QuotientPositive(a: real, b: real)
    requires a > 0.0 && b > 0.0
    ensures a / b > 0.0
  {
    assert (a / b) * b == a;
  }

  /** With a positive start and a factor above one, each level is strictly
      below the one before it. */
  lemma {:induction false} Decreasing(s: StandardSeries, k: int)
    requires s.numLevels >= 2 && s.start > 0.0 && s.factor > 1.0
    requires 2 <= k <= s.numLevels
    ensures SeriesMap(s).value[k] < SeriesMap(s).value[k - 1]
  {
    var m := SeriesMap(s).value;
    assert m[k] == LevelConcentration(s, k);
    LevelBelowPrevious(s, k);
  }

  lemma {:induction false} LevelBelowPrevious(s: StandardSeries, k: int)
    requires s.start > 0.0 && s.factor > 1.0 && k >= 2
    ensures LevelConcentration(s, k) < LevelConcentration(s, k - 1)
  {
    var c := LevelConcentration(s, k);
    assert c == s.start / Pow(s.factor, k - 1);
    assert LevelConcentration(s, k - 1) == s.start / Pow(s.factor, k - 2);
    QuotientPositive(s.start, Pow(s.factor, k - 1));
    assert c > 0.0;
    NextLevel(s.start, s.factor, k - 1);
    Grows(c, s.factor, LevelConcentration(s, k - 1));
  }

  lemma Grows(c: real, f: real, d: real)
    requires c > 0.0 && f > 1.0 && d == c * f
    ensures c < d
  {
    assert c * f - c == c * (f - 1.0);
  }
}
