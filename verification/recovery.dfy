/** The validation extraction-recovery verdict (`eval_recovery`): at every
    QC level, the back-calculated values of the wells extracted after
    spiking are taken as percentages of the mean of those spiked before;
    their CV must stay within a limit, and the mean recoveries of any two
    levels must not differ by more than another. */
module ValidationRecovery {
  import opened Wrappers
  import opened Seqs
  import opened Stats
  import opened Layout
  import opened TablePattern
  import opened Groups
  import opened AcceptanceUtils

  /** The fields of `ValidationRecoverySpec` the evaluator reads. */
  datatype Spec = Spec(
    requiredPatterns: seq<Pattern>,
    minReplicatesEach: int,
    maxCvPctWithinLevel: real,
    maxDiffPctBetweenLevels: real
  )

  datatype LevelEntry =
    | TooFewReplicates(nBefore: nat, nAfter: nat)
    | Assessed(nBefore: nat, nAfter: nat, meanRecovery: Option<real>, cvRecovery: Option<real>, cvOk: bool)

  /** The comparison of the mean recoveries of two levels. */
  datatype Difference = Difference(a: QcLevel, b: QcLevel, absDiff: Option<real>, pass: bool)

  datatype Report =
    | Missing(error: PatternError<Pattern>)
    | NoRecoveryWells
    | Evaluated(
        perLevel: map<QcLevel, LevelEntry>,
        meanRecoveries: map<QcLevel, Option<real>>,
        differences: seq<Difference>,
        pass: bool
      )

  predicate Pass(r: Report) {
    r.Evaluated? && r.pass
  }

  predicate EntryPasses(e: LevelEntry) {
    e.Assessed? && e.cvOk
  }

  /** A QC well marked with a recovery stage. */
  predicate RecoveryWell(r: Row) {
    IsQc(r) && r.recoveryStage.Some?
  }

  /** The recovery wells of one level and stage. */
  function StageRows(data: seq<Row>, l: QcLevel, t: Timepoint): (g: seq<Row>)
    ensures forall r :: r in g <==> r in data && RecoveryWell(r) && r.qcLevel == Some(l) && r.recoveryStage == Some(t)
  {
    Filter(data, (r: Row) => RecoveryWell(r) && r.qcLevel == Some(l) && r.recoveryStage == Some(t))
  }

  /** The QC levels of the recovery wells. */
  function Levels(data: seq<Row>): (ls: set<QcLevel>)
    ensures forall l :: l in ls <==> exists r :: r in data && RecoveryWell(r) && r.qcLevel == Some(l)
  {
    var ls := set r | r in data && RecoveryWell(r) && r.qcLevel.Some? :: r.qcLevel.value;
    forall l | exists r :: r in data && RecoveryWell(r) && r.qcLevel == Some(l) ensures l in ls {
      var r :| r in data && RecoveryWell(r) && r.qcLevel == Some(l);
      assert l == r.qcLevel.value;
    }
    ls
  }

  /** The after-extraction values as percentages of the before-extraction
      mean; none when that mean is 0 or undefined (`pd.Series()` and NaN
      respectively, either of which leaves the mean recovery NaN). */
  function Recoveries(beforeMean: Option<real>, after: seq<real>): (rs: seq<real>)
    ensures beforeMean.None? || beforeMean == Some(0.0) ==> |rs| == 0
    ensures beforeMean.Some? && beforeMean.value != 0.0 ==> |rs| == |after|
    ensures beforeMean.Some? && beforeMean.value != 0.0 ==> forall i :: 0 <= i < |rs| ==> rs[i] * beforeMean.value == after[i] * 100.0
  {
    if beforeMean.None? || beforeMean.value == 0.0 then []
    else
      var m := beforeMean.value;
      forall i | 0 <= i < |after| ensures RelativePct(after[i], Some(m)).value * m == after[i] * 100.0 {
        RelativePctScales(after[i], Some(m));
      }
      seq(|after|, i requires 0 <= i < |after| => RelativePct(after[i], Some(m)).value)
  }

  /** The entry of one level. */
  function AssessLevel(back: real -> real, sd: seq<real> -> real, spec: Spec, data: seq<Row>, l: QcLevel): (e: LevelEntry)
    ensures e.nBefore == |StageRows(data, l, Before)| && e.nAfter == |StageRows(data, l, After)|
    ensures e.TooFewReplicates? <==> e.nBefore < spec.minReplicatesEach || e.nAfter < spec.minReplicatesEach
    ensures e.Assessed? ==>
      var rs := Recoveries(MeanOpt(Backs(StageRows(data, l, Before), back)), Backs(StageRows(data, l, After), back));
      && e.meanRecovery == MeanOpt(rs)
      && e.cvRecovery == Cv(sd, rs)
      && (e.cvOk <==> AtMost(e.cvRecovery, spec.maxCvPctWithinLevel))
  {
    var before := StageRows(data, l, Before);
    var after := StageRows(data, l, After);
    if |before| < spec.minReplicatesEach || |after| < spec.minReplicatesEach then TooFewReplicates(|before|, |after|)
    else
      var rs := Recoveries(MeanOpt(Backs(before, back)), Backs(after, back));
      var cv := Cv(sd, rs);
      Assessed(|before|, |after|, MeanOpt(rs), cv, AtMost(cv, spec.maxCvPctWithinLevel))
  }

  function PerLevel(back: real -> real, sd: seq<real> -> real, spec: Spec, data: seq<Row>): (m: map<QcLevel, LevelEntry>)
    ensures m.Keys == Levels(data)
    ensures forall l :: l in m ==> m[l] == AssessLevel(back, sd, spec, data, l)
  {
    map l | l in Levels(data) :: AssessLevel(back, sd, spec, data, l)
  }

  /** The mean recovery of every level that had enough replicates. */
  function MeanRecoveries(per: map<QcLevel, LevelEntry>): (m: map<QcLevel, Option<real>>)
    ensures forall l :: l in m <==> l in per && per[l].Assessed?
    ensures forall l :: l in m ==> m[l] == per[l].meanRecovery
  {
    map l | l in per && per[l].Assessed? :: per[l].meanRecovery
  }

  /** The levels strictly increase in the order of their wire values. */
  predicate RankSorted(ks: seq<QcLevel>) {
    forall i, j :: 0 <= i < j < |ks| ==> AlphaRank(ks[i]) < AlphaRank(ks[j])
  }

  /** Every level after the first of a rank-sorted sequence ranks above
      the first. */
  lemma RankSortedHead(ks: seq<QcLevel>)
    requires |ks| > 0 && RankSorted(ks)
    ensures RankSorted(ks[1..])
    ensures forall l :: l in ks[1..] ==> AlphaRank(ks[0]) < AlphaRank(l)
  {
    forall l | l in ks[1..] ensures AlphaRank(ks[0]) < AlphaRank(l) {
      var j :| 0 <= j < |ks[1..]| && ks[1..][j] == l;
      assert ks[j + 1] == l;
    }
  }

  /** The members of `s` taken from `order`, in the order given. */
  function InOrder(order: seq<QcLevel>, s: set<QcLevel>): (ks: seq<QcLevel>)
    requires RankSorted(order)
    ensures forall l :: l in ks <==> l in order && l in s
    ensures RankSorted(ks)
    decreases |order|
  {
    if |order| == 0 then []
    else
      RankSortedHead(order);
      var rest := InOrder(order[1..], s);
      if order[0] in s then
        assert forall l :: l in rest ==> AlphaRank(order[0]) < AlphaRank(l);
        var ks := [order[0]] + rest;
        assert forall i :: 0 < i < |ks| ==> ks[i] in rest;
        ks
      else rest
  }

  /** Every QC level, in the order of its wire value as a string. */
  const AlphaOrder: seq<QcLevel> := [AboveUloq, High, Lloq, Low, Mid, Uloq]

  /** `sorted(levels)`: the levels of `s` in the order of their wire
      values. */
  function SortedLevels(s: set<QcLevel>): (ks: seq<QcLevel>)
    ensures forall l :: l in ks <==> l in s
    ensures RankSorted(ks)
  {
    assert RankSorted(AlphaOrder);
    var ks := InOrder(AlphaOrder, s);
    forall l | l in s ensures l in ks {
      assert AlphaOrder[AlphaRank(l)] == l;
    }
    ks
  }

  /** The pairs of `a` with each of `rest`, in order. */
  function HeadPairs(a: QcLevel, rest: seq<QcLevel>): (ps: seq<(QcLevel, QcLevel)>)
    ensures |ps| == |rest|
    ensures forall j :: 0 <= j < |rest| ==> ps[j] == (a, rest[j])
  {
    seq(|rest|, j requires 0 <= j < |rest| => (a, rest[j]))
  }

  lemma InHeadPairs(a: QcLevel, rest: seq<QcLevel>, p: (QcLevel, QcLevel))
    ensures p in HeadPairs(a, rest) <==> p.0 == a && p.1 in rest
  {
    var ps := HeadPairs(a, rest);
    if p.0 == a && p.1 in rest {
      var j :| 0 <= j < |rest| && rest[j] == p.1;
      assert ps[j] == p;
    }
  }

  /** Every pair `(ks[i], ks[j])` with `i < j`, in the order of the
      nested loops. */
  function Pairs(ks: seq<QcLevel>): (ps: seq<(QcLevel, QcLevel)>)
    decreases |ks|
  {
    if |ks| == 0 then [] else HeadPairs(ks[0], ks[1..]) + Pairs(ks[1..])
  }

  /** The pairs of the nested loops are exactly the pairs of keys ordered
      as the keys are: each unordered pair of distinct levels is compared
      once, in rank order. */
  lemma {:induction false} PairsAreOrderedPairs(ks: seq<QcLevel>, a: QcLevel, b: QcLevel)
    requires RankSorted(ks)
    ensures (a, b) in Pairs(ks) <==> a in ks && b in ks && AlphaRank(a) < AlphaRank(b)
    decreases |ks|
  {
    if |ks| > 0 {
      var rest := ks[1..];
      RankSortedHead(ks);
      PairsAreOrderedPairs(rest, a, b);
      InHeadPairs(ks[0], rest, (a, b));
      assert forall l :: l in ks <==> l == ks[0] || l in rest;
    }
  }

  /** Each pair appears once. */
  lemma {:induction false} PairsHaveNoDuplicates(ks: seq<QcLevel>)
    requires RankSorted(ks)
    ensures NoDup(Pairs(ks))
    decreases |ks|
  {
    if |ks| > 0 {
      var rest := ks[1..];
      RankSortedHead(ks);
      PairsHaveNoDuplicates(rest);
      var here := HeadPairs(ks[0], rest);
      var tail := Pairs(rest);
      var ps := here + tail;
      forall i, j | 0 <= i < j < |ps| ensures ps[i] != ps[j] {
        if j < |here| {
          assert AlphaRank(rest[i]) < AlphaRank(rest[j]);
        } else if i < |here| {
          var q := tail[j - |here|];
          PairsAreOrderedPairs(rest, q.0, q.1);
          assert q in tail;
        } else {
          assert tail[i - |here|] != tail[j - |here|];
        }
      }
    }
  }

  /** The pairs of levels compared, both of them levels with a mean
      recovery. */
  function LevelPairs(m: map<QcLevel, Option<real>>): (ps: seq<(QcLevel, QcLevel)>)
    ensures forall i :: 0 <= i < |ps| ==> ps[i].0 in m && ps[i].1 in m
  {
    var ks := SortedLevels(m.Keys);
    var ps := Pairs(ks);
    forall i | 0 <= i < |ps| ensures ps[i].0 in m && ps[i].1 in m {
      PairsAreOrderedPairs(ks, ps[i].0, ps[i].1);
      assert (ps[i].0, ps[i].1) in ps;
    }
    ps
  }

  /** Mean recoveries within the limit of each other. */
  predicate Close(spec: Spec, ra: Option<real>, rb: Option<real>) {
    ra.Some? && rb.Some? && Abs(ra.value - rb.value) <= spec.maxDiffPctBetweenLevels
  }

  /** The between-level comparison of one pair: the absolute difference of
      the mean recoveries, NaN when either is NaN. */
  function DifferenceOf(spec: Spec, m: map<QcLevel, Option<real>>, a: QcLevel, b: QcLevel): (d: Difference)
    requires a in m && b in m
    ensures d.a == a && d.b == b
    ensures d.pass <==> Close(spec, m[a], m[b])
  {
    var ra, rb := m[a], m[b];
    var diff := if ra.Some? && rb.Some? then Some(Abs(ra.value - rb.value)) else None;
    Difference(a, b, diff, AtMost(diff, spec.maxDiffPctBetweenLevels))
  }

  function Differences(spec: Spec, m: map<QcLevel, Option<real>>): (ds: seq<Difference>)
    ensures var ps := LevelPairs(m);
      |ds| == |ps| && forall i :: 0 <= i < |ds| ==> ds[i] == DifferenceOf(spec, m, ps[i].0, ps[i].1)
  {
    var ps := LevelPairs(m);
    seq(|ps|, i requires 0 <= i < |ps| => DifferenceOf(spec, m, ps[i].0, ps[i].1))
  }

  predicate DifferencePasses(d: Difference) {
    d.pass
  }

  function Summarize(spec: Spec, per: map<QcLevel, LevelEntry>): (rep: Report)
    ensures rep.Evaluated? && rep.perLevel == per
    ensures rep.meanRecoveries == MeanRecoveries(per)
    ensures rep.differences == Differences(spec, rep.meanRecoveries)
    ensures rep.pass <==>
      && (forall l :: l in per ==> EntryPasses(per[l]))
      && (forall i :: 0 <= i < |rep.differences| ==> DifferencePasses(rep.differences[i]))
  {
    var m := MeanRecoveries(per);
    var ds := Differences(spec, m);
    var allCv := forall l :: l in per ==> EntryPasses(per[l]);
    var between := forall i :: 0 <= i < |ds| ==> DifferencePasses(ds[i]);
    Evaluated(per, m, ds, allCv && between)
  }

  /** `eval_recovery`: the required patterns are checked first, then at
      least one recovery well must exist. */
  function Evaluate(inp: Input, spec: Spec): (rep: Report)
    ensures rep.Missing? <==> exists p :: p in spec.requiredPatterns && !Present(p, inp.data)
    ensures rep.Missing? ==> rep.error.n > 0 && forall p :: p in rep.error.missing <==> p in spec.requiredPatterns && !Present(p, inp.data)
    ensures rep.NoRecoveryWells? <==>
      && (forall p :: p in spec.requiredPatterns ==> Present(p, inp.data))
      && (forall r :: r in inp.data ==> !RecoveryWell(r))
    ensures rep.Evaluated? ==> rep.perLevel == PerLevel(inp.back, inp.sd, spec, inp.data)
    ensures rep.Evaluated? ==> rep.perLevel.Keys == Levels(inp.data)
    ensures rep.Evaluated? ==> rep.differences == Differences(spec, MeanRecoveries(rep.perLevel))
    ensures rep.Evaluated? ==> (rep.pass <==>
      && (forall l :: l in rep.perLevel ==> EntryPasses(rep.perLevel[l]))
      && (forall i :: 0 <= i < |rep.differences| ==> DifferencePasses(rep.differences[i])))
  {
    var missing := MissingPatterns(inp.data, spec.requiredPatterns, Present);
    if |missing| > 0 then Missing(PatternErrorOf(missing, "Missing {n} required recovery pattern(s)"))
    else
      var wells := Filter(inp.data, RecoveryWell);
      if |wells| == 0 then NoRecoveryWells
      else
        assert wells[0] in wells;
        Summarize(spec, PerLevel(inp.back, inp.sd, spec, inp.data))
  }

  /** A comparison that passes shows its two levels close. */
  lemma PassingDifferencesAreClose(spec: Spec, m: map<QcLevel, Option<real>>, a: QcLevel, b: QcLevel)
    requires forall i :: 0 <= i < |Differences(spec, m)| ==> DifferencePasses(Differences(spec, m)[i])
    requires a in m && b in m && AlphaRank(a) < AlphaRank(b)
    ensures Close(spec, m[a], m[b])
  {
    var ks := SortedLevels(m.Keys);
    var ps := LevelPairs(m);
    PairsAreOrderedPairs(ks, a, b);
    var i :| 0 <= i < |ps| && ps[i] == (a, b);
    assert DifferencePasses(Differences(spec, m)[i]);
  }

  /** Close levels pass every comparison. */
  lemma CloseLevelsPassDifferences(spec: Spec, m: map<QcLevel, Option<real>>)
    requires forall a, b :: a in m && b in m && a != b ==> Close(spec, m[a], m[b])
    ensures forall i :: 0 <= i < |Differences(spec, m)| ==> DifferencePasses(Differences(spec, m)[i])
  {
    var ks := SortedLevels(m.Keys);
    var ps := LevelPairs(m);
    forall i | 0 <= i < |ps| ensures ps[i].0 != ps[i].1 {
      PairsAreOrderedPairs(ks, ps[i].0, ps[i].1);
      assert (ps[i].0, ps[i].1) in ps;
    }
  }

  /** The between-level check passes exactly when every two distinct
      levels with a mean recovery have defined means within the limit of
      each other. */
  lemma BetweenLevelsIff(spec: Spec, m: map<QcLevel, Option<real>>)
    ensures (forall i :: 0 <= i < |Differences(spec, m)| ==> DifferencePasses(Differences(spec, m)[i])) <==>
      forall a, b :: a in m && b in m && a != b ==> Close(spec, m[a], m[b])
  {
    if forall i :: 0 <= i < |Differences(spec, m)| ==> DifferencePasses(Differences(spec, m)[i]) {
      forall a, b | a in m && b in m && a != b ensures Close(spec, m[a], m[b]) {
        AlphaRankInjective(a, b);
        if AlphaRank(a) < AlphaRank(b) {
          PassingDifferencesAreClose(spec, m, a, b);
        } else {
          PassingDifferencesAreClose(spec, m, b, a);
        }
      }
    }
    if forall a, b :: a in m && b in m && a != b ==> Close(spec, m[a], m[b]) {
      CloseLevelsPassDifferences(spec, m);
    }
  }

  /** A run whose recovery wells carry no QC level passes: there is no
      level to fail and no pair to compare. */
  lemma NoLevelsPasses(inp: Input, spec: Spec)
    requires forall p :: p in spec.requiredPatterns ==> Present(p, inp.data)
    requires exists r :: r in inp.data && RecoveryWell(r)
    requires forall r :: r in inp.data && RecoveryWell(r) ==> r.qcLevel.None?
    ensures Pass(Evaluate(inp, spec))
  {
    var r :| r in inp.data && RecoveryWell(r);
    assert r in Filter(inp.data, RecoveryWell);
    var rep := Evaluate(inp, spec);
    assert rep.Evaluated?;
    assert Levels(inp.data) == {};
    assert rep.perLevel.Keys == {};
    var m := MeanRecoveries(rep.perLevel);
    assert m.Keys == {};
    var ks := SortedLevels(m.Keys);
    assert forall l :: l !in ks;
    assert |rep.differences| == |LevelPairs(m)| == 0;
  }
}
