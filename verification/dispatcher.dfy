/** The acceptance dispatcher (`EvaluateSpecs`): every field of the
    criteria object names a spec; the evaluator registered under
    `("acceptance", <spec type name>)` is applied to the context and that
    spec; the results are collected by field name, AND-ed into one verdict
    and appended to the run history. */
module Dispatcher {
  import opened Wrappers
  import opened Seqs
  import opened Registry

  /** One criteria field: its name, the type name of its spec, the spec. */
  datatype Field<S> = Field(name: string, specType: string, spec: S)

  /** What the dispatcher leaves on the context. */
  datatype Acceptance<R> = Acceptance(results: map<string, R>, history: seq<map<string, R>>, pass: bool)

  /** The result of one field, or the lookup error of its evaluator. */
  function Outcome<C, S, R>(reg: Registry<(C, S) -> R>, ctx: C, f: Field<S>): Result<R, RegistryError> {
    match Get(reg, "acceptance", f.specType)
    case Ok(fn) => Ok(fn(ctx, f.spec))
    case Err(e) => Err(e)
  }

  /** A field fails exactly when no evaluator is registered for its spec
      type, under any spelling of the type name's case; the lookup error
      then names the spec type. */
  lemma OutcomeErrIffUnregistered<C, S, R>(reg: Registry<(C, S) -> R>, ctx: C, f: Field<S>)
    ensures Outcome(reg, ctx, f).Err? <==> CanonicalKey("acceptance", f.specType) !in Keys(reg)
    ensures Outcome(reg, ctx, f).Err? ==> Outcome(reg, ctx, f).error == NotFound("acceptance", f.specType, Outcome(reg, ctx, f).error.available)
    ensures Outcome(reg, ctx, f).Ok? ==> (Lookup(reg, CanonicalKey("acceptance", f.specType)).Some?
      && Outcome(reg, ctx, f).value == Lookup(reg, CanonicalKey("acceptance", f.specType)).value(ctx, f.spec))
  {
  }

  predicate Passes<R>(r: Result<R, RegistryError>, passOf: R -> bool) {
    r.Ok? && passOf(r.value)
  }

  /** The outcome of every field, in declaration order. */
  function Outcomes<C, S, R>(reg: Registry<(C, S) -> R>, ctx: C, fields: seq<Field<S>>): (os: seq<Result<R, RegistryError>>)
    ensures |os| == |fields|
    ensures forall i :: 0 <= i < |fields| ==> os[i] == Outcome(reg, ctx, fields[i])
  {
    seq(|fields|, i requires 0 <= i < |fields| => Outcome(reg, ctx, fields[i]))
  }

  /** The error the loop stops at: the first failed lookup. */
  function FirstError<R>(os: seq<Result<R, RegistryError>>): (e: Option<RegistryError>)
    ensures e.None? <==> forall i :: 0 <= i < |os| ==> os[i].Ok?
    ensures e.Some? ==> exists i :: 0 <= i < |os| && os[i] == Err(e.value) && forall j :: 0 <= j < i ==> os[j].Ok?
  {
    if |os| == 0 then None
    else if os[0].Err? then Some(os[0].error)
    else
      var e := FirstError(os[1..]);
      assert forall i :: 1 <= i < |os| ==> os[i] == os[1..][i - 1];
      assert e.Some? ==> exists i :: 0 <= i < |os| && os[i] == Err(e.value) && forall j :: 0 <= j < i ==> os[j].Ok? by {
        if e.Some? {
          var i :| 0 <= i < |os[1..]| && os[1..][i] == Err(e.value) && forall j :: 0 <= j < i ==> os[1..][j].Ok?;
          assert os[i + 1] == Err(e.value);
        }
      }
      e
  }

  /** `results[name] = res` over the fields in order: every name is bound,
      and a later field of the same name overwrites an earlier one. */
  function Store<R>(names: seq<string>, rs: seq<R>): (m: map<string, R>)
    requires |names| == |rs|
    ensures forall n :: n in m <==> n in names
    ensures forall i :: 0 <= i < |names| && (forall j :: i < j < |names| ==> names[j] != names[i]) ==> m[names[i]] == rs[i]
    decreases |names|
  {
    if |names| == 0 then map[]
    else
      var t := names[1..];
      var m := Store(t, rs[1..]);
      var m' := if names[0] in t then m else m[names[0] := rs[0]];
      assert forall n :: n in names <==> n == names[0] || n in t;
      assert forall i :: 0 < i < |names| ==> (forall j :: i < j < |names| ==> names[j] != names[i]) ==> m'[names[i]] == rs[i] by {
        forall i | 0 < i < |names| && (forall j :: i < j < |names| ==> names[j] != names[i]) ensures m'[names[i]] == rs[i] {
          assert t[i - 1] == names[i] && rs[1..][i - 1] == rs[i];
          assert forall j :: i - 1 < j < |t| ==> t[j] != t[i - 1] by {
            forall j | i - 1 < j < |t| ensures t[j] != t[i - 1] {
              assert t[j] == names[j + 1];
            }
          }
        }
      }
      assert (forall j :: 0 < j < |names| ==> names[j] != names[0]) ==> names[0] !in t by {
        if names[0] in t {
          var k :| 0 <= k < |t| && t[k] == names[0];
          assert names[k + 1] == names[0];
        }
      }
      m'
  }

  function Names<S>(fields: seq<Field<S>>): (ns: seq<string>)
    ensures |ns| == |fields|
    ensures forall i :: 0 <= i < |fields| ==> ns[i] == fields[i].name
  {
    seq(|fields|, i requires 0 <= i < |fields| => fields[i].name)
  }

  /** The loop over the fields, given their names and outcomes in
      declaration order: the first lookup error escapes; otherwise each
      result is stored under its field name and the pass flags are AND-ed,
      starting from true. */
  function Collect<R>(names: seq<string>, os: seq<Result<R, RegistryError>>, passOf: R -> bool): (r: Result<(map<string, R>, bool), RegistryError>)
    requires |names| == |os|
    ensures r.Err? <==> exists i :: 0 <= i < |os| && os[i].Err?
    ensures r.Err? ==> exists i :: (0 <= i < |os| && os[i] == Err(r.error) && forall j :: 0 <= j < i ==> os[j].Ok?)
    ensures r.Ok? ==> forall n :: n in r.value.0 <==> n in names
    ensures r.Ok? ==> (r.value.1 <==> forall i :: 0 <= i < |os| ==> Passes(os[i], passOf))
    ensures r.Ok? ==> forall i :: 0 <= i < |os| && (forall j :: i < j < |names| ==> names[j] != names[i]) ==>
      os[i] == Ok(r.value.0[names[i]])
  {
    match FirstError(os)
    case Some(e) => Err(e)
    case None =>
      var rs := seq(|os|, i requires 0 <= i < |os| => os[i].value);
      assert forall i :: 0 <= i < |os| ==> os[i] == Ok(rs[i]);
      Ok((Store(names, rs), forall i :: 0 <= i < |rs| ==> passOf(rs[i])))
  }

  /** `EvaluateSpecs.logic`: the results of this run replace the previous
      ones and are appended to the history; the run passes when every
      field's result passes. */
  function EvaluateSpecs<C, S, R>(reg: Registry<(C, S) -> R>, passOf: R -> bool, ctx: C, fields: seq<Field<S>>, prior: Acceptance<R>): (r: Result<Acceptance<R>, RegistryError>)
    ensures r.Err? <==> exists i :: 0 <= i < |fields| && Outcome(reg, ctx, fields[i]).Err?
    ensures r.Ok? ==> r.value.history == prior.history + [r.value.results]
    ensures r.Ok? ==> forall n :: n in r.value.results <==> exists i :: 0 <= i < |fields| && fields[i].name == n
    ensures r.Ok? ==> (r.value.pass <==> forall i :: 0 <= i < |fields| ==> Passes(Outcome(reg, ctx, fields[i]), passOf))
  {
    var os := Outcomes(reg, ctx, fields);
    var ns := Names(fields);
    assert forall n :: n in ns <==> exists i :: 0 <= i < |fields| && fields[i].name == n by {
      forall n | n in ns ensures exists i :: 0 <= i < |fields| && fields[i].name == n {
        var i :| 0 <= i < |ns| && ns[i] == n;
        assert fields[i].name == n;
      }
    }
    var c := Collect(ns, os, passOf);
    OutcomesPassAlike(reg, passOf, ctx, fields, os);
    if c.Err? then Err(c.error)
    else Ok(Acceptance(c.value.0, prior.history + [c.value.0], c.value.1))
  }

  lemma OutcomesPassAlike<C, S, R>(reg: Registry<(C, S) -> R>, passOf: R -> bool, ctx: C, fields: seq<Field<S>>, os: seq<Result<R, RegistryError>>)
    requires |os| == |fields| && forall i :: 0 <= i < |fields| ==> os[i] == Outcome(reg, ctx, fields[i])
    ensures (forall i :: 0 <= i < |os| ==> Passes(os[i], passOf)) <==> forall i :: 0 <= i < |fields| ==> Passes(Outcome(reg, ctx, fields[i]), passOf)
  {
  }

  /** The error that escapes is the lookup error of the first field
      without an evaluator; the fields before it were all evaluated. */
  lemma FirstLookupErrorEscapes<C, S, R>(reg: Registry<(C, S) -> R>, passOf: R -> bool, ctx: C, fields: seq<Field<S>>, prior: Acceptance<R>)
    requires EvaluateSpecs(reg, passOf, ctx, fields, prior).Err?
    ensures var e := EvaluateSpecs(reg, passOf, ctx, fields, prior).error;
      exists i :: (0 <= i < |fields| && Outcome(reg, ctx, fields[i]) == Err(e) &&
        forall j :: 0 <= j < i ==> Outcome(reg, ctx, fields[j]).Ok?)
  {
    var os := Outcomes(reg, ctx, fields);
    assert Collect(Names(fields), os, passOf).Err?;
  }

  /** With no criteria fields the run passes, stores nothing and still
      records one (empty) history entry. */
  lemma NoFieldsPass<C, S, R>(reg: Registry<(C, S) -> R>, passOf: R -> bool, ctx: C, prior: Acceptance<R>)
    ensures var r := EvaluateSpecs(reg, passOf, ctx, [], prior);
      r.Ok? && r.value.pass && r.value.results == map[] && r.value.history == prior.history + [map[]]
  {
    var r := EvaluateSpecs(reg, passOf, ctx, [], prior);
    assert r.value.results.Keys == {};
  }

  /** A field whose name no later field repeats keeps its own result in
      the map. */
  lemma FieldKeepsItsResult<C, S, R>(reg: Registry<(C, S) -> R>, passOf: R -> bool, ctx: C, fields: seq<Field<S>>, prior: Acceptance<R>, i: nat)
    requires EvaluateSpecs(reg, passOf, ctx, fields, prior).Ok?
    requires i < |fields|
    requires forall j :: i < j < |fields| ==> fields[j].name != fields[i].name
    ensures Outcome(reg, ctx, fields[i]) == Ok(EvaluateSpecs(reg, passOf, ctx, fields, prior).value.results[fields[i].name])
  {
    var ns := Names(fields);
    assert forall j :: i < j < |ns| ==> ns[j] != ns[i];
  }

  /** Distinct field names: every field's result is stored under its own
      name, and the run grows the history by one entry, keeping the
      earlier ones. */
  lemma EachFieldKeepsItsResult<C, S, R>(reg: Registry<(C, S) -> R>, passOf: R -> bool, ctx: C, fields: seq<Field<S>>, prior: Acceptance<R>)
    requires forall i, j :: 0 <= i < j < |fields| ==> fields[i].name != fields[j].name
    requires EvaluateSpecs(reg, passOf, ctx, fields, prior).Ok?
    ensures var a := EvaluateSpecs(reg, passOf, ctx, fields, prior).value;
      && |a.history| == |prior.history| + 1
      && a.history[..|prior.history|] == prior.history
      && |a.results| <= |fields|
      && forall i :: 0 <= i < |fields| ==> Outcome(reg, ctx, fields[i]) == Ok(a.results[fields[i].name])
  {
    var a := EvaluateSpecs(reg, passOf, ctx, fields, prior).value;
    assert a.history[..|prior.history|] == prior.history;
    NamesBound(fields, a.results);
    forall i | 0 <= i < |fields| ensures Outcome(reg, ctx, fields[i]) == Ok(a.results[fields[i].name]) {
      FieldKeepsItsResult(reg, passOf, ctx, fields, prior, i);
    }
  }

  /** A map keyed by the names of some fields has no more entries than
      there are fields. */
  lemma NamesBound<S, R>(fields: seq<Field<S>>, m: map<string, R>)
    requires forall n :: n in m <==> exists i :: 0 <= i < |fields| && fields[i].name == n
    ensures |m| <= |fields|
  {
    var ns := Names(fields);
    assert m.Keys == set x | x in ns;
    SetOfSeqBound(ns);
  }
}
