/** The process-wide plug-in table: objects are registered under a
    `(kind, name)` pair compared without regard to letter case. The table
    is an insertion-ordered association list, which is what a Python dict
    iterates as. */
module Registry {
  import opened Wrappers
  import opened Text

  type Key = (string, string)

  datatype Registry<T> = Registry(entries: seq<(Key, T)>)

  datatype RegistryError =
    | AlreadyRegistered(key: Key)
      /** No binding; `available` lists the names bound under the same
          lower-cased kind, in registration order. */
    | NotFound(kind: string, name: string, available: seq<string>)

  function CanonicalKey(kind: string, name: string): (k: Key)
    ensures k.0 == Lower(kind) && k.1 == Lower(name)
  {
    (Lower(kind), Lower(name))
  }

  function Keys<T>(reg: Registry<T>): (ks: seq<Key>)
    ensures |ks| == |reg.entries|
    ensures forall i :: 0 <= i < |ks| ==> ks[i] == reg.entries[i].0
  {
    seq(|reg.entries|, i requires 0 <= i < |reg.entries| => reg.entries[i].0)
  }

  /** Every key is bound at most once. */
  predicate Valid<T>(reg: Registry<T>) {
    forall i, j :: 0 <= i < j < |reg.entries| ==> reg.entries[i].0 != reg.entries[j].0
  }

  function Empty<T>(): (reg: Registry<T>)
    ensures Valid(reg) && |Keys(reg)| == 0
  {
    Registry([])
  }

  /** The object bound to an exact key, if any. */
  function Lookup<T>(reg: Registry<T>, key: Key): (r: Option<T>)
    ensures r.None? <==> key !in Keys(reg)
    ensures r.Some? ==> (key, r.value) in reg.entries
    ensures Valid(reg) ==> forall i :: 0 <= i < |reg.entries| && reg.entries[i].0 == key ==> r == Some(reg.entries[i].1)
  {
    LookupFrom(reg.entries, key)
  }

  function LookupFrom<T>(es: seq<(Key, T)>, key: Key): (r: Option<T>)
    ensures r.None? <==> forall i :: 0 <= i < |es| ==> es[i].0 != key
    ensures r.Some? ==> exists i :: 0 <= i < |es| && es[i].0 == key && es[i].1 == r.value && forall j :: 0 <= j < i ==> es[j].0 != key
  {
    if |es| == 0 then None
    else if es[0].0 == key then Some(es[0].1)
    else
      var r := LookupFrom(es[1..], key);
      assert r.Some? ==> exists i :: 0 <= i < |es| && es[i].0 == key && es[i].1 == r.value && forall j :: 0 <= j < i ==> es[j].0 != key by {
        if r.Some? {
          var i :| 0 <= i < |es[1..]| && es[1..][i].0 == key && es[1..][i].1 == r.value && forall j :: 0 <= j < i ==> es[1..][j].0 != key;
          assert es[i + 1].0 == key && es[i + 1].1 == r.value;
          assert forall j :: 0 <= j < i + 1 ==> es[j].0 != key by {
            forall j | 0 <= j < i + 1 ensures es[j].0 != key {
              if j > 0 { assert es[j] == es[1..][j - 1]; }
            }
          }
        }
      }
      r
  }

  /** `register(kind, name)(obj)`: binds `obj` under the lower-cased pair
      and hands `obj` back, or fails when that pair is already bound. */
  function Register<T>(reg: Registry<T>, kind: string, name: string, obj: T): (r: Result<(Registry<T>, T), RegistryError>)
    ensures r.Err? <==> CanonicalKey(kind, name) in Keys(reg)
    ensures r.Err? ==> r.error == AlreadyRegistered(CanonicalKey(kind, name))
    ensures r.Ok? ==> r.value.1 == obj
    ensures r.Ok? ==> r.value.0.entries == reg.entries + [(CanonicalKey(kind, name), obj)]
  {
    var key := CanonicalKey(kind, name);
    if key in Keys(reg) then Err(AlreadyRegistered(key))
    else Ok((Registry(reg.entries + [(key, obj)]), obj))
  }

  /** The names bound under a lower-cased kind, in registration order. */
  function NamesOfKind<T>(es: seq<(Key, T)>, kind: string): (names: seq<string>)
    ensures forall n :: n in names <==> exists i :: 0 <= i < |es| && es[i].0 == (kind, n)
    ensures |names| <= |es|
  {
    if |es| == 0 then []
    else
      var rest := NamesOfKind(es[1..], kind);
      assert forall i :: 0 < i < |es| ==> es[i] == es[1..][i - 1];
      if es[0].0.0 == kind then [es[0].0.1] + rest else rest
  }

  /** `get(kind, name)`. */
  function Get<T>(reg: Registry<T>, kind: string, name: string): (r: Result<T, RegistryError>)
    ensures r.Ok? <==> CanonicalKey(kind, name) in Keys(reg)
    ensures r.Ok? ==> Lookup(reg, CanonicalKey(kind, name)) == Some(r.value)
    ensures r.Err? ==> r.error.NotFound? && r.error.kind == kind && r.error.name == name
    ensures r.Err? ==> forall n :: n in r.error.available <==> (Lower(kind), n) in Keys(reg)
  {
    match Lookup(reg, CanonicalKey(kind, name))
    case Some(v) => Ok(v)
    case None => Err(NotFound(kind, name, NamesOfKind(reg.entries, Lower(kind))))
  }

  /** A successful registration keeps the table free of duplicate keys. */
  lemma RegisterValid<T>(reg: Registry<T>, kind: string, name: string, obj: T)
    requires Valid(reg)
    requires Register(reg, kind, name, obj).Ok?
    ensures Valid(Register(reg, kind, name, obj).value.0)
  {
    var key := CanonicalKey(kind, name);
    var es := reg.entries + [(key, obj)];
    forall i, j | 0 <= i < j < |es| ensures es[i].0 != es[j].0 {
      if j == |es| - 1 {
        assert es[i].0 == Keys(reg)[i];
      }
    }
  }

  /** After `register(k, n)(f)`, `get` finds `f` under the same pair
      written in lower case, in upper case, or as registered. */
  lemma {:induction false} RegisterThenGet<T>(reg: Registry<T>, kind: string, name: string, obj: T)
    requires Valid(reg)
    requires Register(reg, kind, name, obj).Ok?
    ensures var reg' := Register(reg, kind, name, obj).value.0;
      Get(reg', kind, name) == Ok(obj) &&
      Get(reg', Upper(kind), Upper(name)) == Ok(obj) &&
      Get(reg', Lower(kind), Lower(name)) == Ok(obj)
  {
    var reg' := Register(reg, kind, name, obj).value.0;
    RegisterValid(reg, kind, name, obj);
    var key := CanonicalKey(kind, name);
    assert (key, obj) in reg'.entries by {
      assert reg'.entries[|reg'.entries| - 1] == (key, obj);
    }
    LowerOfUpper(kind);
    LowerOfUpper(name);
    assert CanonicalKey(Upper(kind), Upper(name)) == key;
    assert CanonicalKey(Lower(kind), Lower(name)) == key;
    assert key in Keys(reg');
  }

  /** A registration changes no binding other than its own key. */
  lemma {:induction false} RegisterFrame<T>(reg: Registry<T>, kind: string, name: string, obj: T, other: Key)
    requires Register(reg, kind, name, obj).Ok?
    requires other != CanonicalKey(kind, name)
    ensures Lookup(Register(reg, kind, name, obj).value.0, other) == Lookup(reg, other)
  {
    var es := reg.entries;
    var es' := es + [(CanonicalKey(kind, name), obj)];
    LookupAppend(es, (CanonicalKey(kind, name), obj), other);
  }

  lemma {:induction false} LookupAppend<T>(es: seq<(Key, T)>, e: (Key, T), key: Key)
    requires e.0 != key
    ensures LookupFrom(es + [e], key) == LookupFrom(es, key)
  {
    if |es| > 0 {
      assert (es + [e])[1..] == es[1..] + [e];
      LookupAppend(es[1..], e, key);
    }
  }

  /** Registering a bound pair again, in any letter case, fails. */
  lemma {:induction false} RegisterTwiceFails<T>(reg: Registry<T>, kind: string, name: string, a: T, b: T)
    requires Register(reg, kind, name, a).Ok?
    ensures Register(Register(reg, kind, name, a).value.0, Upper(kind), name, b).Err?
  {
    var reg' := Register(reg, kind, name, a).value.0;
    LowerOfUpper(kind);
    assert Keys(reg')[|reg'.entries| - 1] == CanonicalKey(kind, name);
    assert CanonicalKey(Upper(kind), name) == CanonicalKey(kind, name);
  }
}
