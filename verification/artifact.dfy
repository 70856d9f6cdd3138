/** Report artifacts: a renderable unit (table, plot, text or custom
    component) and the group tree that holds them.  Only the fields the
    logic reads are kept; the payload is reduced to the distinction the
    data-type check makes. */
module Artifacts {
  import opened Wrappers

  datatype Kind = Table | Plot | Text | Custom

  /** What the payload is, as far as the check cares. */
  datatype Payload = DataFrame | OtherPayload

  datatype Artifact = Artifact(kind: Kind, name: string, id: string, data: Payload, show: bool)

  datatype ArtifactError = ExpectedDataFrame

  /** `Artifact.validate_data_type`: a table must carry a data frame; any
      other kind accepts any payload, which is passed through. */
  function ValidateDataType(kind: Kind, data: Payload): (r: Result<Payload, ArtifactError>)
    ensures r.Err? <==> kind == Table && data != DataFrame
    ensures r.Err? ==> r.error == ExpectedDataFrame
    ensures r.Ok? ==> r.value == data
  {
    if kind == Table && data != DataFrame then Err(ExpectedDataFrame) else Ok(data)
  }

  /** A group: its contents are artifacts or nested groups, in order. */
  datatype Group = Group(title: string, show: bool, contents: seq<Entry>)

  datatype Entry = Leaf(artifact: Artifact) | Nested(group: Group)

  /** `ArtifactGroup.flatten`: the artifacts in content order, each nested
      group's artifacts spliced in at its position; `show` flags are not
      consulted. */
  function Flatten(g: Group): (flat: seq<Artifact>)
    ensures |g.contents| == 0 ==> flat == []
    decreases g, |g.contents| + 1
  {
    FlattenFrom(g, 0)
  }

  /** The artifacts of the contents from position `k` on. */
  function FlattenFrom(g: Group, k: nat): seq<Artifact>
    requires k <= |g.contents|
    decreases g, |g.contents| - k
  {
    if k == |g.contents| then [] else Items(g.contents[k]) + FlattenFrom(g, k + 1)
  }

  /** What one content item contributes. */
  function Items(e: Entry): seq<Artifact>
    decreases e, 0
  {
    match e
    case Leaf(a) => [a]
    case Nested(h) => Flatten(h)
  }

  // ---------------------------------------------------------------------
  // Independent descriptions of the tree

  /** The artifact occurs somewhere in the tree. */
  predicate Contains(g: Group, a: Artifact)
    decreases g, 1
  {
    exists i :: 0 <= i < |g.contents| && EntryContains(g.contents[i], a)
  }

  predicate EntryContains(e: Entry, a: Artifact)
    decreases e, 0
  {
    match e
    case Leaf(x) => x == a
    case Nested(h) => Contains(h, a)
  }

  /** The number of artifact leaves in the tree, counted from the back. */
  function LeafCount(g: Group): nat
    decreases g, |g.contents| + 1
  {
    CountUpTo(g, |g.contents|)
  }

  function CountUpTo(g: Group, k: nat): nat
    requires k <= |g.contents|
    decreases g, k
  {
    if k == 0 then 0 else CountUpTo(g, k - 1) + EntryLeaves(g.contents[k - 1])
  }

  function EntryLeaves(e: Entry): nat
    decreases e, 0
  {
    match e
    case Leaf(_) => 1
    case Nested(h) => LeafCount(h)
  }

  /** The tree with every `show` flag, of groups and artifacts, set to `b`. */
  function ShowAll(g: Group, b: bool): (h: Group)
    ensures h.title == g.title && h.show == b && |h.contents| == |g.contents|
    decreases g, 1
  {
    Group(g.title, b, seq(|g.contents|, i requires 0 <= i < |g.contents| => ShowEntry(g.contents[i], b)))
  }

  function ShowEntry(e: Entry, b: bool): Entry
    decreases e, 0
  {
    match e
    case Leaf(a) => Leaf(a.(show := b))
    case Nested(h) => Nested(ShowAll(h, b))
  }

  function SetShow(s: seq<Artifact>, b: bool): (r: seq<Artifact>)
    ensures |r| == |s|
    ensures forall i :: 0 <= i < |s| ==> r[i] == s[i].(show := b)
  {
    seq(|s|, i requires 0 <= i < |s| => s[i].(show := b))
  }

  // ---------------------------------------------------------------------
  // Properties of flatten

  /** The output has one entry per artifact leaf. */
  lemma {:induction false} FlattenLength(g: Group)
    ensures |Flatten(g)| == LeafCount(g)
    decreases g, |g.contents| + 1
  {
    FlattenFromLength(g, 0);
  }

  lemma {:induction false} FlattenFromLength(g: Group, k: nat)
    requires k <= |g.contents|
    ensures |FlattenFrom(g, k)| + CountUpTo(g, k) == LeafCount(g)
    decreases g, |g.contents| - k
  {
    if k < |g.contents| {
      FlattenFromLength(g, k + 1);
      ItemsLength(g.contents[k]);
    }
  }

  lemma {:induction false} ItemsLength(e: Entry)
    ensures |Items(e)| == EntryLeaves(e)
    decreases e, 0
  {
    match e
    case Leaf(_) =>
    case Nested(h) => FlattenLength(h);
  }

  /** An artifact is in the output exactly when it occurs in the tree. */
  lemma {:induction false} FlattenMembers(g: Group, a: Artifact)
    ensures a in Flatten(g) <==> Contains(g, a)
    decreases g, |g.contents| + 1
  {
    FlattenFromMembers(g, 0, a);
  }

  lemma {:induction false} FlattenFromMembers(g: Group, k: nat, a: Artifact)
    requires k <= |g.contents|
    ensures a in FlattenFrom(g, k) <==> exists i :: k <= i < |g.contents| && EntryContains(g.contents[i], a)
    decreases g, |g.contents| - k
  {
    if k < |g.contents| {
      FlattenFromMembers(g, k + 1, a);
      ItemsMembers(g.contents[k], a);
    }
  }

  lemma {:induction false} ItemsMembers(e: Entry, a: Artifact)
    ensures a in Items(e) <==> EntryContains(e, a)
    decreases e, 0
  {
    match e
    case Leaf(_) =>
    case Nested(h) => FlattenMembers(h, a);
  }

  /** Flattening depends on the contents only, and splitting the contents
      splits the output at the same place: the order of the contents is
      the order of the artifacts. */
  lemma FlattenAppend(g: Group, ga: Group, gb: Group)
    requires g.contents == ga.contents + gb.contents
    ensures Flatten(g) == Flatten(ga) + Flatten(gb)
  {
    AppendFrom(g, ga, gb, 0);
  }

  lemma {:induction false} AppendFrom(g: Group, ga: Group, gb: Group, k: nat)
    requires g.contents == ga.contents + gb.contents
    requires k <= |ga.contents|
    ensures FlattenFrom(g, k) == FlattenFrom(ga, k) + Flatten(gb)
    decreases |ga.contents| - k
  {
    if k == |ga.contents| {
      ShiftFrom(g, gb, k, 0);
    } else {
      AppendFrom(g, ga, gb, k + 1);
      assert g.contents[k] == ga.contents[k];
    }
  }

  lemma {:induction false} ShiftFrom(g: Group, gb: Group, off: nat, j: nat)
    requires off <= |g.contents| && g.contents[off..] == gb.contents
    requires j <= |gb.contents|
    ensures FlattenFrom(g, off + j) == FlattenFrom(gb, j)
    decreases |gb.contents| - j
  {
    if j < |gb.contents| {
      ShiftFrom(g, gb, off, j + 1);
      assert g.contents[off + j] == g.contents[off..][j];
    }
  }

  /** Setting every `show` flag leaves the output the same artifacts in
      the same positions, with only their flag changed. */
  lemma {:induction false} FlattenIgnoresShow(g: Group, b: bool)
    ensures Flatten(ShowAll(g, b)) == SetShow(Flatten(g), b)
    decreases g, |g.contents| + 1
  {
    ShowFrom(g, b, 0);
  }

  lemma {:induction false} ShowFrom(g: Group, b: bool, k: nat)
    requires k <= |g.contents|
    ensures FlattenFrom(ShowAll(g, b), k) == SetShow(FlattenFrom(g, k), b)
    decreases g, |g.contents| - k
  {
    if k < |g.contents| {
      ShowFrom(g, b, k + 1);
      ShowItems(g.contents[k], b);
      assert ShowAll(g, b).contents[k] == ShowEntry(g.contents[k], b);
      var x := Items(g.contents[k]);
      var y := FlattenFrom(g, k + 1);
      assert SetShow(x + y, b) == SetShow(x, b) + SetShow(y, b);
    }
  }

  lemma {:induction false} ShowItems(e: Entry, b: bool)
    ensures Items(ShowEntry(e, b)) == SetShow(Items(e), b)
    decreases e, 0
  {
    match e
    case Leaf(_) =>
    case Nested(h) => FlattenIgnoresShow(h, b);
  }
}
