/** The blank-value rules of blank subtraction: each reduces the signal
    values selected by a mask to one number, or to nothing. */
module Blank {
  import opened Wrappers
  import opened Stats
  import opened Seqs

  datatype BlankRule = MeanRule | MedianRule | MinimumRule | NoBlank

  /** A true mask entry. */
  predicate Chosen(t: bool) {
    t
  }

  /** `vals[mask]`: the values whose mask entry is true, in order. */
  function Masked(vals: seq<real>, mask: seq<bool>): (m: seq<real>)
    requires |vals| == |mask|
    ensures |m| == Count(mask, Chosen) <= |vals|
    ensures forall x :: x in m ==> exists i :: 0 <= i < |vals| && mask[i] && vals[i] == x
    ensures forall i :: 0 <= i < |vals| && mask[i] ==> vals[i] in m
  {
    if |vals| == 0 then []
    else
      var rest := Masked(vals[1..], mask[1..]);
      assert forall x :: x in rest ==> exists i :: 0 <= i < |vals| && mask[i] && vals[i] == x by {
        forall x | x in rest ensures exists i :: 0 <= i < |vals| && mask[i] && vals[i] == x {
          var j :| 0 <= j < |vals| - 1 && mask[1..][j] && vals[1..][j] == x;
          assert mask[j + 1] && vals[j + 1] == x;
        }
      }
      assert forall i :: 1 <= i < |vals| && mask[i] ==> vals[i] in rest by {
        forall i | 1 <= i < |vals| && mask[i] ensures vals[i] in rest {
          assert vals[1..][i - 1] == vals[i] && mask[1..][i - 1];
        }
      }
      if mask[0] then [vals[0]] + rest else rest
  }

  /** Selecting from two column pieces is selecting from each and
      concatenating: the selection keeps every repeat, in table order. */
  lemma {:induction false} MaskedAppend(a: seq<real>, ma: seq<bool>, b: seq<real>, mb: seq<bool>)
    requires |a| == |ma| && |b| == |mb|
    ensures Masked(a + b, ma + mb) == Masked(a, ma) + Masked(b, mb)
  {
    if |a| > 0 {
      assert (a + b)[1..] == a[1..] + b;
      assert (ma + mb)[1..] == ma[1..] + mb;
      MaskedAppend(a[1..], ma[1..], b, mb);
    } else {
      assert a + b == b && ma + mb == mb;
    }
  }

  /** One value is selected exactly when its mask entry is true. */
  lemma MaskedSingle(v: real, t: bool)
    ensures Masked([v], [t]) == if t then [v] else []
  {
    assert [v][1..] == [] && [t][1..] == [];
  }

  /** The masked values are empty exactly when no mask entry is true. */
  lemma MaskedEmpty(vals: seq<real>, mask: seq<bool>)
    requires |vals| == |mask|
    ensures |Masked(vals, mask)| == 0 <==> forall i :: 0 <= i < |mask| ==> !mask[i]
  {
    var m := Masked(vals, mask);
    if |m| > 0 {
      assert m[0] in m;
    }
  }

  /** Only masked values matter: two value columns that agree wherever
      the mask is true give the same masked values. */
  lemma {:induction false} MaskedIgnoresUnmasked(a: seq<real>, b: seq<real>, mask: seq<bool>)
    requires |a| == |mask| && |b| == |mask|
    requires forall i :: 0 <= i < |mask| && mask[i] ==> a[i] == b[i]
    ensures Masked(a, mask) == Masked(b, mask)
  {
    if |mask| > 0 {
      MaskedIgnoresUnmasked(a[1..], b[1..], mask[1..]);
    }
  }

  /** The registered `blank_rule` functions. */
  function BlankValue(rule: BlankRule, vals: seq<real>, mask: seq<bool>): (r: Option<real>)
    requires |vals| == |mask|
    ensures rule == NoBlank ==> r.None?
    ensures rule != NoBlank ==> (r.Some? <==> exists i :: 0 <= i < |mask| && mask[i])
    ensures rule == MeanRule && r.Some? ==> AverageOf(r.value, Masked(vals, mask))
    ensures rule == MedianRule ==> r == Median(Masked(vals, mask))
    ensures rule == MinimumRule && r.Some? ==>
      (exists i :: 0 <= i < |mask| && mask[i] && vals[i] == r.value)
      && forall i :: 0 <= i < |mask| && mask[i] ==> r.value <= vals[i]
  {
    var m := Masked(vals, mask);
    MaskedEmpty(vals, mask);
    if |m| == 0 || rule == NoBlank then None
    else
      match rule
      case MeanRule => MeanScales(m); Some(Mean(m))
      case MedianRule => Median(m)
      case MinimumRule => MaskedMinimum(vals, mask); Some(MinOf(m))
  }

  /** The least selected value is one of the selected values, and no
      selected value is smaller. */
  lemma MaskedMinimum(vals: seq<real>, mask: seq<bool>)
    requires |vals| == |mask| && |Masked(vals, mask)| > 0
    ensures var lo := MinOf(Masked(vals, mask));
      && (exists i :: 0 <= i < |mask| && mask[i] && vals[i] == lo)
      && forall i :: 0 <= i < |mask| && mask[i] ==> lo <= vals[i]
  {
    var m := Masked(vals, mask);
    var lo := MinOf(m);
    forall i | 0 <= i < |mask| && mask[i] ensures lo <= vals[i] {
      var j :| 0 <= j < |m| && m[j] == vals[i];
    }
  }

  /** Mean, median and minimum of a non-empty selection all lie between
      the smallest and the largest selected value. */
  lemma BlankWithinRange(rule: BlankRule, vals: seq<real>, mask: seq<bool>, i: int)
    requires |vals| == |mask| && rule != NoBlank
    requires 0 <= i < |mask| && mask[i]
    ensures BlankValue(rule, vals, mask).Some?
    ensures MinOf(Masked(vals, mask)) <= BlankValue(rule, vals, mask).value <= MaxOf(Masked(vals, mask))
  {
    var m := Masked(vals, mask);
    assert vals[i] in m;
    match rule
    case MeanRule => MeanBetween(m);
    case MedianRule => MedianBetween(m);
    case MinimumRule =>
  }

  /** Every rule reads only the masked values. */
  lemma BlankIgnoresUnmasked(rule: BlankRule, a: seq<real>, b: seq<real>, mask: seq<bool>)
    requires |a| == |mask| && |b| == |mask|
    requires forall i :: 0 <= i < |mask| && mask[i] ==> a[i] == b[i]
    ensures BlankValue(rule, a, mask) == BlankValue(rule, b, mask)
  {
    MaskedIgnoresUnmasked(a, b, mask);
  }
}
