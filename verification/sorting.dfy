/** Ascending order on reals: the sort behind `np.median` and the
    ascending key order of a pandas `groupby` on a numeric column. */
module Sorting {

  predicate Sorted(s: seq<real>) {
    forall i, j :: 0 <= i < j < |s| ==> s[i] <= s[j]
  }

  predicate StrictlySorted(s: seq<real>) {
    forall i, j :: 0 <= i < j < |s| ==> s[i] < s[j]
  }

  /** `x` inserted into a sorted sequence at its place. */
  function Insert(x: real, s: seq<real>): (r: seq<real>)
    requires Sorted(s)
    ensures Sorted(r)
    ensures multiset(r) == multiset(s) + multiset{x}
  {
    if |s| == 0 then [x]
    else if x <= s[0] then [x] + s
    else
      var t := Insert(x, s[1..]);
      assert s == [s[0]] + s[1..];
      assert forall y :: y in multiset(t) ==> s[0] <= y by {
        forall y | y in multiset(t) ensures s[0] <= y {
          assert y in multiset(s[1..]) || y == x;
        }
      }
      assert forall j :: 0 <= j < |t| ==> s[0] <= t[j] by {
        forall j | 0 <= j < |t| ensures s[0] <= t[j] {
          assert t[j] in multiset(t);
        }
      }
      [s[0]] + t
  }

  /** Insertion sort: a sorted permutation of the input. */
  function Sort(s: seq<real>): (r: seq<real>)
    ensures Sorted(r)
    ensures multiset(r) == multiset(s)
    ensures forall y :: y in r <==> y in s
    ensures |r| == |s|
  {
    if |s| == 0 then []
    else
      assert s == [s[0]] + s[1..];
      var r := Insert(s[0], Sort(s[1..]));
      assert forall y :: y in r <==> y in multiset(r);
      assert forall y :: y in s <==> y in multiset(s);
      r
  }

  /** A multiset has one sorted arrangement: two sorted sequences with the
      same elements are equal. */
  lemma {:induction false} SortedPermutationUnique(a: seq<real>, b: seq<real>)
    requires Sorted(a) && Sorted(b) && multiset(a) == multiset(b)
    ensures a == b
    decreases |a|
  {
    assert |a| == |multiset(a)| == |multiset(b)| == |b|;
    if |a| > 0 {
      HeadIsLeast(a, b[0]);
      HeadIsLeast(b, a[0]);
      assert a[0] == b[0];
      assert a == [a[0]] + a[1..] && b == [b[0]] + b[1..];
      assert multiset(a[1..]) == multiset(a) - multiset{a[0]};
      assert multiset(b[1..]) == multiset(b) - multiset{b[0]};
      SortedTail(a);
      SortedTail(b);
      SortedPermutationUnique(a[1..], b[1..]);
    }
  }

  /** The head of a sorted sequence is at most any of its elements. */
  lemma HeadIsLeast(s: seq<real>, x: real)
    requires Sorted(s) && x in multiset(s)
    ensures s[0] <= x
  {
    var i :| 0 <= i < |s| && s[i] == x;
    if i > 0 {
      assert s[0] <= s[i];
    }
  }

  lemma SortedTail(s: seq<real>)
    requires Sorted(s) && |s| > 0
    ensures Sorted(s[1..])
  {
    forall i, j | 0 <= i < j < |s| - 1 ensures s[1..][i] <= s[1..][j] {
      assert s[i + 1] <= s[j + 1];
    }
  }

  /** Adjacent repeats of a sorted sequence collapsed. */
  function DedupSorted(s: seq<real>): (r: seq<real>)
    requires Sorted(s)
    ensures StrictlySorted(r)
    ensures forall y :: y in r <==> y in s
    ensures |s| > 0 ==> |r| > 0 && r[0] == s[0]
  {
    if |s| <= 1 then s
    else if s[0] == s[1] then DedupSorted(s[1..])
    else
      var t := DedupSorted(s[1..]);
      assert s == [s[0]] + s[1..];
      [s[0]] + t
  }

  /** The distinct values of `s` in ascending order: the group keys of a
      pandas `groupby` on a numeric column. */
  function SortedKeys(s: seq<real>): (r: seq<real>)
    ensures StrictlySorted(r)
    ensures forall y :: y in r <==> y in s
    ensures |s| > 0 <==> |r| > 0
  {
    DedupSorted(Sort(s))
  }
}
