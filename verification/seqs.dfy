/** Sequence helpers: counting, filtering and first-appearance
    de-duplication, the building blocks of every pandas selection,
    `len`, `sum(mask)` and `unique()` in the model. */
module Seqs {

  /** No value occurs twice. */
  predicate NoDup<T(==)>(s: seq<T>) {
    forall i, j :: 0 <= i < j < |s| ==> s[i] != s[j]
  }

  /** Number of elements satisfying `p`. */
  function Count<T>(s: seq<T>, p: T -> bool): (n: nat)
    ensures n <= |s|
  {
    if |s| == 0 then 0 else (if p(s[0]) then 1 else 0) + Count(s[1..], p)
  }

  /** Nothing satisfies `p`: the count is zero. */
  lemma {:induction false} CountNone<T>(s: seq<T>, p: T -> bool)
    requires forall i :: 0 <= i < |s| ==> !p(s[i])
    ensures Count(s, p) == 0
  {
    if |s| > 0 {
      CountNone(s[1..], p);
    }
  }

  /** Everything satisfies `p`: the count is the length. */
  lemma {:induction false} CountAll<T>(s: seq<T>, p: T -> bool)
    requires forall i :: 0 <= i < |s| ==> p(s[i])
    ensures Count(s, p) == |s|
  {
    if |s| > 0 {
      CountAll(s[1..], p);
    }
  }

  /** One element failing `p` keeps the count below the length. */
  lemma {:induction false} CountMissesOne<T>(s: seq<T>, p: T -> bool, k: nat)
    requires k < |s| && !p(s[k])
    ensures Count(s, p) < |s|
  {
    if k > 0 {
      CountMissesOne(s[1..], p, k - 1);
    }
  }

  /** The count is the length exactly when every element satisfies `p`. */
  lemma CountIsLengthIff<T>(s: seq<T>, p: T -> bool)
    ensures Count(s, p) == |s| <==> forall i :: 0 <= i < |s| ==> p(s[i])
  {
    if forall i :: 0 <= i < |s| ==> p(s[i]) {
      CountAll(s, p);
    } else {
      var k :| 0 <= k < |s| && !p(s[k]);
      CountMissesOne(s, p, k);
    }
  }

  /** The positions `0 .. n-1`, ascending. */
  function Range(n: nat): (r: seq<nat>)
    ensures |r| == n
    ensures forall i :: 0 <= i < n ==> r[i] == i
  {
    seq(n, i requires 0 <= i < n => i)
  }

  /** The elements satisfying `p`, in their original order (a boolean
      row selection `df[mask]`). */
  function Filter<T(!new)>(s: seq<T>, p: T -> bool): (r: seq<T>)
    ensures |r| == Count(s, p)
    ensures forall x :: x in r <==> x in s && p(x)
  {
    if |s| == 0 then [] else (if p(s[0]) then [s[0]] else []) + Filter(s[1..], p)
  }

  lemma {:induction false} FilterAppend<T(!new)>(a: seq<T>, b: seq<T>, p: T -> bool)
    ensures Filter(a + b, p) == Filter(a, p) + Filter(b, p)
  {
    if |a| == 0 {
      assert a + b == b;
    } else {
      assert (a + b)[1..] == a[1..] + b;
      FilterAppend(a[1..], b, p);
    }
  }

  /** Splitting by `p` and by its negation loses no element and invents
      none: the two parts together are a permutation of the input. */
  lemma {:induction false} FilterPartition<T(!new)>(s: seq<T>, p: T -> bool, q: T -> bool)
    requires forall x :: q(x) == !p(x)
    ensures multiset(Filter(s, p)) + multiset(Filter(s, q)) == multiset(s)
    ensures |Filter(s, p)| + |Filter(s, q)| == |s|
  {
    if |s| > 0 {
      FilterPartition(s[1..], p, q);
      assert s == [s[0]] + s[1..];
    }
  }

  /** Values of `s` in order of first appearance, each once
      (`Series.unique()`). */
  function Distinct<T(==,!new)>(s: seq<T>): (r: seq<T>)
    ensures NoDup(r)
    ensures forall x :: x in r <==> x in s
    ensures |r| <= |s|
  {
    if |s| == 0 then []
    else
      var d := Distinct(s[..|s| - 1]);
      assert forall x :: x in s <==> x in s[..|s| - 1] || x == s[|s| - 1];
      if s[|s| - 1] in d then d else d + [s[|s| - 1]]
  }

  /** A duplicate-free sequence is no longer than any sequence holding all
      of its values. */
  lemma {:induction false} NoDupLength<T>(a: seq<T>, b: seq<T>)
    requires NoDup(a)
    requires forall x :: x in a ==> x in b
    ensures |a| <= |b|
  {
    var sa := set x | x in a;
    var sb := set x | x in b;
    assert sa <= sb;
    SetOfNoDup(a);
    SetOfSeqBound(b);
    assert sb == sa + (sb - sa);
    assert sa !! (sb - sa);
    assert |sb| == |sa| + |sb - sa|;
  }

  lemma {:induction false} SetOfNoDup<T>(a: seq<T>)
    requires NoDup(a)
    ensures |set x | x in a| == |a|
  {
    if |a| > 0 {
      var t := a[1..];
      assert NoDup(t);
      SetOfNoDup(t);
      assert (set x | x in a) == {a[0]} + (set x | x in t);
      assert a[0] !in t;
    }
  }

  lemma {:induction false} SetOfSeqBound<T>(b: seq<T>)
    ensures |set x | x in b| <= |b|
  {
    if |b| > 0 {
      var t := b[1..];
      SetOfSeqBound(t);
      assert (set x | x in b) == {b[0]} + (set x | x in t);
    }
  }

  /** A subset is no larger than its superset. */
  lemma {:induction false} SubsetSize<T>(a: set<T>, b: set<T>)
    requires a <= b
    ensures |a| <= |b|
    decreases |b|
  {
    if b != {} {
      var y :| y in b;
      SubsetSize(a - {y}, b - {y});
      assert a - {y} <= b - {y};
      if y in a {
        assert |a| == |a - {y}| + 1;
      } else {
        assert a - {y} == a;
      }
    }
  }

  /** A subset as large as its superset is the superset. */
  lemma SubsetOfSameSize<T>(a: set<T>, b: set<T>)
    requires a <= b && |a| == |b|
    ensures a == b
  {
    if a != b {
      var x :| x in b && x !in a;
      SubsetSize(a, b - {x});
    }
  }
}
