/** ASCII case mapping and whitespace stripping, the parts of Python's
    `str.lower()`, `str.upper()` and `str.strip()` the model relies on. */
module Text {

  function LowerChar(c: char): (d: char)
    ensures 'A' <= c <= 'Z' ==> d as int == c as int + 32
    ensures !('A' <= c <= 'Z') ==> d == c
  {
    if 'A' <= c <= 'Z' then (c as int + 32) as char else c
  }

  function UpperChar(c: char): (d: char)
    ensures 'a' <= c <= 'z' ==> d as int == c as int - 32
    ensures !('a' <= c <= 'z') ==> d == c
  {
    if 'a' <= c <= 'z' then (c as int - 32) as char else c
  }

  /** `str.lower()` on the ASCII letters. */
  function Lower(s: string): (r: string)
    ensures |r| == |s|
    ensures forall i :: 0 <= i < |s| ==> r[i] == LowerChar(s[i])
  {
    seq(|s|, i requires 0 <= i < |s| => LowerChar(s[i]))
  }

  /** `str.upper()` on the ASCII letters. */
  function Upper(s: string): (r: string)
    ensures |r| == |s|
    ensures forall i :: 0 <= i < |s| ==> r[i] == UpperChar(s[i])
  {
    seq(|s|, i requires 0 <= i < |s| => UpperChar(s[i]))
  }

  /** Lower-casing forgets whatever case the text was written in. */
  lemma LowerOfUpper(s: string)
    ensures Lower(Upper(s)) == Lower(s)
    ensures Lower(Lower(s)) == Lower(s)
  {
    assert forall i :: 0 <= i < |s| ==> LowerChar(UpperChar(s[i])) == LowerChar(s[i]);
  }

  lemma UpperOfLower(s: string)
    ensures Upper(Lower(s)) == Upper(s)
    ensures Upper(Upper(s)) == Upper(s)
  {
    assert forall i :: 0 <= i < |s| ==> UpperChar(LowerChar(s[i])) == UpperChar(s[i]);
  }

  /** The ASCII whitespace characters `str.strip()` removes. */
  predicate IsSpace(c: char) {
    c == ' ' || c == '\t' || c == '\n' || c == '\r' || c as int == 11 || c as int == 12
  }

  function StripLeft(s: string): (r: string)
    ensures |r| <= |s|
    ensures |r| > 0 ==> !IsSpace(r[0])
    ensures forall i :: 0 <= i < |s| - |r| ==> IsSpace(s[i])
    ensures r == s[|s| - |r|..]
  {
    if |s| > 0 && IsSpace(s[0]) then StripLeft(s[1..]) else s
  }

  function StripRight(s: string): (r: string)
    ensures |r| <= |s|
    ensures |r| > 0 ==> !IsSpace(r[|r| - 1]) && r[0] == s[0]
    ensures forall i :: |r| <= i < |s| ==> IsSpace(s[i])
    ensures r == s[..|r|]
  {
    if |s| > 0 && IsSpace(s[|s| - 1]) then StripRight(s[..|s| - 1]) else s
  }

  /** `r` is `s[k..m]`, and only whitespace lies outside that slice. */
  predicate CutsSpace(s: string, k: nat, m: nat, r: string) {
    && k <= m <= |s|
    && r == s[k..m]
    && (forall i :: 0 <= i < k ==> IsSpace(s[i]))
    && (forall i :: m <= i < |s| ==> IsSpace(s[i]))
  }

  /** `str.strip()`: leading and trailing whitespace removed; what is left
      is a contiguous slice of the input. */
  function Strip(s: string): (r: string)
    ensures |r| > 0 ==> !IsSpace(r[0]) && !IsSpace(r[|r| - 1])
    ensures |r| <= |s|
    ensures exists k: nat, m: nat :: CutsSpace(s, k, m, r)
  {
    var t := StripRight(StripLeft(s));
    var k := |s| - |StripLeft(s)|;
    StripCutsSpace(s);
    assert CutsSpace(s, k, k + |t|, t);
    t
  }

  /** Stripping both ends keeps the slice of `s` between the whitespace
      cut from the left and the whitespace cut from the right. */
  lemma StripCutsSpace(s: string)
    ensures var l := StripLeft(s);
      var t := StripRight(l);
      var k := |s| - |l|;
      CutsSpace(s, k, k + |t|, t)
  {
    var l := StripLeft(s);
    var t := StripRight(l);
    var k := |s| - |l|;
    var m := k + |t|;
    assert l == s[k..];
    assert t == l[..|t|];
    forall i | m <= i < |s| ensures IsSpace(s[i]) {
      assert s[i] == l[i - k];
    }
  }
}
