/** The weighting schemes of the calibration fit. A division by zero,
    which numpy turns into an infinite weight, is `None`. */
module Weighting {
  import opened Wrappers

  datatype Scheme = One | OverX | OverX2 | OverY | OverY2

  function Reciprocal(v: real): (r: Option<real>)
    ensures r.Some? <==> v != 0.0
    ensures r.Some? ==> r.value * v == 1.0
  {
    if v == 0.0 then None else Some(1.0 / v)
  }

  function Square(v: real): real { v * v }

  /** The weight of one point with coordinates `x` and `y`. */
  function Weight(s: Scheme, x: real, y: real): (w: Option<real>)
    ensures s == One ==> w == Some(1.0)
    ensures s == OverX ==> (w.Some? <==> x != 0.0) && (w.Some? ==> w.value * x == 1.0)
    ensures s == OverX2 ==> (w.Some? <==> x != 0.0) && (w.Some? ==> w.value * Square(x) == 1.0)
    ensures s == OverY ==> (w.Some? <==> y != 0.0) && (w.Some? ==> w.value * y == 1.0)
    ensures s == OverY2 ==> (w.Some? <==> y != 0.0) && (w.Some? ==> w.value * Square(y) == 1.0)
  {
    match s
    case One => Some(1.0)
    case OverX => Reciprocal(x)
    case OverX2 => Reciprocal(Square(x))
    case OverY => Reciprocal(y)
    case OverY2 => Reciprocal(Square(y))
  }

  /** The registered `weighting` functions: one weight per point. */
  function Weights(s: Scheme, xs: seq<real>, ys: seq<real>): (ws: seq<Option<real>>)
    requires |xs| == |ys|
    ensures |ws| == |ys|
    ensures forall i :: 0 <= i < |ys| ==> ws[i] == Weight(s, xs[i], ys[i])
  {
    seq(|ys|, i requires 0 <= i < |ys| => Weight(s, xs[i], ys[i]))
  }

  /** 1/x and 1/x² read only x; 1/y and 1/y² read only y. */
  lemma WeightsReadOneAxis(s: Scheme, xs: seq<real>, ys: seq<real>, xs2: seq<real>, ys2: seq<real>)
    requires |xs| == |ys| == |xs2| == |ys2|
    requires (s == OverX || s == OverX2) ==> xs == xs2
    requires (s == OverY || s == OverY2) ==> ys == ys2
    ensures Weights(s, xs, ys) == Weights(s, xs2, ys2)
  {
    var w, w2 := Weights(s, xs, ys), Weights(s, xs2, ys2);
    forall i | 0 <= i < |ys| ensures w[i] == w2[i] {
      WeightReadsOneAxis(s, xs[i], ys[i], xs2[i], ys2[i]);
    }
  }

  lemma WeightReadsOneAxis(s: Scheme, x: real, y: real, x2: real, y2: real)
    requires (s == OverX || s == OverX2) ==> x == x2
    requires (s == OverY || s == OverY2) ==> y == y2
    ensures Weight(s, x, y) == Weight(s, x2, y2)
  {
    match s
    case One =>
    case OverX => assert Weight(s, x, y) == Reciprocal(x);
    case OverX2 => assert Weight(s, x, y) == Reciprocal(Square(x));
    case OverY => assert Weight(s, x, y) == Reciprocal(y);
    case OverY2 => assert Weight(s, x, y) == Reciprocal(Square(y));
  }

  /** For a nonzero coordinate the squared scheme is the square of the
      plain one. */
  lemma SquaredIsSquare(x: real, y: real)
    ensures x != 0.0 ==> Weight(OverX2, x, y).value == Weight(OverX, x, y).value * Weight(OverX, x, y).value
    ensures y != 0.0 ==> Weight(OverY2, x, y).value == Weight(OverY, x, y).value * Weight(OverY, x, y).value
  {
    if x != 0.0 {
      SquareOfReciprocal(x);
    }
    if y != 0.0 {
      SquareOfReciprocal(y);
    }
  }

  lemma SquareOfReciprocal(v: real)
    requires v != 0.0
    ensures 1.0 / (v * v) == (1.0 / v) * (1.0 / v)
  {
    var r := 1.0 / v;
    assert r * v == 1.0;
    assert (r * r) * (v * v) == (r * v) * (r * v);
  }
}
