/** The parts of the curve models that are exact arithmetic: the linear
    model and its inverse, and the clamp applied to a response before a
    4PL or 5PL inversion. */
module CurveModel {
  import opened Wrappers

  /** `_linear`: y = m·x + b. */
  function Linear(m: real, b: real, x: real): real {
    m * x + b
  }

  /** `_inv_linear`: x = (y − b)/m; numpy divides a zero slope into an
      infinity or NaN, which is `None`. */
  function InvLinear(m: real, b: real, y: real): (x: Option<real>)
    ensures x.Some? <==> m != 0.0
    ensures x.Some? ==> Linear(m, b, x.value) == y
  {
    if m == 0.0 then None else Some((y - b) / m)
  }

  /** `back_linear`: the fitted coefficients in (slope, intercept) order. */
  function BackLinear(coef: (real, real), y: real): (x: Option<real>)
    ensures x.Some? <==> coef.0 != 0.0
    ensures x.Some? ==> coef.0 * x.value + coef.1 == y
  {
    InvLinear(coef.0, coef.1, y)
  }

  /** Inverting a forward value gives back the concentration. */
  lemma InverseOfForward(m: real, b: real, x: real)
    requires m != 0.0
    ensures InvLinear(m, b, Linear(m, b, x)) == Some(x)
  {
    var y := Linear(m, b, x);
    assert (y - b) / m == x by {
      assert y - b == m * x;
    }
  }

  /** `1e-10`, the margin kept from each asymptote. */
  const Margin: real := 0.0000000001

  function Min(a: real, b: real): real { if a <= b then a else b }
  function Max(a: real, b: real): real { if a >= b then a else b }

  function ClampLow(a: real, d: real): real { Min(a, d) + Margin }
  function ClampHigh(a: real, d: real): real { Max(a, d) - Margin }

  /** `np.clip(y, min(a, d) + 1e-10, max(a, d) − 1e-10)`, which is
      `minimum(maximum(y, low), high)`: with the bounds crossed, every
      response clips to the upper one. */
  function Clamp(y: real, a: real, d: real): (r: real)
    ensures ClampLow(a, d) <= ClampHigh(a, d) ==> ClampLow(a, d) <= r <= ClampHigh(a, d)
    ensures ClampLow(a, d) > ClampHigh(a, d) ==> r == ClampHigh(a, d)
    ensures ClampLow(a, d) <= y <= ClampHigh(a, d) ==> r == y
  {
    Min(Max(y, ClampLow(a, d)), ClampHigh(a, d))
  }

  /** Clamping twice is clamping once. */
  lemma ClampIdempotent(y: real, a: real, d: real)
    ensures Clamp(Clamp(y, a, d), a, d) == Clamp(y, a, d)
  {
  }

  /** With the asymptotes more than twice the margin apart, the clamped
      response differs from both, so `(a − d)/(y − d)` is defined. */
  lemma ClampAvoidsAsymptotes(y: real, a: real, d: real)
    requires Max(a, d) - Min(a, d) > 2.0 * Margin
    ensures Clamp(y, a, d) != d && Clamp(y, a, d) != a
  {
  }
}
