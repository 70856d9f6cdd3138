/** The sequential pipeline (`Pipeline.run`): an ordered list of steps,
    each run once, in order, on the context the previous one returned.  A
    step is modelled as a function from context to context; a step that
    may raise works on a `Result` context and passes an error through. */
module Pipeline {
  import opened Wrappers

  /** `Pipeline.run`: the context after running every step in turn. */
  function Run<C>(steps: seq<C -> C>, ctx: C): (r: C)
    ensures r == Trace(steps, ctx)[|steps|]
    decreases |steps|
  {
    if |steps| == 0 then ctx else Run(steps[1..], steps[0](ctx))
  }

  /** The contexts seen along the run: the input, then the context after
      each step. */
  function Trace<C>(steps: seq<C -> C>, ctx: C): (t: seq<C>)
    ensures |t| == |steps| + 1 && t[0] == ctx
    decreases |steps|
  {
    if |steps| == 0 then [ctx] else [ctx] + Trace(steps[1..], steps[0](ctx))
  }

  /** Step `i` receives exactly the context step `i - 1` returned: the
      steps run in list order, each once. */
  lemma {:induction false} TraceSteps<C>(steps: seq<C -> C>, ctx: C, i: nat)
    requires i < |steps|
    ensures Trace(steps, ctx)[i + 1] == steps[i](Trace(steps, ctx)[i])
    decreases |steps|
  {
    if i > 0 {
      TraceSteps(steps[1..], steps[0](ctx), i - 1);
    }
  }

  /** Running two step lists one after the other is running their
      concatenation. */
  lemma {:induction false} RunAppend<C>(a: seq<C -> C>, b: seq<C -> C>, ctx: C)
    ensures Run(a + b, ctx) == Run(b, Run(a, ctx))
    decreases |a|
  {
    if |a| == 0 {
      assert a + b == b;
    } else {
      assert (a + b)[0] == a[0];
      assert (a + b)[1..] == a[1..] + b;
      RunAppend(a[1..], b, a[0](ctx));
    }
  }

  /** A step of a raising stage: an error passes through untouched. */
  function Lift<C(!new), E(!new)>(f: C -> C): (g: Result<C, E> -> Result<C, E>)
    ensures forall c :: g(Ok(c)) == Ok(f(c))
    ensures forall e :: g(Err(e)) == Err(e)
  {
    (r: Result<C, E>) => if r.Ok? then Ok(f(r.value)) else r
  }

  /** A step that may itself raise. */
  function Bind<C(!new), E(!new)>(f: C -> Result<C, E>): (g: Result<C, E> -> Result<C, E>)
    ensures forall c :: g(Ok(c)) == f(c)
    ensures forall e :: g(Err(e)) == Err(e)
  {
    (r: Result<C, E>) => if r.Ok? then f(r.value) else r
  }

  /** Once a step raises, the rest of the run is skipped and the error is
      the result. */
  lemma {:induction false} ErrorStops<C, E>(steps: seq<Result<C, E> -> Result<C, E>>, e: E)
    requires forall i :: 0 <= i < |steps| ==> steps[i](Err(e)) == Err(e)
    ensures Run(steps, Err(e)) == Err(e)
    decreases |steps|
  {
    if |steps| > 0 {
      ErrorStops(steps[1..], e);
    }
  }
}
