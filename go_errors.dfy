/** The Go `error` values that the result package creates and inspects.
    A Go `error` that may be nil is an `Option<GoError>`; `None` is `nil`. */
module GoErrors {
  import opened Wrappers

  /** A non-nil Go error. Every error is taken to be of a comparable dynamic
      type (as the pointer errors of `errors.New` and `fmt.Errorf` are), so
      that `errors.Is` always tries `err == target`.
      - `Sentinel(msg)` is an error value made on its own, as by `errors.New(msg)`.
      - `Joined(ctx, inner)` is what `fmt.Errorf("%w: %w", ctx, inner)` returns:
        an error that wraps both operands; a nil `ctx` is not among the errors it wraps. */
  datatype GoError =
    | Sentinel(msg: string)
    | Joined(ctx: Option<GoError>, inner: GoError)

  /** The search of `errors.Is` on non-nil operands: `err` itself, or any error
      it wraps (depth-first, context before inner), equals `target`. */
  predicate Chain(err: GoError, target: GoError)
  {
    || err == target
    || (err.Joined? && ((err.ctx.Some? && Chain(err.ctx.value, target)) || Chain(err.inner, target)))
  }

  /** `errors.Is(err, target)`: when either operand is nil the two must be equal;
      otherwise `target` must be found in `err`'s wrap tree. */
  predicate Is(err: Option<GoError>, target: Option<GoError>)
  {
    if err.None? || target.None? then err == target else Chain(err.value, target.value)
  }

  /** `fmt.Errorf("%w: %w", ctx, inner)`: a new error from which both the
      context and the wrapped error are found again by `errors.Is`. */
  function Wrap(ctx: Option<GoError>, inner: GoError): (e: GoError)
    ensures Is(Some(e), Some(inner))
    ensures ctx.Some? ==> Is(Some(e), ctx)
    ensures forall t :: Is(Some(inner), t) ==> Is(Some(e), t)
    ensures !Is(Some(e), None)
  {
    Joined(ctx, inner)
  }

  /** Wrapping is transitive: an error found inside an error found inside `a`
      is found inside `a`. */
  lemma {:induction false} ChainTransitive(a: GoError, b: GoError, c: GoError)
    requires Chain(a, b) && Chain(b, c)
    ensures Chain(a, c)
  {
    if a != b {
      if a.ctx.Some? && Chain(a.ctx.value, b) {
        ChainTransitive(a.ctx.value, b, c);
      } else {
        ChainTransitive(a.inner, b, c);
      }
    }
  }

  /** `errors.Is` is transitive. */
  lemma IsTransitive(a: Option<GoError>, b: Option<GoError>, c: Option<GoError>)
    requires Is(a, b) && Is(b, c)
    ensures Is(a, c)
  {
    if a.Some? && b.Some? && c.Some? {
      ChainTransitive(a.value, b.value, c.value);
    }
  }
}
