/** Laws of the `result` package's `Result[T]`: how the variant queries agree,
    the round trips through `New` and `Unwrap`, and how the combinators
    compose, including chains of `And` and of `Expect` calls. */
module ResultLaws {
  import opened Wrappers
  import opened GoErrors
  import opened Results

  /** The zero struct `Result[T]{}`. */
  function ZeroStruct<T>(): Result<T>
  {
    Result(None, None, None)
  }

  /** `Match()` agrees with `IsOk()`/`IsErr()` on every result, except that
      the zero struct is a success that neither `Ok()` nor `Err()` matches;
      no result holds a value and an error at once. */
  lemma MatchAgreesWithIsOk<T>(r: Result<T>)
    requires r.Valid()
    ensures r.Match() == Err() <==> r.IsErr()
    ensures r.Match() == Ok() <==> r.IsOk() && r != ZeroStruct()
    ensures r.Match() != Ok() && r.Match() != Err() <==> r == ZeroStruct()
    ensures !(r.value.Some? && r.Error().Some?)
  {
  }

  /** `Value()` never fails: it gives the held value of a success built by
      `ok`, and the zero value of `T` for a failure and for the zero struct. */
  lemma ValueOrZero<T>(r: Result<T>, v: T, zero: T)
    requires r.Valid()
    ensures r.IsOkOf(v) ==> r.Value(zero) == v
    ensures r.IsErr() || r == ZeroStruct() ==> r.Value(zero) == zero
    ensures r.IsErr() ==> r.Unwrap(zero) == (zero, r.Error())
  {
  }

  /** `New` then `Unwrap` returns the value (or the zero value, once an
      error is given) and the error that went in. */
  lemma UnwrapOfNew<T>(v: T, e: Option<GoError>, zero: T)
    ensures New(v, e).Unwrap(zero) == (if e.None? then v else zero, e)
  {
  }

  /** `Unwrap` then `New` rebuilds exactly the results that `New`, `ok` or
      `err` built, and turns the zero struct into a success holding the zero
      value. */
  lemma NewOfUnwrap<T>(r: Result<T>, zero: T)
    requires r.Valid()
    ensures New(r.Unwrap(zero).0, r.Unwrap(zero).1) == r <==> r != ZeroStruct()
    ensures r == ZeroStruct() ==> New(r.Unwrap(zero).0, r.Unwrap(zero).1) == MakeOk(zero)
  {
  }

  /** Mapping with the identity gives the same result back, except for the
      zero struct, which `Map` rebuilds through `New` as a success. */
  lemma MapIdentity<T>(r: Result<T>, zero: T)
    requires r.Valid()
    ensures Map(r, x => x, zero) == r <==> r != ZeroStruct()
  {
  }

  /** Mapping twice is mapping once with the composition. */
  lemma MapComposition<T, U, V>(r: Result<T>, f: T -> U, g: U -> V, zeroT: T, zeroU: U)
    ensures Map(Map(r, f, zeroT), g, zeroU) == Map(r, x => g(f(x)), zeroT)
  {
  }

  /** `MapErr` with the identity gives the same result back, except for the
      zero struct. */
  lemma MapErrIdentity<T>(r: Result<T>, zero: T)
    requires r.Valid()
    ensures r.MapErr(e => e, zero) == r <==> r != ZeroStruct()
  {
  }

  /** `MapErr` on a success passes nil to `f`: the success survives exactly
      when `f(nil)` is nil, and otherwise becomes a failure with `f(nil)`. */
  lemma MapErrOnSuccess<T>(v: T, f: Option<GoError> -> Option<GoError>, zero: T)
    ensures MakeOk(v).MapErr(f, zero) == MakeOk(v) <==> f(None).None?
    ensures f(None).Some? ==> MakeOk(v).MapErr(f, zero) == MakeErr(f(None).value)
  {
  }

  /** `MapErr` that maps a failure's error to nil yields a success holding
      the zero value. */
  lemma MapErrClearsFailure<T>(e: GoError, f: Option<GoError> -> Option<GoError>, zero: T)
    requires f(Some(e)).None?
    ensures MakeErr(e).MapErr(f, zero) == MakeOk(zero)
  {
  }

  /** `MapOr(v, f)` is `MapOrElse` with an error handler that always gives `v`. */
  lemma MapOrIsMapOrElse<T>(r: Result<T>, v: T, f: T -> T, zero: T)
    ensures r.MapOr(v, f, zero) == r.MapOrElse(_ => v, f, zero)
  {
  }

  /** `And` is associative. */
  lemma AndAssociative<T>(r: Result<T>, s: Result<T>, t: Result<T>, zero: T)
    ensures r.And(s, zero).And(t, zero) == r.And(s.And(t, zero), zero)
  {
  }

  /** For an operand built by the package, `And(s)` is `AndThen` with a
      function that ignores its argument and returns `s`. */
  lemma AndIsAndThen<T>(r: Result<T>, s: Result<T>, zero: T)
    requires s.Valid() && s != ZeroStruct()
    ensures r.And(s, zero) == r.AndThen(_ => s, zero)
  {
  }

  /** `AndThen` on a success is `f` applied to its value. */
  lemma AndThenLeftIdentity<T>(v: T, f: T -> Result<T>, zero: T)
    ensures MakeOk(v).AndThen(f, zero) == f(v)
  {
  }

  /** `AndThen` with `ok` gives the same result back, except for the zero
      struct. */
  lemma AndThenRightIdentity<T>(r: Result<T>, zero: T)
    requires r.Valid()
    ensures r.AndThen(x => MakeOk(x), zero) == r <==> r != ZeroStruct()
  {
  }

  /** Chaining `AndThen` calls is associative. */
  lemma AndThenAssociative<T>(r: Result<T>, f: T -> Result<T>, g: T -> Result<T>, zero: T)
    ensures r.AndThen(f, zero).AndThen(g, zero) == r.AndThen(x => f(x).AndThen(g, zero), zero)
  {
  }

  /** `IsErrAnd` is closed upward along `errors.Is`: a result that matches
      `b` also matches every error that `b` wraps. */
  lemma IsErrAndUpward<T>(r: Result<T>, b: Option<GoError>, c: Option<GoError>)
    requires r.IsErrAnd(b) && Is(b, c)
    ensures r.IsErrAnd(c)
  {
    IsTransitive(r.Error(), b, c);
  }

  /** `errors.Is` on an `Expect`-wrapped error also finds every error that
      the context wraps. */
  lemma ExpectFindsContextCauses<T>(r: Result<T>, rErr: Option<GoError>, t: Option<GoError>)
    requires r.IsErr() && rErr.Some? && Is(rErr, t)
    ensures r.Expect(rErr).IsErrAnd(t)
  {
  }

  /** `r.And(rs[0]).And(rs[1])...`, left to right. */
  function AndAll<T>(r: Result<T>, rs: seq<Result<T>>, zero: T): Result<T>
    decreases |rs|
  {
    if rs == [] then r else AndAll(r.And(rs[0], zero), rs[1..], zero)
  }

  /** The error of the first failure in `rs`, or nil when none fails. */
  function FirstError<T>(rs: seq<Result<T>>): Option<GoError>
  {
    if rs == [] then None
    else if rs[0].IsErr() then rs[0].Error()
    else FirstError(rs[1..])
  }

  /** A chain of `And` calls fails with the first failure met, receiver
      first; when nothing fails and the chain is not empty, it is a success
      holding the last operand's value. */
  lemma {:induction false} AndAllFirstFailure<T>(r: Result<T>, rs: seq<Result<T>>, zero: T)
    ensures AndAll(r, rs, zero).Error() == FirstError([r] + rs)
    ensures rs != [] && FirstError([r] + rs).None? ==> AndAll(r, rs, zero).IsOkOf(rs[|rs| - 1].Value(zero))
    decreases |rs|
  {
    if rs != [] {
      var r' := r.And(rs[0], zero);
      AndAllFirstFailure(r', rs[1..], zero);
      assert ([r] + rs)[1..] == rs;
      assert ([r'] + rs[1..])[1..] == rs[1..];
      if |rs| > 1 {
        assert rs[1..][|rs[1..]| - 1] == rs[|rs| - 1];
      }
    }
  }

  /** `r.Expect(ctxs[0]).Expect(ctxs[1])...`, left to right. */
  function ExpectAll<T>(r: Result<T>, ctxs: seq<Option<GoError>>): Result<T>
    decreases |ctxs|
  {
    if ctxs == [] then r else ExpectAll(r.Expect(ctxs[0]), ctxs[1..])
  }

  /** A chain of `Expect` calls leaves a success untouched; a failure stays a
      failure from which `errors.Is` still finds the original cause and
      every non-nil context added along the way. */
  lemma {:induction false} ExpectAllKeepsCauses<T>(r: Result<T>, ctxs: seq<Option<GoError>>)
    requires r.Valid()
    ensures ExpectAll(r, ctxs).Valid()
    ensures r.IsOk() ==> ExpectAll(r, ctxs) == r
    ensures r.IsErr() ==> ExpectAll(r, ctxs).IsErr() && ExpectAll(r, ctxs).Match() == Err()
    ensures r.IsErr() ==> forall t :: r.IsErrAnd(t) ==> ExpectAll(r, ctxs).IsErrAnd(t)
    ensures r.IsErr() ==> forall i :: 0 <= i < |ctxs| && ctxs[i].Some? ==> ExpectAll(r, ctxs).IsErrAnd(ctxs[i])
    decreases |ctxs|
  {
    if ctxs != [] {
      var r' := r.Expect(ctxs[0]);
      ExpectAllKeepsCauses(r', ctxs[1..]);
      if r.IsErr() {
        forall i | 0 <= i < |ctxs| && ctxs[i].Some?
          ensures ExpectAll(r, ctxs).IsErrAnd(ctxs[i])
        {
          if i > 0 {
            assert ctxs[i] == ctxs[1..][i - 1];
          }
        }
      }
    }
  }
}
