/** The generic `Result[T]` of the Go package `result`: a value of type `T`
    or an error, with the combinators defined on it.

    The Go struct has three fields, all of which may be nil: a pointer to the
    value, an `error` and a variant marker. The datatype below keeps the same
    three fields, with `None` for nil. Go's zero value of `T` (what `*new(T)`
    returns) is passed explicitly as `zero` to every operation that reads the
    value. */
module Results {
  import opened Wrappers
  import opened GoErrors

  /** The private marker types `isOk` and `isErr` whose runtime types
      `Match()` is compared against. */
  datatype Variant = OkMarker | ErrMarker

  /** What `Match()` returns for a success: the non-nil type of `*isOk`,
      distinct from the failure marker. */
  function Ok(): (r: Option<Variant>)
    ensures r.Some? && r != Some(ErrMarker)
  {
    Some(OkMarker)
  }

  /** What `Match()` returns for a failure: the non-nil type of `*isErr`,
      distinct from the success marker. */
  function Err(): (r: Option<Variant>)
    ensures r.Some? && r != Some(OkMarker)
  {
    Some(ErrMarker)
  }

  datatype Result<T> = Result(value: Option<T>, err: Option<GoError>, variant: Option<Variant>)
  {
    /** The shapes a `Result[T]` can take: built by `ok`, built by `err`
        (every caller passes a non-nil error), or the zero struct
        `Result[T]{}`, which code outside the package can write. */
    predicate Valid()
    {
      || (variant == Ok() && value.Some? && err.None?)
      || (variant == Err() && value.None? && err.Some?)
      || (variant.None? && value.None? && err.None?)
    }

    /** A success holding `v`: no error, matched by `Ok()`, and the value
        pointer set, so `Value()` gives `v` whatever the zero value of `T` is. */
    ghost predicate IsOkOf(v: T)
    {
      Error().None? && Match() == Ok() && value == Some(v)
    }

    /** A failure with error `e`: matched by `Err()`, and the value pointer
        nil, so `Value()` gives the zero value of `T`. */
    ghost predicate IsErrOf(e: GoError)
    {
      Error() == Some(e) && Match() == Err() && value.None?
    }

    /** `Match()`: the variant marker, compared by the caller with `Ok()`
        and `Err()`. `Err()` matches exactly the results with an error, and
        `Ok()` exactly those without an error that hold a value. */
    function Match(): (r: Option<Variant>)
      ensures Valid() ==> (r == Err() <==> err.Some?)
      ensures Valid() ==> (r == Ok() <==> err.None? && value.Some?)
    {
      variant
    }

    /** `Value()`: the held value, or the zero value when the pointer is nil;
        a failure always gives the zero value. */
    function Value(zero: T): (r: T)
      ensures Valid() && IsErr() ==> r == zero
      ensures Valid() && Match() == Ok() ==> IsOkOf(r)
    {
      if value.None? then zero else value.value
    }

    /** `Error()`: the held error, possibly nil. It is non-nil exactly for
        the results matched by `Err()`, which hold no value. */
    function Error(): (r: Option<GoError>)
      ensures Valid() ==> (r.Some? <==> Match() == Err())
      ensures Valid() && r.Some? ==> value.None?
    {
      err
    }

    /** `IsErr()`: the result has an error, which for every valid result
        is the same as being matched by `Err()`. */
    predicate IsErr()
      ensures Valid() ==> (IsErr() <==> Match() == Err())
    {
      Error().Some?
    }

    /** `IsOk()`: exactly the results that are not failures. */
    predicate IsOk()
      ensures IsOk() <==> !IsErr()
    {
      Error().None?
    }

    /** `IsErrAnd(rErr)`: `errors.Is(r.Error(), rErr)`. A nil `rErr` matches
        exactly the results without an error. */
    predicate IsErrAnd(rErr: Option<GoError>)
      ensures rErr.None? ==> (IsErrAnd(rErr) <==> IsOk())
      ensures IsOk() && rErr.Some? ==> !IsErrAnd(rErr)
      ensures IsErr() && Error() == rErr ==> IsErrAnd(rErr)
    {
      Is(Error(), rErr)
    }

    /** `IsOkAnd(f)`: `f(Value())`, so on a failure `f` sees the zero value. */
    function IsOkAnd(f: T -> bool, zero: T): (r: bool)
      ensures Valid() && IsErr() ==> r == f(zero)
      ensures Valid() && Match() == Ok() ==> r == f(value.value)
    {
      f(Value(zero))
    }

    /** `And(newR)`: the receiver's failure if it has one, else `newR`'s
        failure if it has one, else a success with `newR`'s value. */
    function And(newR: Result<T>, zero: T): (r: Result<T>)
      ensures r.Valid() && r.variant.Some?
      ensures IsErr() ==> r.IsErrOf(Error().value)
      ensures IsOk() && newR.IsErr() ==> r.IsErrOf(newR.Error().value)
      ensures IsOk() && newR.IsOk() ==> r.IsOkOf(newR.Value(zero))
    {
      if err.Some? then MakeErr(err.value)
      else if newR.err.Some? then MakeErr(newR.err.value)
      else MakeOk(newR.Value(zero))
    }

    /** `AndThen(f)`: on a failure, a failure with the same error and `f` is
        not applied; otherwise whatever `f(Value())` returns. */
    function AndThen(f: T -> Result<T>, zero: T): (r: Result<T>)
      ensures IsErr() ==> r.Valid() && r.IsErrOf(Error().value)
      ensures IsOk() ==> r == f(Value(zero))
    {
      if err.Some? then MakeErr(err.value) else f(Value(zero))
    }

    /** `Expect(rErr)`: a success is returned unchanged; a failure becomes a
        failure whose error wraps both `rErr` and the original error, so
        every error the original matched under `errors.Is` still matches. */
    function Expect(rErr: Option<GoError>): (r: Result<T>)
      ensures IsOk() ==> r == this
      ensures IsErr() ==> r.Valid() && r.IsErrOf(Wrap(rErr, Error().value))
      ensures IsErr() ==> forall t :: IsErrAnd(t) ==> r.IsErrAnd(t)
      ensures IsErr() && rErr.Some? ==> r.IsErrAnd(rErr)
    {
      if err.Some? then MakeErr(Wrap(rErr, err.value)) else this
    }

    /** `MapErr(f)`: `New(Value(), f(Error()))`. The new error is `f` of the
        old one (`f(nil)` on a success); when it is nil the result is a
        success holding the old `Value()`, zero value included. */
    function MapErr(f: Option<GoError> -> Option<GoError>, zero: T): (r: Result<T>)
      ensures r.Valid() && r.variant.Some?
      ensures r.Error() == f(Error())
      ensures f(Error()).None? ==> r.IsOkOf(Value(zero))
      ensures f(Error()).Some? ==> r.IsErrOf(f(Error()).value)
    {
      New(Value(zero), f(Error()))
    }

    /** `MapOr(v, f)`: `v` on a failure, `f(Value())` otherwise; the same as
        mapping with `f` and reading the value with `v` as the default. */
    function MapOr(v: T, f: T -> T, zero: T): (r: T)
      ensures r == Map(this, f, zero).Value(v)
    {
      if Error().Some? then v else f(Value(zero))
    }

    /** `MapOrElse(eF, oF)`: `eF` of the error on a failure, `oF(Value())`
        otherwise. */
    function MapOrElse(eF: Option<GoError> -> T, oF: T -> T, zero: T): (r: T)
      ensures IsErr() ==> r == eF(Error())
      ensures IsOk() ==> r == Map(this, oF, zero).Value(zero)
    {
      if Error().Some? then eF(Error()) else oF(Value(zero))
    }

    /** `Unwrap()`: the pair `(Value(), Error())`. Passing that pair back to
        `New` rebuilds any result the package built. */
    function Unwrap(zero: T): (r: (T, Option<GoError>))
      ensures r.1 == Error()
      ensures Valid() && IsErr() ==> r.0 == zero
      ensures Valid() && variant.Some? ==> New(r.0, r.1) == this
    {
      (Value(zero), Error())
    }
  }

  /** The private constructor `ok`: a success holding `value`. */
  function MakeOk<T>(value: T): (r: Result<T>)
    ensures r.Valid() && r.IsOkOf(value)
  {
    Result(Some(value), None, Ok())
  }

  /** The private constructor `err`: a failure with error `e`. */
  function MakeErr<T>(e: GoError): (r: Result<T>)
    ensures r.Valid() && r.IsErrOf(e)
  {
    Result(None, Some(e), Err())
  }

  /** `New(value, rError)`: a failure with `rError` when it is non-nil, the
      value then being dropped; otherwise a success holding `value`, even
      when `value` is the zero value. */
  function New<T>(value: T, rError: Option<GoError>): (r: Result<T>)
    ensures r.Valid() && r.variant.Some?
    ensures r.Error() == rError
    ensures rError.Some? ==> r.IsErrOf(rError.value)
    ensures rError.None? ==> r.IsOkOf(value)
  {
    if rError.Some? then MakeErr(rError.value) else MakeOk(value)
  }

  /** `Map(r, f)`: `New(f(r.Value()), r.Error())`. The error is kept; a
      success holding `v` becomes a success holding `f(v)`, and a failure
      stays a failure whose value is the zero value of `U`. */
  function Map<T, U>(r: Result<T>, f: T -> U, zero: T): (m: Result<U>)
    ensures m.Valid() && m.variant.Some?
    ensures m.Error() == r.Error()
    ensures r.IsOk() ==> m.IsOkOf(f(r.Value(zero)))
    ensures r.IsErr() ==> m.IsErrOf(r.Error().value)
  {
    New(f(r.Value(zero)), r.Error())
  }
}
