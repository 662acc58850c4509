# result: a Dafny model of Go's `Result[T]`

This project models the Go package `result` (file `result.go`). Its generic
`Result[T]` holds either a value of type `T` or a Go `error`, and it offers
constructors, queries and combinators in the style of Rust's `Result`.
Everything in `result.go` is pure: each method takes a value receiver and
returns a new `Result` or a plain value.

Modules:

- `Wrappers` (`wrappers.dfy`): `Option`. `None` stands for Go's `nil`.
- `GoErrors` (`go_errors.dfy`): the Go errors the package creates and
  inspects. `Sentinel(msg)` is a plain error value. `Joined(ctx, inner)` is
  what `fmt.Errorf("%w: %w", ctx, inner)` returns. `Is` models `errors.Is`
  over these two shapes, including its nil rule.
- `Results` (`result.dfy`): `Result<T>` with the Go struct's three fields
  `value`, `err` and `variant`, each an `Option` because each may be nil.
  It also holds every operation of `result.go`. Go's zero value of `T` is
  the explicit parameter `zero`. `Valid()` names the three shapes a
  `Result[T]` can take: built by `ok`, built by `err` (always with a non-nil
  error), or the zero struct `Result[T]{}`, which code outside the package
  can write.
- `ResultLaws` (`result_laws.dfy`): laws that relate several operations.
  These cover round trips through `New`/`Unwrap`, identity and composition
  laws, and chains of `And` and `Expect` calls.

The package behaves differently from the usual Result contract in a few
places, and the model follows the code:

- `Map` rebuilds its result through `New`. On a failure it still calls
  `f`, on the zero value.
- `MapErr` is `New(Value(), f(Error()))`. A success passes `nil` to `f` and
  becomes a failure when `f(nil)` is not nil. A failure that `f` maps to
  `nil` becomes a success holding the zero value.
- `IsOkAnd(f)` is `f(Value())`. On a failure it gives `f(zero)`, which can
  be true.
- `IsErrAnd` takes a target error, not a predicate. It is `errors.Is`, so
  `IsErrAnd(nil)` holds exactly for the results without an error.
- The zero struct has no error, so `IsOk()` is true for it. `Match()`
  returns nil for it, so neither `Ok()` nor `Err()` matches it.
- The strict mode that `result_test.go` uses (a third argument to `New`)
  does not exist in `result.go`. The model follows `result.go`.

## Model

| member | source | states |
|---|---|---|
| `Results.New` | result.go:41-47 | A non-nil error gives a failure with that error: `Match()==Err()`, the value is dropped and `Value()` is the zero value. A nil error gives a success holding the value, including the zero value. `Error()` is always the given error. |
| `Results.MakeOk` | result.go:165-167 | `ok(v)` is a valid success holding `v`, matched by `Ok()`, with a nil error. |
| `Results.MakeErr` | result.go:169-171 | `err(e)` is a valid failure with error `e`, matched by `Err()`, with a nil value pointer, so `Value()` is the zero value. |
| `Results.Ok` | result.go:155-158 | `Ok()` is a non-nil marker, different from the failure marker. |
| `Results.Err` | result.go:160-163 | `Err()` is a non-nil marker, different from the success marker. |
| `Results.Result.Match` | result.go:62-64 | For a valid result, `Match()==Err()` exactly when the result has an error. `Match()==Ok()` exactly when it has no error and holds a value. |
| `Results.Result.Value` | result.go:67-73 | A valid failure gives the zero value. A success matched by `Ok()` gives the value it holds. |
| `Results.Result.Error` | result.go:76-78 | For a valid result, `Error()` is non-nil exactly when `Match()==Err()`, and then no value is held. |
| `Results.Result.IsErr` | result.go:108-110 | For a valid result, `IsErr()` holds exactly when `Match()==Err()`. |
| `Results.Result.IsOk` | result.go:116-118 | `IsOk()` holds exactly when `IsErr()` does not, for every result. |
| `Results.Result.IsErrAnd` | result.go:112-114 | A nil target matches exactly the results with no error. A success matches no non-nil target. A failure matches its own error, because every error is taken to be comparable. |
| `Results.Result.IsOkAnd` | result.go:120-122 | On a failure it is `f` of the zero value. On an `ok`-built success it is `f` of the held value. |
| `Results.Result.And` | result.go:80-90 | The receiver's failure wins. Otherwise the operand's failure wins. Otherwise the result is a success holding the operand's value. The result is always valid and never the zero struct. |
| `Results.Result.AndThen` | result.go:92-98 | On a failure, a valid failure with the same error, with no use of `f`'s result. On a success, exactly `f(Value())`. |
| `Results.Result.Expect` | result.go:100-106 | A success comes back unchanged. A failure becomes a failure whose error wraps the context and the original error. `errors.Is` on it finds every target the original matched, and the context when it is non-nil (every error is taken to be comparable). |
| `Results.Result.MapErr` | result.go:128-130 | The new error is `f` of the old one (`f(nil)` on a success). When that is nil, the result is a success holding the old `Value()`. Otherwise it is a failure with that error. |
| `Results.Result.MapOr` | result.go:132-138 | `MapOr(v, f)` equals `Map(r, f)` read with `v` as the default value. So it is `v` on a failure and `f(Value())` on a success. |
| `Results.Result.MapOrElse` | result.go:140-146 | On a failure it is `eF(Error())`. On a success it is the value of `Map(r, oF)`. |
| `Results.Result.Unwrap` | result.go:151-153 | The second component is `Error()`. The first is the zero value on a failure. Passing the pair back to `New` rebuilds any result the package built. |
| `Results.Map` | result.go:124-126 | The error is kept. A success holding `v` becomes a success holding `f(v)`. A failure stays a failure with the same error and the zero value of `U`. The result is always valid. |
| `GoErrors.Wrap` | result.go:102 | The error built by `fmt.Errorf("%w: %w", ctx, inner)` is non-nil. `errors.Is` finds in it the inner error, the context when it is non-nil, and everything the inner error wraps. |
| `ResultLaws.MatchAgreesWithIsOk` | result.go:14-22 | For a valid result, `Match()==Err()` exactly when `IsErr()`. `Match()==Ok()` exactly when `IsOk()` and it is not the zero struct. Only the zero struct matches neither. No result holds both a value and an error. |
| `ResultLaws.ValueOrZero` | result.go:67-73 | `Value()` returns the held value of a success. It returns the zero value for a failure and for the zero struct. |
| `ResultLaws.UnwrapOfNew` | result.go:151-153 | `New(v, e).Unwrap()` is `(v, nil)` for a nil `e` and `(zero, e)` otherwise. |
| `ResultLaws.NewOfUnwrap` | result.go:41-47 | `New(r.Unwrap())` equals `r` exactly when `r` is not the zero struct. The zero struct becomes `ok(zero)`. |
| `ResultLaws.MapIdentity` | result.go:124-126 | `Map(r, id)` equals `r` exactly when `r` is not the zero struct. |
| `ResultLaws.MapComposition` | result.go:124-126 | `Map(Map(r, f), g)` equals `Map(r, g∘f)`. |
| `ResultLaws.MapErrIdentity` | result.go:128-130 | `r.MapErr(id)` equals `r` exactly when `r` is not the zero struct. |
| `ResultLaws.MapErrOnSuccess` | result.go:128-130 | `ok(v).MapErr(f)` stays `ok(v)` exactly when `f(nil)` is nil. Otherwise it is `err(f(nil))`. |
| `ResultLaws.MapErrClearsFailure` | result.go:128-130 | A failure that `f` maps to nil becomes `ok(zero)`. |
| `ResultLaws.MapOrIsMapOrElse` | result.go:132-146 | `MapOr(v, f)` equals `MapOrElse(_ => v, f)`. |
| `ResultLaws.AndAssociative` | result.go:80-90 | `(r.And(s)).And(t)` equals `r.And(s.And(t))`. |
| `ResultLaws.AndIsAndThen` | result.go:80-98 | For an operand `s` built by the package, `r.And(s)` equals `r.AndThen(_ => s)`. |
| `ResultLaws.AndThenLeftIdentity` | result.go:92-98 | `ok(v).AndThen(f)` equals `f(v)`. |
| `ResultLaws.AndThenRightIdentity` | result.go:92-98 | `r.AndThen(ok)` equals `r` exactly when `r` is not the zero struct. |
| `ResultLaws.AndThenAssociative` | result.go:92-98 | `r.AndThen(f).AndThen(g)` equals `r.AndThen(x => f(x).AndThen(g))`. |
| `ResultLaws.AndAllFirstFailure` | result.go:80-90 | A chain `r.And(s1).And(s2)...` fails with the error of the first failure, receiver first. When nothing fails, it is a success holding the last operand's value. |
| `ResultLaws.IsErrAndUpward` | result.go:112-114 | A result that `IsErrAnd(b)` matches also matches every error that `b` wraps, because `errors.Is` is transitive. |
| `ResultLaws.ExpectFindsContextCauses` | result.go:100-106 | After `Expect(ctx)` on a failure, `errors.Is` also finds every error that `ctx` wraps. |
| `ResultLaws.ExpectAllKeepsCauses` | result.go:100-106 | A chain of `Expect` calls leaves a success unchanged. A failure stays a failure, and `errors.Is` still finds the original cause and every non-nil context added along the way. |

## Left out

- Strict mode (`C{strict}`): `result_test.go` calls `New` with a third, configuration argument and expects `Value()` to panic. The `result.go` modelled here has no such parameter and no panic path.
- Runtime type identity: `Match()`, `Ok()` and `Err()` compare `reflect.Type` values. The model compares an explicit marker (`Option<Variant>`) by value.
- Parts of `errors.Is` beyond wrap trees: custom `Is` methods on error types are not modelled. Go compares errors by interface equality, which for pointer errors such as `errors.New` results is identity. The model compares by structural equality, so two separately made errors with equal contents count as one.
- Errors of a non-comparable dynamic type: Go's `errors.Is` compares `err == target` only when the target's type is comparable. The model treats every error as comparable. For an error of a non-comparable type with no `Is` or `Unwrap` method, Go gives `errors.Is(e, e) == false`, but the model says true. This affects `IsErrAnd` on a failure's own error and `Expect` finding its context.
- The message text of `fmt.Errorf("%w: %w", ...)`: only which errors it wraps is modelled, not the string it formats.
- Callbacks are total, pure Dafny functions. A Go callback that panics or has side effects is not modelled.
- Results.Map: on a failure Go still calls `f` on the zero value and discards the result. A pure model cannot observe that call.
- Results.Result.MapErr: on a success Go calls `f(nil)`. The model shows the effect on the result but not the call.
- Pointer aliasing of the `value *T` field: the Go struct holds a pointer to a copy of the value. The model holds the value itself.
- `internal/path/path.go` (caller-file lookup through the runtime), `internal/types/types.go` (reflection over struct fields) and `moondump.go` (a reflection demo that prints) are not part of this model.
