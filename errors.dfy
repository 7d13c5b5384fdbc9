/** Rust's Option, and the crate's error type (src/error.rs) together with the
    outcome of a call: it returns a value, returns an error, or panics. */
module Errors {

  datatype Option<+T> = None | Some(value: T)

  /** `FcError`: one variant per library whose errors the crate converts with `?`. */
  datatype FcError =
    | AvroError(detail: string)
    | RedisError(detail: string)
    | ZmqError(detail: string)

  /** What a call of the source does. `Ok` and `Err` are the two halves of
      `FcResult<T>`; `Panic` is an `unwrap`, `expect`, `assert!` or `panic!`
      that aborts the calling thread. */
  datatype Result<+T> = Ok(value: T) | Err(error: FcError) | Panic(message: string)

  /** `acc` followed by the values of `rest`, or the failure of `rest`: what
      collecting into a `Vec` makes of a prefix already gathered and the rest. */
  function Prefixed<T>(acc: seq<T>, rest: Result<seq<T>>): (r: Result<seq<T>>)
    ensures r.Ok? <==> rest.Ok?
    ensures r.Ok? ==> r.value == acc + rest.value
    ensures !r.Ok? ==> r == rest
  {
    if rest.Ok? then Ok(acc + rest.value) else rest
  }

  lemma {:induction false} PrefixedNothing<T>(rest: Result<seq<T>>)
    ensures Prefixed([], rest) == rest
  {
    if rest.Ok? {
      assert [] + rest.value == rest.value;
    }
  }

  lemma {:induction false} PrefixedTwice<T>(a: seq<T>, b: seq<T>, rest: Result<seq<T>>)
    ensures Prefixed(a, Prefixed(b, rest)) == Prefixed(a + b, rest)
  {
    if rest.Ok? {
      assert a + (b + rest.value) == (a + b) + rest.value;
    }
  }

  /** The message of `Option::unwrap` on `None`. */
  const UnwrapNone: string := "called `Option::unwrap()` on a `None` value"
  /** The message of `Result::unwrap` on `Err`. */
  const UnwrapErr: string := "called `Result::unwrap()` on an `Err` value"
  /** The message of a failing `assert_eq!`. */
  const AssertEqFailed: string := "assertion `left == right` failed"
  /** The detail of the error `get_connection` reports when the server is unreachable. */
  const ConnectionRefused: string := "Connection refused"
}
