/** Values shared by every component: optional values, results, Go errors as wrap trees,
    and the 64-bit bounds of Go's int and time.Duration. */
module Basics {

  datatype Option<+T> = None | Some(value: T)

  datatype Result<+T> = Ok(value: T) | Fail(error: Error)

  /** What one node of an error tree is, as far as the client inspects it.
      `Net` stands for every other type that implements net.Error, `Api` for a
      typed error built from a non-2xx response. */
  datatype Kind =
    | Canceled
    | DeadlineExceeded
    | EndOfFile
    | UnexpectedEof
    | ConnReset
    | ConnRefused
    | Net(tag: string)
    | Api(status: int)
    | Other(tag: string)

  /** An error and the errors it wraps (Unwrap() error or Unwrap() []error). */
  datatype Error = Error(kind: Kind, wraps: seq<Error>)

  const TWO_63: int := 0x8000_0000_0000_0000

  function Min(a: int, b: int): int {
    if a <= b then a else b
  }

  /** resolvePositive: v when positive, otherwise def. */
  function ResolvePositive(v: int, def: int): int {
    if v > 0 then v else def
  }

  lemma Times(a: int, b: int, c: int)
    requires a <= b && 0 <= c
    ensures a * c <= b * c
  {
    assert (b - a) * c >= 0;
  }

  /** Division by its defining bounds. */
  lemma Quotient(j: nat, per: nat, i: nat)
    requires per > 0
    ensures i * per <= j < (i + 1) * per <==> i == j / per
  {
    var q := j / per;
    assert q * per <= j < (q + 1) * per;
    if i < q {
      Times(i + 1, q, per);
    } else if i > q {
      Times(q + 1, i, per);
    }
  }
}
