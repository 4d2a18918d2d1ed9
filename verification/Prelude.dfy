/** Shared value types: optional values, results and bytes. */
module Prelude {

  datatype Option<+T> = None | Some(value: T)

  datatype Result<+T, +E> = Ok(value: T) | Err(error: E) {
    predicate IsFailure() { Err? }

    function PropagateFailure<U>(): Result<U, E>
      requires Err?
    {
      Err(error)
    }

    function Extract(): T
      requires Ok?
    {
      value
    }
  }

  type byte = x: int | 0 <= x < 256

  /** A 32-byte value: a hash, a contract address, a secret key or a field element. */
  type Bytes32 = b: seq<byte> | |b| == 32 witness seq(32, _ => 0)

  /** No element occurs twice. */
  predicate Distinct<T(==)>(s: seq<T>) {
    forall i, j :: 0 <= i < j < |s| ==> s[i] != s[j]
  }

  /** A sequence of 32 bytes as a `Bytes32`. */
  function AsBytes32(b: seq<byte>): (r: Option<Bytes32>) {
    if |b| == 32 then Some(b) else None
  }
}
