/** Small shared vocabulary: optional values, error-carrying results and bytes. */
module Base {

  /** A value that may be absent (Python's `None`). */
  datatype Option<T> = None | Some(value: T)

  /** The outcome of an operation that either yields a value or raises. */
  datatype Result<T, E> = Ok(value: T) | Err(error: E)

  /** One octet of a frame or process image. */
  type byte = x: int | 0 <= x < 256

  /** Identity of a callback; the callback's code is not part of this model. */
  type Handler = nat

  /** `n` zero bytes (Python's `bytes(n)`). */
  function Zeros(n: nat): (z: seq<byte>)
    ensures |z| == n
    ensures forall i :: 0 <= i < n ==> z[i] == 0
  {
    seq(n, _ => 0)
  }

  /** Regrouping a concatenation of three logs, given by their joins. */
  lemma Regroup<T>(x: seq<T>, y: seq<T>, z: seq<T>, yz: seq<T>, xy: seq<T>)
    requires yz == y + z && xy == x + y
    ensures x + yz == xy + z
  {
  }
}
