/**
  Shared vocabulary of the listen-together server model: connection identifiers,
  the optional/failure wrappers used for absent values and thrown errors, and the
  `Math.max` / `Math.min` of two numbers.
 */
module Base {

  /** A socket.io connection identifier (`socket.id`), assigned by the transport. */
  type Id = string

  /** A value that may be absent (`undefined` in the server). */
  datatype Option<+T> = None | Some(value: T)

  /** Either a computed value or the error the server would throw instead. */
  datatype Result<+R, +E> = Success(value: R) | Failure(error: E)

  /** `Math.max(a, b)` on exact numbers. */
  function Max(a: real, b: real): (m: real)
    ensures a <= m && b <= m && (m == a || m == b)
  {
    if a >= b then a else b
  }

  /** `Math.min(a, b)` on exact numbers. */
  function Min(a: real, b: real): (m: real)
    ensures m <= a && m <= b && (m == a || m == b)
  {
    if a <= b then a else b
  }
}
