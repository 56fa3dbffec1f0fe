/** Small shared value types. */
module Types {

  /** A value that may be absent, as Swift's optionals. */
  datatype Option<T> = None | Some(value: T)

  /** `n` copies of `x`. */
  function Repeat<T>(x: T, n: nat): (s: seq<T>)
    ensures |s| == n
    ensures forall i :: 0 <= i < n ==> s[i] == x
  {
    if n == 0 then [] else [x] + Repeat(x, n - 1)
  }
}
