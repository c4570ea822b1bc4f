/** What several components share. */
module Basics {

  datatype Option<T> = None | Some(value: T)

  /** x, n times over. */
  function Repeat<T>(x: T, n: nat): (s: seq<T>)
    ensures |s| == n && forall i :: 0 <= i < n ==> s[i] == x
  {
    if n == 0 then [] else Repeat(x, n - 1) + [x]
  }
}
