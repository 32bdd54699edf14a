/** Optional values (a DOM lookup that may find nothing, a handle that may be null) and the absolute value. */
module Wrappers {

  datatype Option<+T> = None | Some(value: T)

  /** Math.abs on reals. */
  function Abs(x: real): (r: real)
    ensures r >= 0.0 && (r == x || r == -x)
  {
    if x < 0.0 then -x else x
  }
}
