/** The optional value used wherever the TypeScript source has `T | null`
    or `T | undefined`. */
module Wrappers {

  datatype Option<+T> = None | Some(value: T) {

    /** `x ?? d`: the value when present, otherwise the default. */
    function GetOr(default: T): T {
      match this
      case Some(v) => v
      case None => default
    }

    /** `a ?? b` on two optional values: the first one that is present. */
    function OrElse(other: Option<T>): Option<T> {
      if Some? then this else other
    }
  }

  /** `n || null` on a number: zero becomes null. */
  function NonZero(n: int): (r: Option<int>)
    ensures r.None? <==> n == 0
    ensures r.Some? ==> r.value == n
  {
    if n == 0 then None else Some(n)
  }
}
