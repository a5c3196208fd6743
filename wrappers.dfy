/** Optional values: `None` stands for JavaScript's null/undefined and PHP's null. */
module Wrappers {

  datatype Option<+T> = None | Some(value: T) {

    /** The value, or `default` when absent (JavaScript's `x ?? default`). */
    function GetOr(default: T): T {
      match this
      case Some(v) => v
      case None => default
    }

    /** `this ?? other`: the first of the two that is present. */
    function OrElse(other: Option<T>): Option<T> {
      if Some? then this else other
    }
  }

  /** The first present value of the list, else `default`: the chain
      `xs[0] ?? xs[1] ?? ... ?? default`. */
  function FirstSome<T>(xs: seq<Option<T>>, default: T): (r: T)
    ensures (forall i :: 0 <= i < |xs| ==> xs[i].None?) ==> r == default
    ensures forall i :: 0 <= i < |xs| && xs[i].Some? && (forall j :: 0 <= j < i ==> xs[j].None?) ==>
      r == xs[i].value
  {
    if xs == [] then default
    else if xs[0].Some? then xs[0].value
    else FirstSome(xs[1..], default)
  }
}
