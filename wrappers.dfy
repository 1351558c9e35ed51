/** Optional values and order-preserving filtering, shared by the other modules. */
module Wrappers {

  /** A value that may be missing: a dictionary key that is absent or a Python `None`. */
  datatype Option<+T> = None | Some(value: T) {

    /** The value, or `fallback` when it is missing (Python's `dict.get(key, fallback)`). */
    function GetOr(fallback: T): T {
      match this
      case Some(v) => v
      case None => fallback
    }
  }

  /** The elements of `s` that satisfy `p`, in their original order. */
  function Filter<T(!new)>(p: T -> bool, s: seq<T>): (r: seq<T>)
    ensures |r| <= |s|
    ensures forall x :: x in r <==> x in s && p(x)
    ensures forall k :: 0 <= k < |r| ==> p(r[k])
  {
    if s == [] then []
    else if p(s[0]) then [s[0]] + Filter(p, s[1..])
    else Filter(p, s[1..])
  }
}
