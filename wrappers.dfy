/** Optional values and thrown errors: JavaScript's `null`/`undefined`, `NaN` results and `throw`. */
module Wrappers {
  datatype Option<T> = None | Some(value: T) {
    /** The `value ?? fallback` of the source. */
    function GetOr(fallback: T): T
    {
      if Some? then value else fallback
    }
  }

  /** `f` applied to every element when none of the results is missing; else `None`. */
  function MapAll<A, B>(f: A -> Option<B>, xs: seq<A>): (r: Option<seq<B>>)
    ensures r.Some? <==> forall k :: 0 <= k < |xs| ==> f(xs[k]).Some?
    ensures r.Some? ==> |r.value| == |xs| && forall k :: 0 <= k < |xs| ==> f(xs[k]) == Some(r.value[k])
  {
    if xs == [] then Some([])
    else
      var first := f(xs[0]);
      var rest := MapAll(f, xs[1..]);
      if first.None? then None
      else if rest.None? then
        assert exists k :: 0 <= k < |xs| - 1 && f(xs[1..][k]).None?;
        None
      else Some([first.value] + rest.value)
  }

  /** A value, or the message of the error thrown instead. */
  datatype Result<T> = Success(value: T) | Failure(error: string)
}
