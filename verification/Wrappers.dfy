/** Failure-carrying results shared by every component. */
module Wrappers {

  datatype Option<+T> = None | Some(value: T) {
    function GetOr(fallback: T): T {
      if None? then fallback else value
    }
  }

  datatype Result<+T, +E> = Ok(value: T) | Err(error: E)

  /** All results, or none if any is missing. */
  function Collect<T>(xs: seq<Option<T>>): (r: Option<seq<T>>)
    ensures r.Some? <==> forall i :: 0 <= i < |xs| ==> xs[i].Some?
    ensures r.Some? ==> |r.value| == |xs| && forall i :: 0 <= i < |xs| ==> xs[i] == Some(r.value[i])
  {
    if xs == [] then Some([])
    else
      var rest := Collect(xs[1..]);
      assert rest.None? ==> exists i :: 1 <= i < |xs| && xs[i] == xs[1..][i - 1] && xs[i].None?;
      if xs[0].None? || rest.None? then None else Some([xs[0].value] + rest.value)
  }
}
