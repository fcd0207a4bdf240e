/** Optional values: `None` stands for JavaScript's `null`/`undefined`, or for a failed request. */
module Wrappers {
  datatype Option<+T> = None | Some(value: T)
  {
    function GetOr(default: T): T
    {
      match this
      case None => default
      case Some(v) => v
    }
  }

  /** `x || undefined` (or `x || null`) on a text: absent when it is empty. */
  function NonEmpty(x: string): (r: Option<string>)
    ensures r.Some? <==> x != ""
    ensures r.Some? ==> r.value == x
  {
    if x != "" then Some(x) else None
  }
}
