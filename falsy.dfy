/** JavaScript's `value || nothing` on an optional number: both a missing value
    and 0 are falsy, so both come out missing. Used for `|| null` on the
    backend and `|| undefined` on the frontend. */
module Falsy {
  import opened Wrappers

  function OrAbsent(v: Option<int>): (r: Option<int>)
    ensures r.None? <==> v.None? || v == Some(0)
    ensures r.Some? ==> r == v
  {
    if v.Some? && v.value != 0 then v else None
  }
}
