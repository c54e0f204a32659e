/** The two JavaScript idioms the dashboards build their queries with. */
module Js {
  import opened Wrappers

  /** A state value that is null or a string; the empty string is falsy too. */
  predicate Truthy(v: Option<string>) {
    v.Some? && v.value != ""
  }

  /** `v || fallback`. */
  function OrElse(v: Option<string>, fallback: string): (r: string)
    ensures Truthy(v) ==> r == v.value
    ensures !Truthy(v) ==> r == fallback
  {
    if Truthy(v) then v.value else fallback
  }
}
