/** JavaScript's `null` and truthiness, as far as the navigation bar relies on them. */
module Nullable {

  /** A value that may be `null` (`None`). */
  datatype Option<+T> = None | Some(value: T)

  /** Truthiness of a nullable string: `null` and the empty string are falsy. */
  predicate Truthy(v: Option<string>) {
    v.Some? && v.value != []
  }

  /** The expression `v || null`: a falsy value becomes `null`. */
  function OrNull(v: Option<string>): (r: Option<string>)
    ensures r.Some? <==> Truthy(v)
    ensures r.Some? ==> r == v
  {
    if Truthy(v) then v else None
  }
}
