/** Optional values: Python's `None` or a present value. */
module Wrappers {

  datatype Option<+T> = None | Some(value: T)

  /** Python's `value or ""` for an optional string: `None` and `""` both give `""`. */
  function OrEmpty(o: Option<string>): (s: string)
    ensures o.Some? ==> s == o.value
    ensures o.None? ==> s == ""
  {
    match o
    case None => ""
    case Some(v) => v
  }
}
