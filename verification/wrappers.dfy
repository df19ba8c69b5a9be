/** Optional values: the outcome of one fallible vendor query. */
module Wrappers {

  /** `None` is a query that did not report success; `Some(v)` carries the value it read. */
  datatype Option<+T> = None | Some(value: T) {

    /** The same outcome with `f` applied to the value read, if any. */
    function MapValue<U>(f: T -> U): (r: Option<U>)
      ensures r.Some? <==> Some?
      ensures Some? ==> r.value == f(value)
    {
      match this
      case Some(v) => Some(f(v))
      case None => None
    }
  }
}
