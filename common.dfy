/** Failure-carrying wrappers shared by every module of the model. */
module Common {

  /** A value that may be absent (a missing document, a null field, an unset filter). */
  datatype Option<+T> = None | Some(value: T) {
    function GetOr(default: T): T {
      match this
      case Some(v) => v
      case None => default
    }
  }

  /** The outcome of an operation that returns nothing but may fail with an error. */
  datatype Outcome<+E> = Pass | Fail(error: E)

  /** A value or an error. */
  datatype Result<+R, +E> = Ok(value: R) | Err(error: E)

  /** Reading one document by key: the stored value, or None when there is none. */
  function Get<K, V>(m: map<K, V>, key: K): (r: Option<V>)
    ensures r.Some? <==> key in m
    ensures r.Some? ==> r.value == m[key]
  {
    if key in m then Some(m[key]) else None
  }
}
