/**
 * Value wrappers shared by the whole model: an optional value (a nullable
 * database column), and a JSON field as a request handler sees it.
 */
module Wrappers {

  /** A nullable value: `None` is SQL NULL / Python `None`. */
  datatype Option<+T> = None | Some(value: T)

  /**
   * A field of a JSON request body. `Absent` is a missing key (indexing it
   * raises KeyError, `.get` yields the default), `Null` is JSON null
   * (Python `None`), `Present` carries a value.
   */
  datatype Json<+T> = Absent | Null | Present(value: T)

  /** The Python value a present key holds: `None` for JSON null. */
  function Column<T>(j: Json<T>): (r: Option<T>)
    ensures r.Some? <==> j.Present?
    ensures j.Present? ==> r.value == j.value
  {
    if j.Present? then Some(j.value) else None
  }

  /** A Python exception that ends a request handler. */
  datatype PyError = KeyError | TypeError | AttributeError | IntegrityError

  /** The outcome of a Python call: a returned value or a raised exception. */
  datatype Result<+T> = Returned(value: T) | Raised(error: PyError)
}
