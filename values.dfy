/**
 * JavaScript values as the server sees them: an absent or null field is
 * `None`, and a field is tested with JavaScript truthiness. Also the shape of
 * a storage query's outcome and the HTTP status codes the handlers send.
 */
module Values {

  /** A field that may be null or missing (both render the same here). */
  datatype Option<+T> = None | Some(value: T)

  /**
   * JavaScript truthiness of an optional string: null, undefined and the
   * empty string are falsy, every other string is truthy.
   */
  predicate Truthy(s: Option<string>)
  {
    s.Some? && s.value != ""
  }

  /**
   * `a || null` on an optional string: the field itself or null, never an
   * empty string, and a non-empty string is kept.
   */
  function OrNull(s: Option<string>): (r: Option<string>)
    ensures r.Some? ==> r == s && Truthy(r)
    ensures Truthy(s) ==> r == s
  {
    if Truthy(s) then s else None
  }

  /**
   * The outcome of one storage call: the rows it returned, or an error (a
   * failure the server cannot foresee; callers pass it in).
   */
  datatype Query<+T> = Rows(rows: seq<T>) | QueryError

  // HTTP status codes the handlers send
  const Ok: int := 200
  const BadRequest: int := 400
  const Unauthorized: int := 401
  const Forbidden: int := 403
  const NotFound: int := 404
  const ServerError: int := 500
}
