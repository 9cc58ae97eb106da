/** Vocabulary shared by every route handler: optional request fields, the
    JavaScript truthiness test applied to them, HTTP status codes and time. */
module Base {

  /** A field of a JSON request body or of a stored document that may be
      missing (`undefined` in JavaScript). */
  datatype Option<+T> = None | Some(value: T) {

    /** The value, or `default` when the field is missing. This is what a
        destructuring default such as `{ name = 'x' } = body` does. */
    function GetOr(default: T): T {
      match this
      case Some(v) => v
      case None => default
    }
  }

  /** JavaScript truthiness of a string field: `!s` is false exactly when the
      field is present and not the empty string. */
  predicate Truthy(s: Option<string>) {
    s.Some? && s.value != ""
  }

  /** The HTTP status a handler responds with. */
  type Status = nat

  const OK: Status := 200
  const Created: Status := 201
  const BadRequest: Status := 400
  const NotFound: Status := 404
  const ServerError: Status := 500

  /** Milliseconds since the epoch, as `Date.now()` reports them. The clock is
      outside the model: every handler that reads it takes the time as a
      parameter. */
  type Time = int

  /** The first position of `s` whose element satisfies `p`: the shape of
      every "find the first matching document or sub-document" query. */
  function FirstIndex<T>(s: seq<T>, p: T -> bool): (r: Option<nat>)
    ensures r.Some? ==> r.value < |s| && p(s[r.value])
    ensures r.Some? ==> forall k :: 0 <= k < r.value ==> !p(s[k])
    ensures r.None? <==> forall k :: 0 <= k < |s| ==> !p(s[k])
  {
    if |s| == 0 then None
    else if p(s[0]) then Some(0)
    else
      match FirstIndex(s[1..], p)
      case Some(k) => Some(k + 1)
      case None => None
  }
}
