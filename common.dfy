/** Values shared by every handler: optional request fields, JavaScript
    truthiness of those fields, and the HTTP status codes the handlers answer. */
module Common {

  datatype Option<+T> = None | Some(value: T)

  // HTTP status codes used by the handlers.
  const Ok := 200
  const Created := 201
  const BadRequest := 400
  const Unauthorized := 401
  const NotFound := 404
  const ServerError := 500
  const NotImplemented := 501

  /** `!x` is false for a numeric request field: it is present and not 0. */
  predicate TruthyId(x: Option<int>)
  {
    x.Some? && x.value != 0
  }

  /** `!s` is false for a text request field: it is present and not empty. */
  predicate TruthyText(s: Option<string>)
  {
    s.Some? && s.value != ""
  }

  /** `x || 1`: a missing or zero value falls back to the default. */
  function OrDefault(x: Option<int>, default: int): (r: int)
    ensures TruthyId(x) ==> r == x.value
    ensures !TruthyId(x) ==> r == default
  {
    if TruthyId(x) then x.value else default
  }

  /** Some element of a non-empty set. */
  lemma Pick<T>(s: set<T>) returns (x: T)
    requires s != {}
    ensures x in s
  {
    x :| x in s;
  }
}
