/**
 * HTTP status codes used by the backend handlers, and JavaScript's truthiness
 * test (`!x`) on request-body fields.
 */
module Http {
  import opened Wrappers

  const OK := 200
  const Created := 201
  const NoContent := 204
  const BadRequest := 400
  const Unauthorized := 401
  const Forbidden := 403
  const NotFound := 404
  const Conflict := 409
  const ServerError := 500
  const ServiceUnavailable := 503

  /**
   * A field of a JSON request body as a handler destructures it: missing
   * (`undefined`), an explicit `null`, or a value. A test `=== undefined`
   * lets `null` through.
   */
  datatype BodyField<+T> = Absent | Null | Present(value: T)

  /** A string body field passes `!field` as false: it is present and not empty. */
  predicate Given(field: Option<string>) {
    field.Some? && field.value != ""
  }

  /** A numeric id body field passes `!field` as false: it is present and not 0. */
  predicate GivenId(field: Option<int>) {
    field.Some? && field.value != 0
  }
}
