/** Values shared by every handler of the review backend: optional values
    (a JSON field or header that may be absent) and HTTP responses. */
module Http {

  datatype Option<+T> = None | Some(value: T)

  /** What a route handler sends back: a JSON body, or a bare status code. */
  datatype Response<+T> = Ok(body: T) | Fail(status: int)

  const BadRequest: int := 400
  const Unauthorized: int := 401
  const Forbidden: int := 403
  const NotFound: int := 404
  const ServerError: int := 500
}
