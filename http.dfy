/**
 * What the handlers see of an HTTP exchange: the values the authentication
 * layer left in the request context, the request facts `getBaseURL` reads,
 * an uploaded file, and the reply (status and JSON body).
 */
module Http {
  import opened Wrappers

  const StatusOK: int := 200
  const StatusCreated: int := 201
  const StatusBadRequest: int := 400
  const StatusUnauthorized: int := 401
  const StatusForbidden: int := 403
  const StatusNotFound: int := 404
  const StatusConflict: int := 409
  const StatusInternalServerError: int := 500

  /**
   * A reply: an error status with the text of its `{"error": ...}` body, a
   * success status with a body, or a panic inside the handler, which gin's
   * recovery middleware turns into a bare 500.
   */
  datatype Reply<T> = Fail(status: int, error: string) | Ok(status: int, body: T) | Panic

  /** The `user_id` and `user_role` entries of the gin context, when present. */
  datatype Context = Context(userId: Option<string>, userRole: Option<string>)

  /** The admin gate of every admin handler: a `user_role` entry equal to "admin". */
  predicate IsAdmin(ctx: Context) {
    ctx.userRole == Some("admin")
  }

  const AdminRequiredMessage: string := "Admin access required"

  /** The gate's refusal. */
  function AdminRequired<T>(): (r: Reply<T>)
    ensures r.Fail? && r.status == StatusForbidden
  {
    Fail(StatusForbidden, AdminRequiredMessage)
  }

  /**
   * The parts of a request `getBaseURL` looks at: the `X-Forwarded-Proto` and
   * `X-Forwarded-Host` headers ("" when absent), whether the connection is
   * TLS, and `Request.Host`.
   */
  datatype RequestInfo = RequestInfo(forwardedProto: string, tls: bool, forwardedHost: string, host: string)

  /** The `image` part of a multipart form: its file name and size in bytes. */
  datatype Upload = Upload(filename: string, size: int)
}
