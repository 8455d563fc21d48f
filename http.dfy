/**
 * The vocabulary shared by the middleware and the controllers: the errors
 * they raise, what a handler does with a request (answer with JSON or pass an
 * error on), the `{message, data}` envelope, and the authenticated caller.
 */
module Http {
  import opened Wrappers

  /** A document id (a MongoDB ObjectId in its 24-digit hex form). */
  type Id = string

  /**
   * A thrown error. `new CustomError(message, status)` sets a status;
   * a plain `new Error(message)`, a TypeError or a driver error has none.
   */
  datatype Error = Error(message: string, status: Option<int>)

  function CustomError(message: string, status: int): Error
  {
    Error(message, Some(status))
  }

  function PlainError(message: string): Error
  {
    Error(message, None)
  }

  /** A handler either answers with `res.json(body)` or calls `next(error)`. */
  datatype Reply<+T> = Respond(body: T) | Forward(error: Error)

  /** The `{message, data}` body of a successful create, update or delete. */
  datatype Envelope<+T> = Envelope(message: string, data: T)

  /** The decoded token claims stored in `res.locals.user`: a user without the password. */
  datatype Principal = Principal(id: Id, user_name: string, email: string, role: string)

  predicate IsAdmin(p: Principal)
  {
    p.role == "admin"
  }

  const NotAuthorized: Error := CustomError("Not authorized", 401)
}
