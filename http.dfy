/**
 * The parts of Express's request and response that the handlers touch.
 * A handler's answer is a `Reply`: the HTTP status it sets (200 when it
 * calls `res.json` without `res.status`), the `success` flag, the
 * `message` string when there is one, and the payload when there is one.
 */
module Http {
  import opened Wrappers
  import opened Tokens

  type Status = nat

  const OK: Status := 200
  const Created: Status := 201
  const BadRequest: Status := 400
  const Unauthorized: Status := 401
  const NotFound: Status := 404
  const ServerError: Status := 500

  datatype Reply<T> = Reply(status: Status, success: bool, message: Option<string>, data: Option<T>)

  /** A `{ success: false, message }` answer with the given status. */
  function Fail<T>(status: Status, message: string): (r: Reply<T>)
    ensures !r.success && r.status == status && r.message == Some(message) && r.data.None?
  {
    Reply(status, false, Some(message), None)
  }

  /** The request fields the middleware reads and writes. */
  class Request {
    /** `req.headers.authorization`. */
    var authorization: Option<string>
    /** `req.body.userId`, as `authUser` leaves it for the cart handlers. */
    var userId: Option<UserId>
    /** `req.admin`, as `adminAuth` leaves it. */
    var admin: Option<Claims>

    constructor (authorization: Option<string>)
      ensures this.authorization == authorization
      ensures userId.None? && admin.None?
    {
      this.authorization := authorization;
      userId := None;
      admin := None;
    }
  }
}
