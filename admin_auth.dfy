/**
 * `adminAuth`: the gate in front of the admin routes. On top of the bearer
 * form and JWT_SECRET verification that `authUser` also demands, the
 * decoded `email` claim must equal ADMIN_EMAIL (both may be absent) and
 * the `role` claim must be `"admin"`. Every rejection is a plain
 * `{ success: false }` JSON answer: no 401 status is set.
 */
module AdminAuth {
  import opened Wrappers
  import opened Tokens
  import opened Http
  import opened Bearer
  import opened AuthMiddleware

  const AdminNotAuthorized := "Not Authorized, login again"

  /** The claims `adminAuth` accepts for a header, given ADMIN_EMAIL (`None` when unset). */
  function AdminClaims(header: Option<string>, decode: string -> Option<Token>, adminEmail: Option<string>): (claims: Option<Claims>)
    ensures claims.Some? <==>
              HeaderClaims(header, decode).Some?
              && HeaderClaims(header, decode).value.email == adminEmail
              && HeaderClaims(header, decode).value.role == Some(AdminRole)
    ensures claims.Some? ==> claims == HeaderClaims(header, decode)
  {
    match HeaderClaims(header, decode)
    case None => None
    case Some(c) => if c.email != adminEmail || c.role != Some(AdminRole) then None else Some(c)
  }

  /**
   * `adminAuth(req, res, next)`: a rejection answers status 200 with
   * `success: false` and leaves `req.admin` alone; an admission sets
   * `req.admin` to the decoded claims and calls `next` (`None`).
   */
  method AdminAuth(req: Request, decode: string -> Option<Token>, adminEmail: Option<string>) returns (rejected: Option<Reply<()>>)
    modifies req`admin
    ensures AdminClaims(req.authorization, decode, adminEmail).None? ==>
              rejected == Some(Fail(OK, AdminNotAuthorized)) && req.admin == old(req.admin)
    ensures AdminClaims(req.authorization, decode, adminEmail).Some? ==>
              rejected.None? && req.admin == AdminClaims(req.authorization, decode, adminEmail)
  {
    var authHeader := req.authorization;
    if authHeader.None? || authHeader.value == "" || !IsBearer(authHeader.value) {
      return Some(Fail(OK, AdminNotAuthorized));
    }
    var token := Field(authHeader.value, ' ', 1);
    var decoded := Verify(decode, token.GetOr(""), JwtSecret);
    if decoded.None? {
      return Some(Fail(OK, AdminNotAuthorized));
    }
    if decoded.value.email != adminEmail || decoded.value.role != Some(AdminRole) {
      return Some(Fail(OK, AdminNotAuthorized));
    }
    req.admin := decoded;
    rejected := None;
  }

  /** A user token from `createToken` carries no role, so it never opens the admin routes. */
  lemma UserTokenRejected(header: Option<string>, decode: string -> Option<Token>, adminEmail: Option<string>, id: UserId)
    requires BearerToken(header).Some? && decode(BearerToken(header).value) == Some(CreateToken(id))
    ensures AdminClaims(header, decode, adminEmail).None?
  {
  }

  /** The token the admin login issues for the configured email opens the admin routes. */
  lemma AdminTokenAdmitted(text: string, decode: string -> Option<Token>, adminEmail: Option<string>)
    requires text != "" && ' ' !in text && decode(text) == Some(AdminToken(adminEmail))
    ensures AdminClaims(Some(BearerPrefix + text), decode, adminEmail) == Some(AdminToken(adminEmail).claims)
  {
    BearerTokenField(text);
  }

  /** An admin token for any other email is refused, even with the admin role. */
  lemma OtherEmailRejected(text: string, decode: string -> Option<Token>, adminEmail: Option<string>, email: Option<string>)
    requires email != adminEmail
    requires text != "" && ' ' !in text && decode(text) == Some(AdminToken(email))
    ensures AdminClaims(Some(BearerPrefix + text), decode, adminEmail).None?
  {
    BearerTokenField(text);
  }
}
