/**
 * `authUser`: the gate in front of the cart routes. A request passes only
 * with an `Authorization` header of the form `"Bearer <token>"` whose token
 * verifies under JWT_SECRET; the decoded `id` claim becomes the
 * `userId` the cart handlers read.
 */
module AuthMiddleware {
  import opened Wrappers
  import opened Tokens
  import opened Http
  import opened Bearer

  const NotAuthorized := "Not Authorized. Login Again"

  /**
   * The token text of a bearer header: the second space-separated field,
   * or `None` when the header is absent, does not start with `"Bearer "`,
   * or (not possible after the prefix) has no second field.
   */
  function BearerToken(header: Option<string>): (token: Option<string>)
    ensures token.Some? <==> header.Some? && IsBearer(header.value)
    ensures token.Some? ==> ' ' !in token.value && Field(header.value, ' ', 1) == token
  {
    if header.None? || !IsBearer(header.value) then None
    else
      BearerSecondField(header.value);
      Field(header.value, ' ', 1)
  }

  /** The claims a header carries when both gates' common checks pass: bearer form, and a token JWT_SECRET verifies. */
  function HeaderClaims(header: Option<string>, decode: string -> Option<Token>): (claims: Option<Claims>)
    ensures claims.Some? ==> header.Some? && IsBearer(header.value)
    ensures claims.Some? <==> BearerToken(header).Some? && Verify(decode, BearerToken(header).value, JwtSecret).Some?
    ensures claims.Some? ==> decode(BearerToken(header).value) == Some(Token(JwtSecret, claims.value, decode(BearerToken(header).value).value.expiresInSeconds))
  {
    match BearerToken(header)
    case None => None
    case Some(token) => Verify(decode, token, JwtSecret)
  }

  /**
   * `authUser(req, res, next)`: on a rejected header, a 401 reply and
   * `next` is not called (`Some(reply)`); otherwise `req.body.userId` is the
   * decoded `id` claim, undefined when the token has none, and `next` runs
   * (`None`).
   */
  method AuthUser(req: Request, decode: string -> Option<Token>) returns (rejected: Option<Reply<()>>)
    modifies req`userId
    ensures HeaderClaims(req.authorization, decode).None? ==>
              rejected == Some(Fail(Unauthorized, NotAuthorized)) && req.userId == old(req.userId)
    ensures HeaderClaims(req.authorization, decode).Some? ==>
              rejected.None? && req.userId == HeaderClaims(req.authorization, decode).value.id
  {
    var authHeader := req.authorization;
    if authHeader.None? || authHeader.value == "" || !IsBearer(authHeader.value) {
      return Some(Fail(Unauthorized, NotAuthorized));
    }
    var token := Field(authHeader.value, ' ', 1);
    var decoded := Verify(decode, token.GetOr(""), JwtSecret);
    if decoded.None? {
      return Some(Fail(Unauthorized, NotAuthorized));
    }
    req.userId := decoded.value.id;
    rejected := None;
  }

  /** A header carrying a token the user controller's `createToken(id)` issued lets user `id` through. */
  lemma AdmitsIssuedToken(text: string, id: UserId, decode: string -> Option<Token>)
    requires text != "" && ' ' !in text && decode(text) == Some(CreateToken(id))
    ensures HeaderClaims(Some(BearerPrefix + text), decode).Some?
    ensures HeaderClaims(Some(BearerPrefix + text), decode).value.id == Some(id)
  {
    BearerTokenField(text);
  }

  /**
   * The authentication controller's access tokens are signed with
   * SECRET_KEY_ACCESS_TOKEN: as long as that key differs from JWT_SECRET,
   * `authUser` rejects one whatever header carries it.
   */
  lemma RejectsAccessToken(header: Option<string>, decode: string -> Option<Token>, id: Option<UserId>)
    requires BearerToken(header).Some? && decode(BearerToken(header).value) == Some(AccessToken(id))
    ensures HeaderClaims(header, decode).None?
  {
  }

  /**
   * The admin login's token is signed with JWT_SECRET too, so `authUser`
   * admits it, but with no `id` claim: the cart handlers then see no user.
   */
  lemma AdminTokenHasNoUser(text: string, email: Option<string>, decode: string -> Option<Token>)
    requires text != "" && ' ' !in text && decode(text) == Some(AdminToken(email))
    ensures HeaderClaims(Some(BearerPrefix + text), decode).Some?
    ensures HeaderClaims(Some(BearerPrefix + text), decode).value.id.None?
  {
    BearerTokenField(text);
  }

  /** Only the text up to the next space is verified: anything after it is ignored. */
  lemma TrailingTextIgnored(text: string, extra: string, decode: string -> Option<Token>)
    requires ' ' !in text
    ensures HeaderClaims(Some(BearerPrefix + text + " " + extra), decode) == HeaderClaims(Some(BearerPrefix + text), decode)
  {
    var h := BearerPrefix + text + " " + extra;
    assert h[|BearerPrefix|..] == text + [' '] + extra;
    BearerSecondField(h);
    SplitAfterPiece(text, ' ', extra);
    BearerTokenField(text);
  }
}
