/**
 * JSON Web Tokens, abstracted. Signing is not modelled as a string
 * computation: a `Token` records which secret signs it, the claims it
 * carries and its `expiresIn` lifetime. Verification of a header string is
 * left to the handlers as an abstract partial function.
 */
module Tokens {
  import opened Wrappers

  /** A user's primary key (`_id`); the store hands them out in order. */
  type UserId = nat

  /**
   * The environment variable that holds the signing key. The three are
   * taken to hold pairwise distinct keys: a token signed under one never
   * verifies under another.
   */
  datatype Secret = JwtSecret | AccessTokenSecret | RefreshTokenSecret

  /**
   * The claims the handlers read back: `id` (set by `createToken`),
   * `_id` (set by the token helper, here `objectId`), `email` and `role`
   * (set by the admin login). An absent claim is `None`.
   */
  datatype Claims = Claims(id: Option<UserId>, objectId: Option<UserId>, email: Option<string>, role: Option<string>)

  datatype Token = Token(secret: Secret, claims: Claims, expiresInSeconds: nat)

  const Minute: nat := 60
  const Day: nat := 24 * 60 * Minute

  const AdminRole := "admin"

  /** The claim set with no claim present. */
  const NoClaims := Claims(None, None, None, None)

  /** `createToken(id)` of the user controller: `{ id }`, signed with JWT_SECRET, valid 7 days. */
  function CreateToken(id: UserId): (t: Token)
    ensures t.secret == JwtSecret && t.claims.id == Some(id) && t.claims.objectId.None?
    ensures t.claims.role.None? && t.expiresInSeconds == 7 * Day
  {
    Token(JwtSecret, NoClaims.(id := Some(id)), 7 * Day)
  }

  /**
   * `generatedAccessToken(userId)` of the token helper: `{ _id: userId }`,
   * signed with SECRET_KEY_ACCESS_TOKEN, valid 15 minutes. An undefined
   * `userId` leaves the claim out.
   */
  function AccessToken(id: Option<UserId>): (t: Token)
    ensures t.secret == AccessTokenSecret && t.claims.objectId == id && t.claims.id.None?
    ensures t.expiresInSeconds == 15 * Minute
  {
    Token(AccessTokenSecret, NoClaims.(objectId := id), 15 * Minute)
  }

  /**
   * `generatedRefreshToken(userId)` of the token helper: `{ _id: userId }`,
   * signed with SECRET_KEY_REFRESH_TOKEN, valid 7 days.
   */
  function RefreshTokenOf(id: Option<UserId>): (t: Token)
    ensures t.secret == RefreshTokenSecret && t.claims.objectId == id && t.claims.id.None?
    ensures t.expiresInSeconds == 7 * Day
  {
    Token(RefreshTokenSecret, NoClaims.(objectId := id), 7 * Day)
  }

  /** The admin login's token: `{ email, role: "admin" }`, signed with JWT_SECRET, valid 7 days. */
  function AdminToken(email: Option<string>): (t: Token)
    ensures t.secret == JwtSecret && t.claims.email == email && t.claims.role == Some(AdminRole)
    ensures t.claims.id.None? && t.expiresInSeconds == 7 * Day
  {
    Token(JwtSecret, NoClaims.(email := email, role := Some(AdminRole)), 7 * Day)
  }

  /**
   * `jwt.verify(text, key)`: `decode` says which token, if any, a string
   * encodes. Verification yields the token's claims when the string is
   * non-empty and the token is signed with `key`; otherwise it throws,
   * which is `None` here.
   */
  function Verify(decode: string -> Option<Token>, text: string, key: Secret): (claims: Option<Claims>)
    ensures claims.Some? <==> text != "" && decode(text).Some? && decode(text).value.secret == key
    ensures claims.Some? ==> claims.value == decode(text).value.claims
  {
    if text != "" && decode(text).Some? && decode(text).value.secret == key then Some(decode(text).value.claims)
    else None
  }
}
