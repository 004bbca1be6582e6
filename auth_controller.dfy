/**
 * The authentication controller: the OTP flavour of "forgot password"
 * (issue, verify, reset), the access-token refresh, and a second
 * registration and login pair. The OTP is an input (the token helper draws
 * it with `Math.random`), as are bcrypt, the salt, `crypto.randomBytes`,
 * the clock and whether `sendEmail` throws (`true` when it does).
 *
 * Mongoose stores the empty string written into a Date field as null, and
 * `new Date(null)` is the epoch, so a cleared or never-issued OTP expiry
 * reads as time 0.
 */
module AuthController {
  import opened Wrappers
  import opened Tokens
  import opened Http
  import opened Crypto
  import opened UserModel
  import opened Bearer

  const OtpLifetime := 60 * 60 * 1000

  const EmailNotFound := "Email not found"
  const ServerErrorMessage := "Server error"

  // ---------------------------------------------------------------------
  // The OTP on a record
  // ---------------------------------------------------------------------

  /** The instant a stored expiry denotes: a null expiry is the epoch. */
  function ExpiryTime(expiry: Option<int>): (t: int)
    ensures expiry.None? ==> t == 0
    ensures expiry.Some? ==> t == expiry.value
  {
    expiry.GetOr(0)
  }

  /** Issuing: the OTP and its expiry, one hour from `now`, are written together. */
  function IssueOtp(u: User, otp: string, now: int): (v: User)
    ensures v.forgotPasswordOtp == Some(otp) && ExpiryTime(v.forgotPasswordExpiry) == now + OtpLifetime
    ensures v == u.(forgotPasswordOtp := v.forgotPasswordOtp, forgotPasswordExpiry := v.forgotPasswordExpiry)
  {
    u.(forgotPasswordOtp := Some(otp), forgotPasswordExpiry := Some(now + OtpLifetime))
  }

  /** Clearing after a successful check: the OTP becomes "" and the expiry null. */
  function ClearOtp(u: User): (v: User)
    ensures v.forgotPasswordOtp == Some("") && ExpiryTime(v.forgotPasswordExpiry) == 0
    ensures v == u.(forgotPasswordOtp := v.forgotPasswordOtp, forgotPasswordExpiry := v.forgotPasswordExpiry)
  {
    u.(forgotPasswordOtp := Some(""), forgotPasswordExpiry := None)
  }

  datatype OtpCheck = Expired | Mismatch | Accepted

  /** The two checks `verifyForgotPasswordOtp` makes on a found record, expiry first. */
  function CheckOtp(u: User, otp: string, now: int): (v: OtpCheck)
    ensures v == Expired <==> now > ExpiryTime(u.forgotPasswordExpiry)
    ensures v == Accepted <==> now <= ExpiryTime(u.forgotPasswordExpiry) && u.forgotPasswordOtp == Some(otp)
  {
    if now > ExpiryTime(u.forgotPasswordExpiry) then Expired
    else if u.forgotPasswordOtp != Some(otp) then Mismatch
    else Accepted
  }

  /** An issued OTP is accepted up to and including the instant its hour ends. */
  lemma OtpAcceptedWithinHour(u: User, otp: string, issuedAt: int, now: int)
    requires issuedAt <= now <= issuedAt + OtpLifetime
    ensures CheckOtp(IssueOtp(u, otp, issuedAt), otp, now) == Accepted
  {
  }

  /** After the hour any code, the right one included, is answered "OTP expired". */
  lemma OtpExpiresAfterHour(u: User, otp: string, code: string, issuedAt: int, now: int)
    requires now > issuedAt + OtpLifetime
    ensures CheckOtp(IssueOtp(u, otp, issuedAt), code, now) == Expired
  {
  }

  /** Within the hour a wrong code is a mismatch. */
  lemma WrongCodeMismatches(u: User, otp: string, code: string, issuedAt: int, now: int)
    requires issuedAt <= now <= issuedAt + OtpLifetime && code != otp
    ensures CheckOtp(IssueOtp(u, otp, issuedAt), code, now) == Mismatch
  {
  }

  /** A fresh record, never sent an OTP, reads as expired at any time after the epoch. */
  lemma NeverIssuedReadsExpired(id: UserId, name: string, email: string, password: string, code: string, now: int)
    requires now > 0
    ensures CheckOtp(NewRecord(id, name, email, password), code, now) == Expired
  {
  }

  /** A used OTP cannot be replayed: after clearing, every code reads as expired. */
  lemma ClearedOtpReadsExpired(u: User, code: string, now: int)
    requires now > 0
    ensures CheckOtp(ClearOtp(u), code, now) == Expired
  {
  }

  // ---------------------------------------------------------------------
  // Handlers
  // ---------------------------------------------------------------------

  /**
   * `forgotPasswordController`: an unknown email changes nothing; otherwise
   * the OTP and its expiry are stored together before the email is sent,
   * so they stay stored when sending fails.
   */
  method ForgotPasswordController(store: UserStore, email: string, otp: string, now: int, mailFails: bool)
    returns (r: Reply<()>)
    requires store.Valid()
    modifies store
    ensures store.Valid() && store.nextId == old(store.nextId)
    ensures email !in old(store.users) ==> r == Fail(BadRequest, EmailNotFound) && store.users == old(store.users)
    ensures email in old(store.users) ==>
              && store.users == old(store.users)[email := IssueOtp(old(store.users)[email], otp, now)]
              && r == (if mailFails then Fail(ServerError, "Failed to send OTP")
                       else Reply(OK, true, Some("OTP sent to your email"), None))
  {
    if email !in store.users {
      return Fail(BadRequest, EmailNotFound);
    }
    var user := store.users[email];
    var expiry := now + OtpLifetime;
    store.Replace(email, user.(forgotPasswordOtp := Some(otp), forgotPasswordExpiry := Some(expiry)));
    if mailFails {
      return Fail(ServerError, "Failed to send OTP");
    }
    r := Reply(OK, true, Some("OTP sent to your email"), None);
  }

  /**
   * `verifyForgotPasswordOtp`: unknown email, then expiry, then the code;
   * every failure leaves the store as it was, and success clears the OTP
   * and its expiry together.
   */
  method VerifyForgotPasswordOtp(store: UserStore, email: string, otp: string, now: int) returns (r: Reply<()>)
    requires store.Valid()
    modifies store
    ensures store.Valid() && store.nextId == old(store.nextId)
    ensures email !in old(store.users) ==> r == Fail(BadRequest, EmailNotFound)
    ensures email in old(store.users) && CheckOtp(old(store.users)[email], otp, now) == Expired ==>
              r == Fail(BadRequest, "OTP expired")
    ensures email in old(store.users) && CheckOtp(old(store.users)[email], otp, now) == Mismatch ==>
              r == Fail(BadRequest, "Invalid OTP")
    ensures r.success <==> email in old(store.users) && CheckOtp(old(store.users)[email], otp, now) == Accepted
    ensures !r.success ==> store.users == old(store.users)
    ensures r.success ==>
              && store.users == old(store.users)[email := ClearOtp(old(store.users)[email])]
              && r == Reply(OK, true, Some("OTP verified successfully"), None)
  {
    if email !in store.users {
      return Fail(BadRequest, EmailNotFound);
    }
    var user := store.users[email];
    if now > ExpiryTime(user.forgotPasswordExpiry) {
      return Fail(BadRequest, "OTP expired");
    }
    if Some(otp) != user.forgotPasswordOtp {
      return Fail(BadRequest, "Invalid OTP");
    }
    store.Replace(email, user.(forgotPasswordOtp := Some(""), forgotPasswordExpiry := None));
    r := Reply(OK, true, Some("OTP verified successfully"), None);
  }

  /**
   * `resetPassword`: the two fields must be equal (an absent pair counts as
   * equal) before the email is even looked up; then only the password is
   * replaced, by the hash of the new one. No verified OTP is asked for.
   * Hashing an absent password throws, a 500.
   */
  method ResetPassword(store: UserStore, b: Bcrypt, email: string, newPassword: Option<string>,
                       confirmPassword: Option<string>, salt: Salt)
    returns (r: Reply<()>)
    requires store.Valid()
    modifies store
    ensures store.Valid() && store.nextId == old(store.nextId)
    ensures newPassword != confirmPassword ==> r == Fail(BadRequest, "Passwords do not match")
    ensures newPassword == confirmPassword && email !in old(store.users) ==> r == Fail(BadRequest, EmailNotFound)
    ensures newPassword == confirmPassword && email in old(store.users) && newPassword.None? ==>
              r == Fail(ServerError, "Failed to reset password")
    ensures r.success <==> newPassword == confirmPassword && email in old(store.users) && newPassword.Some?
    ensures !r.success ==> store.users == old(store.users)
    ensures r.success ==>
              && store.users == old(store.users)[email := old(store.users)[email].(password := Hash(b, newPassword.value, salt))]
              && r == Reply(OK, true, Some("Password reset successfully"), None)
  {
    if newPassword != confirmPassword {
      return Fail(BadRequest, "Passwords do not match");
    }
    if email !in store.users {
      return Fail(BadRequest, EmailNotFound);
    }
    var user := store.users[email];
    if newPassword.None? {
      return Fail(ServerError, "Failed to reset password");
    }
    var hashPassword := Hash(b, newPassword.value, salt);
    store.Replace(email, user.(password := hashPassword));
    r := Reply(OK, true, Some("Password reset successfully"), None);
  }

  /** The payload of a successful login: the access token and the record. */
  datatype Session = Session(accessToken: Token, user: User)

  /**
   * `loginUser` of this controller: an unknown email and a wrong password
   * get the same 400 answer; an absent password makes bcrypt throw, a 500.
   */
  function LoginUser(users: map<string, User>, b: Bcrypt, email: string, password: Option<string>): (r: Reply<Session>)
    ensures r.success <==> email in users && password.Some? && Compare(b, password.value, users[email].password)
    ensures email !in users ==> r == Fail(BadRequest, "Invalid email or password")
    ensures email in users && password.Some? && !Compare(b, password.value, users[email].password) ==>
              r == Fail(BadRequest, "Invalid email or password")
    ensures email in users && password.None? ==> r == Fail(ServerError, ServerErrorMessage)
    ensures r.success ==>
              && r.status == OK
              && r.data == Some(Session(AccessToken(Some(users[email].id)), users[email]))
  {
    if email !in users then Fail(BadRequest, "Invalid email or password")
    else if password.None? then Fail(ServerError, ServerErrorMessage)
    else if !Compare(b, password.value, users[email].password) then Fail(BadRequest, "Invalid email or password")
    else Reply(OK, true, Some("Login successful"), Some(Session(AccessToken(Some(users[email].id)), users[email])))
  }

  /**
   * After `resetPassword` the new password logs in, and (with an idealised
   * digest) the old one no longer does.
   */
  lemma LoginAfterReset(users: map<string, User>, b: Bcrypt, email: string, newPassword: string, previous: string, salt: Salt)
    requires email in users && CollisionFree(b) && previous != newPassword
    ensures var after := users[email := users[email].(password := Hash(b, newPassword, salt))];
            && LoginUser(after, b, email, Some(newPassword)).success
            && LoginUser(after, b, email, Some(previous)) == Fail(BadRequest, "Invalid email or password")
  {
    CompareAcceptsHash(b, newPassword, salt);
    CompareRejectsOther(b, newPassword, previous, salt);
  }

  /**
   * The refresh token a request presents: the `refreshToken` cookie when it
   * is non-empty, else the second space-separated field of the
   * Authorization header (no `"Bearer "` test here). `None` when neither
   * gives a non-empty token.
   */
  function PresentedToken(cookies: map<string, string>, authorization: Option<string>): (token: Option<string>)
    ensures token.Some? ==> token.value != ""
    ensures "refreshToken" in cookies && cookies["refreshToken"] != "" ==> token == Some(cookies["refreshToken"])
    ensures !("refreshToken" in cookies && cookies["refreshToken"] != "") ==>
              (token.Some? <==> authorization.Some? && Field(authorization.value, ' ', 1).Some?
                                && Field(authorization.value, ' ', 1).value != "")
    ensures !("refreshToken" in cookies && cookies["refreshToken"] != "") && token.Some? ==>
              token == Field(authorization.value, ' ', 1)
  {
    if "refreshToken" in cookies && cookies["refreshToken"] != "" then Some(cookies["refreshToken"])
    else if authorization.None? then None
    else match Field(authorization.value, ' ', 1)
      case Some(t) => if t != "" then Some(t) else None
      case None => None
  }

  /**
   * `refreshToken`: a missing cookie jar (`req.cookies` undefined) and a
   * token that does not verify under the refresh secret both end in the
   * handler's 500; no token at all is a 401. A fresh access token carries
   * the refresh token's `_id` claim.
   */
  function RefreshToken(cookies: Option<map<string, string>>, authorization: Option<string>, decode: string -> Option<Token>)
    : (r: Reply<Token>)
    ensures cookies.None? ==> r == Fail(ServerError, "Failed to refresh token")
    ensures cookies.Some? && PresentedToken(cookies.value, authorization).None? ==> r == Fail(Unauthorized, "Invalid token")
    ensures r.success <==>
              cookies.Some? && PresentedToken(cookies.value, authorization).Some?
              && Verify(decode, PresentedToken(cookies.value, authorization).value, RefreshTokenSecret).Some?
    ensures r.success ==>
              r.data == Some(AccessToken(decode(PresentedToken(cookies.value, authorization).value).value.claims.objectId))
  {
    if cookies.None? then Fail(ServerError, "Failed to refresh token")
    else match PresentedToken(cookies.value, authorization)
      case None => Fail(Unauthorized, "Invalid token")
      case Some(token) =>
        match Verify(decode, token, RefreshTokenSecret)
        case None => Fail(ServerError, "Failed to refresh token")
        case Some(claims) => Reply(OK, true, Some("New access token generated"), Some(AccessToken(claims.objectId)))
  }

  /** A non-empty refresh cookie wins: the Authorization header is then never read. */
  lemma CookieOverridesHeader(cookies: map<string, string>, h1: Option<string>, h2: Option<string>,
                              decode: string -> Option<Token>)
    requires "refreshToken" in cookies && cookies["refreshToken"] != ""
    ensures RefreshToken(Some(cookies), h1, decode) == RefreshToken(Some(cookies), h2, decode)
  {
  }

  /**
   * With no refresh cookie and no non-empty second field in the
   * Authorization header (no header, a scheme word alone, or two spaces
   * after it), the request is refused with 401.
   */
  lemma NoTokenIsUnauthorized(cookies: map<string, string>, authorization: Option<string>,
                              decode: string -> Option<Token>)
    requires "refreshToken" !in cookies || cookies["refreshToken"] == ""
    requires authorization.None? || Field(authorization.value, ' ', 1).None? || Field(authorization.value, ' ', 1).value == ""
    ensures RefreshToken(Some(cookies), authorization, decode) == Fail(Unauthorized, "Invalid token")
  {
  }

  /**
   * The header fallback does not test for `"Bearer "`: a refresh token
   * behind any scheme word is accepted.
   */
  lemma NonBearerHeaderRefreshes(scheme: string, text: string, id: Option<UserId>, decode: string -> Option<Token>)
    requires ' ' !in scheme && text != "" && ' ' !in text && decode(text) == Some(RefreshTokenOf(id))
    ensures PresentedToken(map[], Some(scheme + " " + text)) == Some(text)
    ensures RefreshToken(Some(map[]), Some(scheme + " " + text), decode).data == Some(AccessToken(id))
  {
    SplitAfterPiece(scheme, ' ', text);
    SplitOfPiece(text, ' ');
  }

  /** A refresh token for a user, sent as a bearer header, yields an access token for that user. */
  lemma RefreshFromHeader(text: string, id: Option<UserId>, decode: string -> Option<Token>)
    requires text != "" && ' ' !in text && decode(text) == Some(RefreshTokenOf(id))
    ensures RefreshToken(Some(map[]), Some(BearerPrefix + text), decode).data == Some(AccessToken(id))
  {
    BearerTokenField(text);
  }

  /**
   * An access token cannot be traded for another: it is signed with
   * SECRET_KEY_ACCESS_TOKEN, which differs from the refresh key.
   */
  lemma AccessTokenDoesNotRefresh(cookies: map<string, string>, authorization: Option<string>, id: Option<UserId>,
                                  decode: string -> Option<Token>)
    requires PresentedToken(cookies, authorization).Some?
    requires decode(PresentedToken(cookies, authorization).value) == Some(AccessToken(id))
    ensures RefreshToken(Some(cookies), authorization, decode) == Fail(ServerError, "Failed to refresh token")
  {
  }

  // ---------------------------------------------------------------------
  // Registration
  // ---------------------------------------------------------------------

  /**
   * What both versions of this controller's `registerUser` do before the
   * first email: a taken email is refused; an absent password makes
   * bcrypt throw; a record missing its name or email fails schema
   * validation. Only a record that is stored gives `None`.
   */
  method CreateAccount(store: UserStore, b: Bcrypt, name: string, email: string, password: Option<string>,
                       salt: Salt, entropy: Entropy32)
    returns (refused: Option<Reply<()>>)
    requires store.Valid()
    modifies store
    ensures store.Valid()
    ensures email in old(store.users) ==> refused == Some(Fail(BadRequest, "Email already registered"))
    ensures email !in old(store.users) && (password.None? || name == "" || email == "") ==>
              refused == Some(Fail(ServerError, ServerErrorMessage))
    ensures refused.None? <==> email !in old(store.users) && password.Some? && name != "" && email != ""
    ensures refused.Some? ==> store.users == old(store.users) && store.nextId == old(store.nextId)
    ensures refused.None? ==>
              && store.users == old(store.users)[email := Registration(old(store.nextId), name, email,
                                                                       Hash(b, password.value, salt), RandomToken(entropy))]
              && store.nextId == old(store.nextId) + 1
  {
    if email in store.users {
      return Some(Fail(BadRequest, "Email already registered"));
    }
    if password.None? {
      return Some(Fail(ServerError, ServerErrorMessage));
    }
    var hashedPassword := Hash(b, password.value, salt);
    var verificationToken := RandomToken(entropy);
    var newUser := store.Create(Registration(store.nextId, name, email, hashedPassword, verificationToken));
    if newUser.None? {
      return Some(Fail(ServerError, ServerErrorMessage));
    }
    refused := None;
  }

  /**
   * `registerUser` as written: after the record is stored and the welcome
   * email sent, building the verification email names a template the file
   * never imports. The ReferenceError lands in the handler's catch, so a
   * registration that stores a user still answers 500 and no verification
   * email goes out.
   */
  method RegisterUserAsWritten(store: UserStore, b: Bcrypt, name: string, email: string, password: Option<string>,
                               salt: Salt, entropy: Entropy32, welcomeFails: bool)
    returns (r: Reply<()>)
    requires store.Valid()
    modifies store
    ensures store.Valid()
    ensures email in old(store.users) ==>
              && r == Fail(BadRequest, "Email already registered")
              && store.users == old(store.users) && store.nextId == old(store.nextId)
    ensures email !in old(store.users) ==> r == Fail(ServerError, ServerErrorMessage)
    ensures email !in old(store.users) && (password.None? || name == "" || email == "") ==>
              store.users == old(store.users) && store.nextId == old(store.nextId)
    ensures email !in old(store.users) && password.Some? && name != "" && email != "" ==>
              && store.users == old(store.users)[email := Registration(old(store.nextId), name, email,
                                                                       Hash(b, password.value, salt), RandomToken(entropy))]
              && store.nextId == old(store.nextId) + 1
  {
    var refused := CreateAccount(store, b, name, email, password, salt, entropy);
    if refused.Some? {
      return refused.value;
    }
    if welcomeFails {
      return Fail(ServerError, ServerErrorMessage);
    }
    // The verification email's template is an unbound name here: a ReferenceError.
    r := Fail(ServerError, ServerErrorMessage);
  }

  /**
   * `registerUser` with the verification template imported: both emails
   * sent, 201. The stored record is the same as in the version as written.
   */
  method RegisterUser(store: UserStore, b: Bcrypt, name: string, email: string, password: Option<string>,
                      salt: Salt, entropy: Entropy32, welcomeFails: bool, verificationFails: bool)
    returns (r: Reply<()>)
    requires store.Valid()
    modifies store
    ensures store.Valid()
    ensures email in old(store.users) ==>
              && r == Fail(BadRequest, "Email already registered")
              && store.users == old(store.users) && store.nextId == old(store.nextId)
    ensures email !in old(store.users) && (password.None? || name == "" || email == "" || welcomeFails || verificationFails) ==>
              r == Fail(ServerError, ServerErrorMessage)
    ensures email !in old(store.users) && (password.None? || name == "" || email == "") ==>
              store.users == old(store.users) && store.nextId == old(store.nextId)
    ensures r.status == Created <==>
              email !in old(store.users) && password.Some? && name != "" && email != ""
              && !welcomeFails && !verificationFails
    ensures r.status == Created ==> r == Reply(Created, true, Some("Registration successful! Please verify your email."), None)
    ensures email !in old(store.users) && password.Some? && name != "" && email != "" ==>
              && store.users == old(store.users)[email := Registration(old(store.nextId), name, email,
                                                                       Hash(b, password.value, salt), RandomToken(entropy))]
              && store.nextId == old(store.nextId) + 1
  {
    var refused := CreateAccount(store, b, name, email, password, salt, entropy);
    if refused.Some? {
      return refused.value;
    }
    if welcomeFails || verificationFails {
      return Fail(ServerError, ServerErrorMessage);
    }
    r := Reply(Created, true, Some("Registration successful! Please verify your email."), None);
  }

  /**
   * The as-written registration on an empty store, with every email going
   * out: the user is stored, yet the answer is 500 "Server error".
   */
  method RegistrationAnswersServerError(b: Bcrypt, salt: Salt, entropy: Entropy32)
    returns (r: Reply<()>, stored: bool)
    ensures r == Fail(ServerError, ServerErrorMessage) && stored
  {
    var store := new UserStore();
    r := RegisterUserAsWritten(store, b, "Ada", "ada@example.com", Some("correct horse"), salt, entropy, false);
    stored := "ada@example.com" in store.users;
  }

  /** The same scenario with the template imported: 201 and the user stored. */
  method RegistrationSucceedsCorrected(b: Bcrypt, salt: Salt, entropy: Entropy32)
    returns (r: Reply<()>, stored: bool)
    ensures r.status == Created && r.success && stored
  {
    var store := new UserStore();
    r := RegisterUser(store, b, "Ada", "ada@example.com", Some("correct horse"), salt, entropy, false, false);
    stored := "ada@example.com" in store.users;
  }
}
