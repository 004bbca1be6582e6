/**
 * The user controller: registration with validation, the login the client
 * uses, the admin login, the reset-link flavour of "forgot password", and
 * email verification. ADMIN_EMAIL and ADMIN_PASSWORD come in as a
 * `Config` (`None` for an unset variable); bcrypt, the salt,
 * `crypto.randomBytes`, `validator.isEmail` and the clock are parameters.
 * Whether `sendEmail` throws is an input too: `Some(message)` when it
 * throws with that message.
 */
module UserController {
  import opened Wrappers
  import opened Tokens
  import opened Http
  import opened Crypto
  import opened UserModel
  import Bearer
  import AdminAuth

  datatype Config = Config(adminEmail: Option<string>, adminPassword: Option<string>)

  const MinPasswordLength := 8
  const ResetLinkLifetime := 3600000

  const Registered := "User registered successfully. Verification email sent."
  /** The message bcrypt throws when the password to compare is missing. */
  const BcryptMissingArgument := "data and hash arguments required"

  /** The message a 500 answer carries for an error thrown with `message`. */
  function ErrorMessage(message: string): (m: string)
    ensures m != ""
    ensures message != "" ==> m == message
  {
    if message != "" then message else "Internal server error"
  }

  /**
   * The first check `registerUser` fails, in the order it makes them:
   * a missing field, a malformed email, a short password, an email in use.
   */
  function RegisterRefusal(users: map<string, User>, isEmail: string -> bool, name: string, email: string, password: string)
    : (refusal: Option<string>)
    ensures refusal.None? <==>
              name != "" && email != "" && password != "" && isEmail(email)
              && |password| >= MinPasswordLength && email !in users
    ensures name == "" || email == "" || password == "" ==> refusal == Some("All fields are required")
    ensures name != "" && email != "" && password != "" && !isEmail(email) ==> refusal == Some("Invalid email")
    ensures name != "" && email != "" && password != "" && isEmail(email) && |password| < MinPasswordLength ==>
              refusal == Some("Password must be at least 8 characters")
    ensures name != "" && email != "" && isEmail(email) && |password| >= MinPasswordLength && email in users ==>
              refusal == Some("User already exists")
  {
    if name == "" || email == "" || password == "" then Some("All fields are required")
    else if !isEmail(email) then Some("Invalid email")
    else if |password| < MinPasswordLength then Some("Password must be at least 8 characters")
    else if email in users then Some("User already exists")
    else None
  }

  /**
   * `registerUser`: a refused request changes nothing; otherwise exactly one
   * record is added under the email, with the bcrypt hash of the password
   * and a 64-hex-digit verification token, and it stays stored even when
   * the verification email then fails. The answer echoes the saved record.
   */
  method RegisterUser(store: UserStore, b: Bcrypt, isEmail: string -> bool, name: string, email: string, password: string,
                      salt: Salt, entropy: Entropy32, mailError: Option<string>)
    returns (r: Reply<User>)
    requires store.Valid()
    modifies store
    ensures store.Valid()
    ensures RegisterRefusal(old(store.users), isEmail, name, email, password).Some? ==>
              && r == Fail(BadRequest, RegisterRefusal(old(store.users), isEmail, name, email, password).value)
              && store.users == old(store.users) && store.nextId == old(store.nextId)
    ensures RegisterRefusal(old(store.users), isEmail, name, email, password).None? ==>
              var record := Registration(old(store.nextId), name, email, Hash(b, password, salt), RandomToken(entropy));
              && store.users == old(store.users)[email := record]
              && store.nextId == old(store.nextId) + 1
              && r == (if mailError.None? then Reply(Created, true, Some(Registered), Some(record))
                       else Fail(ServerError, ErrorMessage(mailError.value)))
  {
    if name == "" || email == "" || password == "" {
      return Fail(BadRequest, "All fields are required");
    }
    if !isEmail(email) {
      return Fail(BadRequest, "Invalid email");
    }
    if |password| < MinPasswordLength {
      return Fail(BadRequest, "Password must be at least 8 characters");
    }
    if email in store.users {
      return Fail(BadRequest, "User already exists");
    }
    var hashedPassword := Hash(b, password, salt);
    var verificationToken := RandomToken(entropy);
    var savedUser := store.Create(Registration(store.nextId, name, email, hashedPassword, verificationToken));
    if savedUser.None? {
      assert false;
    }
    if mailError.Some? {
      return Fail(ServerError, ErrorMessage(mailError.value));
    }
    r := Reply(Created, true, Some(Registered), savedUser);
  }

  /**
   * `loginUser`: answered with status 200 in every case; a token for the
   * record's id only when the email is registered and the password
   * matches its hash. A request without a password makes bcrypt throw,
   * and the catch answers with the thrown message.
   */
  function LoginUser(users: map<string, User>, b: Bcrypt, email: string, password: Option<string>): (r: Reply<Token>)
    ensures r.status == OK
    ensures r.success <==> email in users && password.Some? && Compare(b, password.value, users[email].password)
    ensures email !in users ==> r == Fail(OK, "User doesn't exist")
    ensures email in users && password.None? ==> r == Fail(OK, BcryptMissingArgument)
    ensures email in users && password.Some? && !Compare(b, password.value, users[email].password) ==>
              r == Fail(OK, "Invalid credentials")
    ensures r.success ==> r.data == Some(CreateToken(users[email].id))
  {
    if email !in users then Fail(OK, "User doesn't exist")
    else if password.None? then Fail(OK, BcryptMissingArgument)
    else if !Compare(b, password.value, users[email].password) then Fail(OK, "Invalid credentials")
    else Reply(OK, true, None, Some(CreateToken(users[email].id)))
  }

  /**
   * `adminLogin`: both fields must equal the configured values with
   * JavaScript's strict equality, so an unset variable matches an absent
   * field. The token carries the email and the admin role.
   */
  function AdminLogin(cfg: Config, email: Option<string>, password: Option<string>): (r: Reply<Token>)
    ensures r.success <==> email == cfg.adminEmail && password == cfg.adminPassword
    ensures r.success ==> r.status == OK && r.data == Some(AdminToken(email))
    ensures !r.success ==> r == Fail(BadRequest, "Invalid credentials")
  {
    if email == cfg.adminEmail && password == cfg.adminPassword then Reply(OK, true, None, Some(AdminToken(email)))
    else Fail(BadRequest, "Invalid credentials")
  }

  /**
   * `forgotPassword`, the reset-link variant: an unknown email changes
   * nothing; otherwise the reset token and its one-hour expiry are set
   * together, and stay set even when the email then fails.
   */
  method ForgotPassword(store: UserStore, email: string, entropy: Entropy32, now: int, mailError: Option<string>)
    returns (r: Reply<()>)
    requires store.Valid()
    modifies store
    ensures store.Valid() && store.nextId == old(store.nextId)
    ensures email !in old(store.users) ==> r == Fail(BadRequest, "User not found") && store.users == old(store.users)
    ensures email in old(store.users) ==>
              var u := old(store.users)[email];
              && store.users == old(store.users)[email := u.(resetPasswordToken := Some(RandomToken(entropy)),
                                                             resetPasswordExpire := Some(now + ResetLinkLifetime))]
              && r == (if mailError.None? then Reply(OK, true, Some("Password reset link sent to your email"), None)
                       else Fail(ServerError, "Failed to send reset link"))
  {
    if email !in store.users {
      return Fail(BadRequest, "User not found");
    }
    var user := store.users[email];
    var resetToken := RandomToken(entropy);
    user := user.(resetPasswordToken := Some(resetToken));
    user := user.(resetPasswordExpire := Some(now + ResetLinkLifetime));
    store.Replace(email, user);
    if mailError.Some? {
      return Fail(ServerError, "Failed to send reset link");
    }
    r := Reply(OK, true, Some("Password reset link sent to your email"), None);
  }

  /** The records that hold `token` as their pending verification token. */
  ghost function Holders(users: map<string, User>, token: string): set<string> {
    set e | e in users && users[e].verificationToken == Some(token)
  }

  /**
   * `verifyEmail`: a token no record holds is refused; otherwise one record
   * holding it is marked verified and its token removed, so it no longer
   * holds the token.
   */
  method VerifyEmail(store: UserStore, token: string) returns (r: Reply<()>)
    requires store.Valid()
    modifies store
    ensures store.Valid() && store.nextId == old(store.nextId)
    ensures Holders(old(store.users), token) == {} ==>
              r == Fail(BadRequest, "Invalid or expired token") && store.users == old(store.users)
    ensures Holders(old(store.users), token) != {} ==>
              && r == Reply(OK, true, Some("Email verified successfully"), None)
              && (exists e :: e in Holders(old(store.users), token)
                   && store.users == old(store.users)[e := old(store.users)[e].(isVerified := true, verificationToken := None)])
              && Holders(store.users, token) < Holders(old(store.users), token)
  {
    if e :| e in store.users && store.users[e].verificationToken == Some(token) {
      ghost var before := store.users;
      var user := store.users[e];
      user := user.(isVerified := true, verificationToken := None);
      store.Replace(e, user);
      assert e in Holders(before, token) && e !in Holders(store.users, token);
      assert Holders(store.users, token) == Holders(before, token) - {e};
      r := Reply(OK, true, Some("Email verified successfully"), None);
    } else {
      assert Holders(store.users, token) == {};
      r := Fail(BadRequest, "Invalid or expired token");
    }
  }

  /**
   * A user just registered logs in with the password given at registration,
   * and receives a token for the new record's id.
   */
  lemma RegisteredUserLogsIn(users: map<string, User>, b: Bcrypt, id: UserId, name: string, email: string, password: string,
                             salt: Salt, token: string)
    ensures var after := users[email := Registration(id, name, email, Hash(b, password, salt), token)];
            LoginUser(after, b, email, Some(password)) == Reply(OK, true, None, Some(CreateToken(id)))
  {
    CompareAcceptsHash(b, password, salt);
  }

  /** With an idealised digest, any other password is refused for that record. */
  lemma RegisteredUserRefusesOtherPassword(users: map<string, User>, b: Bcrypt, id: UserId, name: string, email: string,
                                           password: string, other: string, salt: Salt, token: string)
    requires CollisionFree(b) && other != password
    ensures var after := users[email := Registration(id, name, email, Hash(b, password, salt), token)];
            LoginUser(after, b, email, Some(other)) == Fail(OK, "Invalid credentials")
  {
    CompareRejectsOther(b, password, other, salt);
  }

  /** A registration that passes the checks is stored (schema validation cannot refuse it). */
  lemma AcceptedRegistrationConforms(users: map<string, User>, isEmail: string -> bool, name: string, email: string,
                                     password: string, b: Bcrypt, salt: Salt, id: UserId, token: string)
    requires RegisterRefusal(users, isEmail, name, email, password).None?
    ensures Conforms(Registration(id, name, email, Hash(b, password, salt), token))
    ensures email !in users
  {
  }

  /** The admin login's token opens the admin routes under the same configuration. */
  lemma AdminLoginOpensAdminRoutes(cfg: Config, email: Option<string>, password: Option<string>, text: string,
                                   decode: string -> Option<Token>)
    requires AdminLogin(cfg, email, password).success
    requires text != "" && ' ' !in text && decode(text) == AdminLogin(cfg, email, password).data
    ensures AdminAuth.AdminClaims(Some(Bearer.BearerPrefix + text), decode, cfg.adminEmail).Some?
  {
    AdminAuth.AdminTokenAdmitted(text, decode, cfg.adminEmail);
  }

  /** With neither admin variable set, a request with neither field logs in as admin. */
  lemma UnsetAdminConfigAdmitsEmptyLogin()
    ensures AdminLogin(Config(None, None), None, None).success
  {
  }
}
