# Forever store: cart, accounts and bearer gates in Dafny

This project models the core of the Forever clothing store: the shopping
cart kept both by the Express server and by the React client's shop
context, the account lifecycle over the MongoDB user collection
(registration, login, admin login, email verification, password reset by
link and by one-time code, access-token refresh), and the two middlewares
that admit requests carrying a bearer token.

One Dafny module per source file, plus shared modules:

- `CartMap` (`cart.dfy`): a cart is `map<ProductId, map<Size, int>>`. The
  edits `Increment`, `SetQuantity` and `RemoveSize` are specified entry by
  entry ("this count changes, every other entry stays") and `TidyExtensional`
  shows that this determines a tidy cart. `TotalCount` and `Amount` sum
  over the maps in no particular order.
- `UserModel` (`user_model.dfy`): the user record with its schema defaults,
  and `UserStore`, a class holding the collection as a map keyed by email.
  Keying by email makes the unique index hold by construction. The store
  hands out record ids from a counter, standing in for ObjectIds.
- `Crypto` (`crypto.dfy`): hex encoding of `crypto.randomBytes(32)`, proved
  invertible, and the shape of a bcrypt hash. The salt is a prefix and the
  digest an uninterpreted function, so `compare` can re-derive it.
- `Tokens`, `Http`, `Bearer`, `Wrappers`: JWT claims and who signs them,
  the reply a handler sends (`Reply`) and the request fields the middlewares
  write, JavaScript's `split(" ")`, and `Option`.
- `CartController`, `ShopContext`, `UserController`, `AuthController`,
  `AuthMiddleware`, `AdminAuth`: the handlers. A handler that writes the
  store is a method that takes the `UserStore` and names it in its
  `modifies` clause. The client's shop
  context is the class `Shop`; its counting loops are kept as loops proved
  against `TotalCount` and `Amount`.

Inputs that the source takes from outside are parameters:

- the clock (`now`, milliseconds);
- the salt `bcrypt.genSalt` returns, and the random bytes;
- the OTP;
- `validator.isEmail`;
- which token a string decodes to (`decode`);
- the admin environment variables (`Config`);
- whether sending an email throws.

A handler's answer is a `Reply`: the status it sets (200 when it calls
`res.json` directly), `success`, the `message` and the payload.
In the source's request bodies, an absent string and an empty one are both
falsy. The model writes both as `""` where the source only tests
truthiness. It uses `Option` where `undefined` behaves differently: the
cart quantity, the user id the middleware attaches, the admin variables,
and the passwords that bcrypt receives (bcrypt throws on an undefined
one).

Behaviour the code shows:

- The live login (`user.controller.js`) tells an unknown email ("User
  doesn't exist") apart from a wrong password ("Invalid credentials").
  Both answers carry status 200.
- Registration answers with the saved record, password hash included.
- A used OTP cannot be replayed. Clearing it writes `""` into the expiry
  date, which Mongoose stores as null, which reads as the epoch. A second
  attempt is therefore answered "OTP expired" rather than "Invalid OTP".
- `resetPassword` does not require a verified OTP.
- `refreshToken` answers 500, not 401, for a token that fails
  verification.
- `refreshToken` reads `req.cookies`, which `server.js` never installs a
  cookie parser for. As wired, that read throws and the handler answers
  500. The model takes the cookies as an `Option`.
- `adminAuth` refuses with status 200 and `success: false`, not 401.
- Emails are compared exactly, without case folding.
- `addToCart` and `updateCart` reply with the edited cart, but they edit
  the Mixed `cartData` path in place and never mark it modified, so the
  save stores nothing (see Findings). `AddToCart` and `UpdateCart` model the
  handlers with the edit stored.

## Model

| member | source | states |
|---|---|---|
| CartMap.Increment | backend/controllers/cartController.js:22-23 | count of (item, size) is the old count (0 if absent) plus one; every other entry unchanged; tidiness kept |
| CartMap.SetQuantity | backend/controllers/cartController.js:64-67 | entry (item, size) holds exactly q, created if absent, no sign or bound check; all other entries unchanged |
| CartMap.RemoveSize | backend/controllers/cartController.js:55-63 | entry removed and reads as 0; product key dropped once no size remains; all other entries unchanged |
| CartMap.TidyExtensional | backend/controllers/cartController.js:55-67 | two carts with no empty size map and the same entries are equal, so the entry-wise contracts pin each edit's result down |
| CartMap.RemoveUndoesIncrement | backend/controllers/cartController.js:22-23 | removing an entry that an add created gives back the original cart |
| CartMap.TotalCountIncrement | frontend/src/context/ShopContext.jsx:165-173 | adding one unit raises the summed count by exactly one |
| CartMap.TotalCountSetQuantity | frontend/src/context/ShopContext.jsx:165-173 | storing q changes the summed count by q minus the old count |
| CartMap.TotalCountRemoveSize | frontend/src/context/ShopContext.jsx:165-173 | removing an entry lowers the summed count by that entry's count |
| CartMap.SumValuesRemove | frontend/src/context/ShopContext.jsx:167-171 | a map's sum does not depend on the order the `for…in` loop visits keys |
| CartMap.TotalCount | frontend/src/context/ShopContext.jsx:165-173 | the units in the cart: 0 for an empty cart, never negative when no count is |
| CartMap.PriceOf | frontend/src/context/ShopContext.jsx:178-179 | the price of the first product with that id; 0 when no product has it |
| CartMap.Amount | frontend/src/context/ShopContext.jsx:175-185 | the subtotal: 0 for an empty cart, never negative when no count and no price is |
| CartMap.FindProduct | frontend/src/context/ShopContext.jsx:178 | `find` yields the first product with that id, and nothing exactly when no product has it |
| CartMap.AmountIncrement | frontend/src/context/ShopContext.jsx:175-185 | one more unit raises the subtotal by the product's price, 0 for a product the catalogue lacks |
| UserModel.Conforms | backend/models/userModel.js:5-7 | the schema's `required` fields: name, email and password all non-empty |
| UserModel.NewRecord | backend/models/userModel.js:4-29 | a new record has the schema defaults: empty cart, unverified, no tokens, null OTP and expiry, Active; it conforms iff name, email and password are non-empty |
| UserModel.Registration | backend/controllers/user.controller.js:37-43 | the registered record carries the hash, `isVerified: false` and the verification token |
| UserModel.UserStore.OwnerOf | backend/controllers/cartController.js:13 | the record with a given id, none for an undefined id |
| UserModel.UserStore.FindById | backend/controllers/cartController.js:13 | `findById` finds exactly the record with that id |
| UserModel.UserStore.Create | backend/models/userModel.js:5-7 | save succeeds iff the required fields are non-empty and the email is unused; the record gets a fresh id and nothing else changes |
| UserModel.UserStore.Replace | backend/controllers/cartController.js:25-26 | saving an existing record replaces it and keeps the store's invariant |
| CartController.AddToCart | backend/controllers/cartController.js:4-34 | 400 "Missing fields" or 404 "User not found" with no change; else the user's cart becomes `Increment` of it and is returned |
| CartController.UpdateCart | backend/controllers/cartController.js:39-78 | undefined quantity refused but 0 accepted; 0 removes the entry, anything else is stored; only that user's cart changes |
| CartController.GetUserCart | backend/controllers/cartController.js:83-98 | read-only: 404 for an unknown user, else the stored cart |
| CartController.AddToCartAsWritten | backend/controllers/cartController.js:19-28 | as written: the reply carries `Increment` of the stored cart while the store is left unchanged |
| CartController.UpdateCartAsWritten | backend/controllers/cartController.js:52-72 | as written: the reply carries the removed or set entry while the store is left unchanged |
| CartController.AddedUnitNotStored | backend/controllers/cartController.js:25-28 | a new user's add replies one unit of ("p", "M") and the stored cart stays empty |
| CartController.AddedUnitStored | backend/controllers/cartController.js:25-28 | the same add with the path marked modified stores the replied cart |
| CartController.UpdatedQuantityNotStored | backend/controllers/cartController.js:69-72 | a new user's update to 3 units is replied but not stored |
| CartController.UpdatedQuantityStored | backend/controllers/cartController.js:69-72 | the same update with the path marked modified stores the 3 units |
| CartController.ClearCart | backend/controllers/cartController.js:103-122 | 404 with no change, else the user's cart is the empty map |
| ShopContext.SyncOr | frontend/src/context/ShopContext.jsx:76-79 | a request goes to the server exactly when a token is held |
| ShopContext.TotalWithDelivery | frontend/src/context/ShopContext.jsx:187-190 | the fee is waived iff the subtotal is strictly above the threshold |
| ShopContext.FeeChargedAtThreshold | frontend/src/context/ShopContext.jsx:189 | a subtotal of exactly 100 still pays the fee |
| ShopContext.CrossingThresholdLowersTotal | frontend/src/context/ShopContext.jsx:189 | one cent more in the cart lowers the total, since the fee is then waived |
| ShopContext.Shop.constructor | frontend/src/context/ShopContext.jsx:14-16 | the provider starts with an empty cart, no products and no token |
| ShopContext.Shop.AddToCart | frontend/src/context/ShopContext.jsx:62-94 | no size: "select a size", cart unchanged; else the cart gains one unit even without a token, and the add is sent only with one |
| ShopContext.Shop.UpdateQuantity | frontend/src/context/ShopContext.jsx:97-116 | the quantity is stored as given, 0 included |
| ShopContext.Shop.RemoveFromCart | frontend/src/context/ShopContext.jsx:119-142 | only a present, non-zero entry is removed; otherwise the cart is unchanged; quantity 0 is sent whenever a token is held |
| ShopContext.Shop.ClearCart | frontend/src/context/ShopContext.jsx:145-162 | the cart is empty afterwards |
| ShopContext.Shop.Logout | frontend/src/context/ShopContext.jsx:204-208 | token dropped and cart empty |
| ShopContext.Shop.GetCartCount | frontend/src/context/ShopContext.jsx:165-173 | the nested loops return the sum of every stored count |
| ShopContext.Shop.GetCartAmount | frontend/src/context/ShopContext.jsx:175-185 | the nested loops return price times count over the entries whose product is listed |
| ShopContext.Shop.GetTotalWithDelivery | frontend/src/context/ShopContext.jsx:187-190 | the subtotal with the delivery rule applied |
| ShopContext.RemoveZeroEntryDiverges | frontend/src/context/ShopContext.jsx:121 | a stored 0 entry stays in the client's cart, while the update it sends makes the server delete it |
| ShopContext.ZeroQuantityDiffersButCountsAlike | frontend/src/context/ShopContext.jsx:97-101 | client `updateQuantity(…, 0)` keeps an entry the server deletes, yet both carts count the same units |
| Crypto.ToHex | backend/controllers/user.controller.js:35 | two characters per byte |
| Crypto.ToHexIsHex | backend/controllers/user.controller.js:35 | the encoding uses lower-case hex digits only |
| Crypto.HexRoundTrip | backend/controllers/user.controller.js:35 | decoding the hex text returns the random bytes |
| Crypto.RandomToken | backend/controllers/user.controller.js:35 | a token is 64 hex characters and decodes to the 32 random bytes |
| Crypto.Hash | backend/controllers/user.controller.js:31-32 | a bcrypt hash begins with the salt it was made with |
| Crypto.CompareAcceptsHash | backend/controllers/user.controller.js:82 | the hashed password compares equal to its hash |
| Crypto.CompareRejectsOther | backend/controllers/user.controller.js:82 | under a collision-free digest any other password compares unequal |
| Tokens.CreateToken | backend/controllers/user.controller.js:10-12 | `{ id }` under JWT_SECRET, 7 days |
| Tokens.AccessToken | backend/helpers/tokenHelper.js:9-15 | `{ _id }` under the access-token secret, 15 minutes |
| Tokens.RefreshTokenOf | backend/helpers/tokenHelper.js:18-24 | `{ _id }` under the refresh-token secret, 7 days |
| Tokens.AdminToken | backend/controllers/user.controller.js:101 | `{ email, role: "admin" }` under JWT_SECRET, 7 days |
| Tokens.Verify | backend/middleware/auth.js:19 | verification succeeds iff the text is non-empty and decodes to a token signed with that key, yielding its claims |
| Bearer.Split | backend/middleware/auth.js:16 | `split` yields at least one piece and no piece contains the separator |
| Bearer.JoinSplit | backend/middleware/auth.js:16 | joining the pieces gives back the split string |
| Bearer.SplitJoin | backend/middleware/auth.js:16 | splitting joined separator-free pieces gives back the pieces |
| Bearer.SplitAfterPiece | backend/middleware/auth.js:16 | a separator-free prefix followed by a separator is the first piece |
| Bearer.Field | backend/middleware/auth.js:16 | indexing the pieces: undefined past the end, never containing the separator |
| Bearer.BearerSecondField | backend/middleware/auth.js:8-16 | after the `"Bearer "` prefix the second piece exists and is the text up to the next space |
| Bearer.BearerTokenField | backend/middleware/auth.js:16 | a space-free token behind the prefix is exactly the second piece |
| AuthMiddleware.BearerToken | backend/middleware/auth.js:8-16 | a token is extracted iff the header is present and starts with `"Bearer "`; it is the second piece |
| AuthMiddleware.HeaderClaims | backend/middleware/auth.js:8-19 | claims exist iff the header is a bearer header whose token JWT_SECRET verifies |
| AuthMiddleware.AuthUser | backend/middleware/auth.js:3-33 | rejected: 401 "Not Authorized. Login Again", `next` not called, userId untouched; admitted: userId is the `id` claim and `next` runs |
| AuthMiddleware.AdmitsIssuedToken | backend/middleware/auth.js:16-22 | a header with a token from `createToken(id)` admits user id |
| AuthMiddleware.RejectsAccessToken | backend/middleware/auth.js:19 | an access token from the authentication controller is rejected, SECRET_KEY_ACCESS_TOKEN being a key other than JWT_SECRET |
| AuthMiddleware.AdminTokenHasNoUser | backend/middleware/auth.js:22 | the admin token is admitted but attaches no user id |
| AuthMiddleware.TrailingTextIgnored | backend/middleware/auth.js:16 | text after a second space does not affect the decision |
| AdminAuth.AdminClaims | backend/middleware/adminAuth.js:7-16 | admitted iff the common bearer checks pass, the email claim equals ADMIN_EMAIL and the role is "admin" |
| AdminAuth.AdminAuth | backend/middleware/adminAuth.js:3-24 | every refusal is status 200 with success false and leaves `req.admin`; admission sets `req.admin` to the claims |
| AdminAuth.UserTokenRejected | backend/middleware/adminAuth.js:14-16 | a user's token never opens the admin routes |
| AdminAuth.AdminTokenAdmitted | backend/middleware/adminAuth.js:14-19 | the admin token for the configured email is admitted with its claims |
| AdminAuth.OtherEmailRejected | backend/middleware/adminAuth.js:14-16 | an admin-role token for another email is refused |
| UserController.ErrorMessage | backend/controllers/user.controller.js:67 | a thrown error's message, or "Internal server error" when it is empty |
| UserController.RegisterRefusal | backend/controllers/user.controller.js:19-29 | the checks in order: missing field, invalid email, password under 8, email in use; none fails iff all pass |
| UserController.RegisterUser | backend/controllers/user.controller.js:15-70 | a refusal is 400 with no change; otherwise exactly one record with the hash and a fresh token is added, kept even if the email fails (500) |
| UserController.AcceptedRegistrationConforms | backend/controllers/user.controller.js:19-45 | a registration passing the checks always satisfies the schema and uses a new email |
| UserController.LoginUser | backend/controllers/user.controller.js:73-93 | a token for the record's id iff the email exists and a password is given and matches; "User doesn't exist", bcrypt's "data and hash arguments required" for a missing password, "Invalid credentials" otherwise; status 200 throughout |
| UserController.RegisteredUserLogsIn | backend/controllers/user.controller.js:76-89 | right after registration the same password logs in and gets a token for the new id |
| UserController.RegisteredUserRefusesOtherPassword | backend/controllers/user.controller.js:82-86 | any other password is "Invalid credentials" (collision-free digest) |
| UserController.AdminLogin | backend/controllers/user.controller.js:96-110 | success iff both fields strictly equal the configured values; the token carries the email and role admin; else 400 |
| UserController.AdminLoginOpensAdminRoutes | backend/controllers/user.controller.js:101 | the token the admin login issues passes `adminAuth` under the same configuration |
| UserController.UnsetAdminConfigAdmitsEmptyLogin | backend/controllers/user.controller.js:100 | with both admin variables unset, a body with neither field logs in as admin |
| UserController.ForgotPassword | backend/controllers/user.controller.js:113-139 | unknown email: 400, no change; else reset token and expiry (now + 1 h) set together, kept when the email fails |
| UserController.VerifyEmail | backend/controllers/user.controller.js:142-158 | no holder: 400, no change; else one holder is verified and loses the token, so the holders strictly shrink |
| AuthController.ExpiryTime | backend/controllers/authController.js:128 | a null expiry reads as the epoch |
| AuthController.IssueOtp | backend/controllers/authController.js:97-104 | OTP and expiry now + 1 h written together, nothing else |
| AuthController.ClearOtp | backend/controllers/authController.js:135-138 | OTP becomes "" and expiry null together, nothing else |
| AuthController.CheckOtp | backend/controllers/authController.js:128-132 | expired iff now is after the expiry; accepted iff not expired and the code matches |
| AuthController.OtpAcceptedWithinHour | backend/controllers/authController.js:128-132 | an issued OTP is accepted up to and including the end of its hour |
| AuthController.OtpExpiresAfterHour | backend/controllers/authController.js:128 | after the hour every code is "OTP expired" |
| AuthController.WrongCodeMismatches | backend/controllers/authController.js:131 | within the hour a wrong code is "Invalid OTP" |
| AuthController.NeverIssuedReadsExpired | backend/controllers/authController.js:128 | a record never sent an OTP reads as expired |
| AuthController.ClearedOtpReadsExpired | backend/controllers/authController.js:135-138 | a used OTP cannot be replayed: it reads as expired |
| AuthController.ForgotPasswordController | backend/controllers/authController.js:89-118 | unknown email: 400, no change; else OTP and expiry set together, kept when the email fails (500) |
| AuthController.VerifyForgotPasswordOtp | backend/controllers/authController.js:121-145 | unknown email, expired, wrong code in that order, each with no change; success clears OTP and expiry |
| AuthController.ResetPassword | backend/controllers/authController.js:148-169 | mismatch refused before lookup; success replaces only the password with the new hash, no OTP needed; no change on failure |
| AuthController.LoginUser | backend/controllers/authController.js:65-86 | unknown email and wrong password get the same 400; success gives an access token for the id and the record |
| AuthController.LoginAfterReset | backend/controllers/authController.js:155-162 | after a reset the new password logs in and the old one is refused |
| AuthController.PresentedToken | backend/controllers/authController.js:174 | a non-empty `refreshToken` cookie wins; otherwise the header's second space-separated field, with no `Bearer` test, when it exists and is non-empty; else no token |
| AuthController.RefreshToken | backend/controllers/authController.js:172-193 | no cookies: 500; no token: 401; unverifiable: 500; else an access token for the `_id` claim |
| AuthController.NoTokenIsUnauthorized | backend/controllers/authController.js:174-177 | no refresh cookie and no non-empty second header field: 401 "Invalid token" |
| AuthController.NonBearerHeaderRefreshes | backend/controllers/authController.js:174-180 | a refresh token behind any scheme word, not only `Bearer`, is presented and yields an access token for its user |
| AuthController.CookieOverridesHeader | backend/controllers/authController.js:174 | with a refresh cookie the header never changes the answer |
| AuthController.RefreshFromHeader | backend/controllers/authController.js:174-188 | a refresh token for an id, sent as a bearer header, yields an access token for that id |
| AuthController.AccessTokenDoesNotRefresh | backend/controllers/authController.js:179 | an access token presented for refresh is refused with 500, the access and refresh keys being different |
| AuthController.CreateAccount | backend/controllers/authController.js:16-35 | email taken: 400; absent password or missing name/email: 500, no change; else exactly the registered record is added |
| AuthController.RegisterUserAsWritten | backend/controllers/authController.js:11-62 | every registration with a new email answers 500 "Server error", even though the record is stored |
| AuthController.RegisterUser | backend/controllers/authController.js:11-62 | with the template imported: 201 iff the record is stored and both emails go out |
| AuthController.RegistrationAnswersServerError | backend/controllers/authController.js:48 | a concrete registration on an empty store is stored yet answered 500 |
| AuthController.RegistrationSucceedsCorrected | backend/controllers/authController.js:54-57 | the same registration, corrected, is answered 201 and stored |

## Left out

- Email delivery, axios requests, toasts, `localStorage`, React effects and navigation are I/O. Whether an email fails is an input. A client edit returns the request it would post and the toast it would show.
- Concurrency is left out: each handler runs as one atomic step on the store.
- Database failures are left out. So are the handlers' catch-all 500s for errors the model does not raise, such as `findById` on a string that is not an ObjectId. Record ids are naturals.
- JWT expiry is left out. A token records its lifetime but is not checked against the clock. Unset signing secrets and the token helper's fallback keys are left out too.
- Tokens.Verify: the three signing keys JWT_SECRET, SECRET_KEY_ACCESS_TOKEN and SECRET_KEY_REFRESH_TOKEN are assumed pairwise distinct, the token helper's fallbacks "defaultsecret" (backend/helpers/tokenHelper.js:12) and "refreshsecret" (:21) included. A deployment that sets two of them to the same value would accept a token where the model refuses it, so AuthMiddleware.RejectsAccessToken and AuthController.AccessTokenDoesNotRefresh hold only for distinct keys.
- bcrypt's 72-byte truncation is left out. The refusal of other passwords assumes a collision-free digest.
- The two bcrypt libraries (`bcrypt`, `bcryptjs`) are treated alike.
- `generatedOtp` draws from `Math.random`, so the OTP is an input.
- `validator.isEmail` is a parameter.
- Quantities and prices are JavaScript numbers. The model uses integers, with prices in cents. NaN, fractions and string quantities sent in JSON are not modelled.
- String lengths count characters, not UTF-16 code units.
- A filter with an undefined field is not modelled: `findOne({ email: undefined })` matches any record. Email, token and OTP inputs are strings, and `""` stands for an absent one.
- `user.cartData || {}` is not modelled: the schema default means every stored record has a cart.
- The schema's `timestamps`, `last_login_date` and the three reference arrays are left out. No core operation writes them.
- Shop: the shallow copies in `addToCart` and `removeFromCart` share inner size maps with the previous React state. The model gives carts value semantics, so that aliasing is not captured.
- Shop: loading the cart from the server and loading the product list are effects outside the core.
- UserController.VerifyEmail: when several records hold the same token, the model leaves open which one is verified, as `findOne` does.
- AuthController.VerifyForgotPasswordOtp: an undefined `otp` field is treated as `""`. Either way it never matches, because an OTP set to `""` always comes with a null expiry, which reads as expired.

## Findings

| source | as written | input that shows it | evidently intended | confidence | as-written member | corrected member |
|---|---|---|---|---|---|---|
| backend/controllers/authController.js:48 | builds the verification email with `verifyEmailTemplate`, a name the file never imports (it imports `emailTemplates.js`'s default as `forgotPasswordTemplate`); the ReferenceError reaches the catch block | name "Ada", email "ada@example.com", password "correct horse" on an empty store, emails succeeding: the user is stored, the answer is 500 "Server error" | send the verification email and answer 201 "Registration successful! Please verify your email." | not executed | AuthController.RegisterUserAsWritten | AuthController.RegisterUser |
| backend/controllers/cartController.js:25-26 | `cartData` is a Mixed path (`type: Object`); the handler edits the loaded object in place and assigns the same object back, which Mongoose compares with itself and does not mark modified, so `save` writes nothing | a newly registered user adds ("p", "M"): the reply shows `{ p: { M: 1 } }`, the stored cart stays `{}` | store the edited cart, for instance by calling `user.markModified("cartData")` before `save` | likely; not executed | CartController.AddToCartAsWritten | CartController.AddToCart |
| backend/controllers/cartController.js:69-70 | the same in-place edit and self-assignment in `updateCart` | the same user sets ("p", "M") to 3: the reply shows 3 units, the stored cart stays `{}` | store the new cart | likely; not executed | CartController.UpdateCartAsWritten | CartController.UpdateCart |
