/**
 * The user collection: one record per account, as the Mongoose schema
 * declares it, and the store the controllers read and write.
 *
 * The store is keyed by email, which makes the schema's unique index on
 * `email` hold by construction. Record ids stand for MongoDB's ObjectIds:
 * the store hands them out from a counter, so a new record never reuses
 * one. Times are milliseconds since the epoch; `None` is a null or absent
 * date.
 */
module UserModel {
  import opened Wrappers
  import opened Tokens
  import opened CartMap

  /** The schema's `status` enum. */
  datatype AccountStatus = Active | Inactive | Suspended

  datatype User = User(
    id: UserId,
    name: string,
    email: string,
    password: string,
    cartData: Cart,
    isVerified: bool,
    verificationToken: Option<string>,
    resetPasswordToken: Option<string>,
    resetPasswordExpire: Option<int>,
    forgotPasswordOtp: Option<string>,
    forgotPasswordExpiry: Option<int>,
    lastLoginDate: Option<int>,
    status: AccountStatus)

  /** The schema's `required` fields: Mongoose refuses a missing or empty string for each. */
  predicate Conforms(u: User) {
    u.name != "" && u.email != "" && u.password != ""
  }

  /**
   * A record built from the three required fields, every other field at
   * the schema's default: an empty cart (kept, not dropped, since the
   * schema sets `minimize: false`), unverified, no token, OTP or reset
   * request pending, and `Active`.
   */
  function NewRecord(id: UserId, name: string, email: string, password: string): (u: User)
    ensures u.id == id && u.name == name && u.email == email && u.password == password
    ensures u.cartData == map[] && !u.isVerified && u.status == Active
    ensures u.verificationToken.None? && u.resetPasswordToken.None? && u.resetPasswordExpire.None?
    ensures u.forgotPasswordOtp.None? && u.forgotPasswordExpiry.None? && u.lastLoginDate.None?
    ensures Conforms(u) <==> name != "" && email != "" && password != ""
  {
    User(id, name, email, password, map[], false, None, None, None, None, None, None, Active)
  }

  /**
   * The record both registration handlers save: the three required fields,
   * `isVerified: false` and the emailed verification token, the rest at
   * the schema's defaults.
   */
  function Registration(id: UserId, name: string, email: string, passwordHash: string, token: string): (u: User)
    ensures u.verificationToken == Some(token) && !u.isVerified && u.password == passwordHash
    ensures u.cartData == map[] && u.forgotPasswordExpiry.None? && u.resetPasswordToken.None?
  {
    NewRecord(id, name, email, passwordHash).(verificationToken := Some(token))
  }

  class UserStore {
    var users: map<string, User>
    var nextId: UserId

    ghost predicate Valid()
      reads this
    {
      && (forall e :: e in users ==> users[e].email == e && Conforms(users[e]) && users[e].id < nextId)
      && (forall e1, e2 :: e1 in users && e2 in users && users[e1].id == users[e2].id ==> e1 == e2)
    }

    constructor ()
      ensures Valid() && users == map[] && nextId == 0
    {
      users := map[];
      nextId := 0;
    }

    /** The email of the record whose id is `id`, if any (`findById`). */
    ghost function OwnerOf(id: Option<UserId>): (r: Option<string>)
      reads this
      requires Valid()
      ensures r.None? <==> id.None? || forall e :: e in users ==> users[e].id != id.value
      ensures r.Some? ==> r.value in users && Some(users[r.value].id) == id
    {
      if id.Some? && exists e :: e in users && users[e].id == id.value then
        Some(var e :| e in users && users[e].id == id.value; e)
      else None
    }

    /** `findById(id)`; `findById(undefined)` finds nothing. */
    method FindById(id: Option<UserId>) returns (email: Option<string>)
      requires Valid()
      ensures email == OwnerOf(id)
    {
      email := None;
      if id.Some? {
        if e :| e in users && users[e].id == id.value {
          email := Some(e);
        }
      }
    }

    /**
     * `new userModel(fields).save()`: the record gets a fresh id; schema
     * validation (a required field empty) or the unique index (email taken)
     * makes the save fail and nothing is stored.
     */
    method Create(u: User) returns (saved: Option<User>)
      requires Valid()
      modifies this
      ensures Valid()
      ensures saved.Some? <==> Conforms(u) && u.email !in old(users)
      ensures saved.Some? ==> saved.value == u.(id := old(nextId))
      ensures saved.Some? ==> users == old(users)[u.email := saved.value] && nextId == old(nextId) + 1
      ensures saved.None? ==> users == old(users) && nextId == old(nextId)
    {
      if !Conforms(u) || u.email in users {
        return None;
      }
      var record := u.(id := nextId);
      users := users[u.email := record];
      nextId := nextId + 1;
      saved := Some(record);
    }

    /**
     * `user.save()` / `findByIdAndUpdate` on an existing record: its fields
     * other than id and email are replaced.
     */
    method Replace(email: string, u: User)
      requires Valid() && email in users
      requires u.id == users[email].id && u.email == email && Conforms(u)
      modifies this
      ensures Valid()
      ensures users == old(users)[email := u] && nextId == old(nextId)
    {
      users := users[email := u];
    }
  }
}
