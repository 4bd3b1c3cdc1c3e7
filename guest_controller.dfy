/** `guestLogin` and `guestRegister`. */
module GuestController {
  import opened Wrappers
  import opened Bcrypt
  import opened Tables
  import opened Jwt
  import opened Auth

  /** `guestLogin`: the role-scoped login with `user_type = 'guest'`. */
  method GuestLogin(db: Db, email: string, password: string, now: nat) returns (res: Response)
    modifies db`sessions
    ensures res == LoginOutcome(old(db.users), Guest, email, password, now).response
    ensures db.sessions == old(db.sessions) + LoginOutcome(old(db.users), Guest, email, password, now).newSessions
    ensures old(db.Valid()) ==> db.Valid()
  {
    res := Login(db, Guest, email, password, now);
  }

  /**
   * `guestRegister`: the three checks, then one guest row holding the password's
   * digest, and 201 with a token for it. No session row is written.
   */
  function GuestRegisterOutcome(users: seq<User>, nextId: nat, f: Form, salt: nat, now: nat): (out: Outcome)
    ensures out.newSessions == []
    ensures RegistrationRejection(users, f, true).Some? ==>
      out.response == RegistrationRejection(users, f, true).value && out.newUsers == []
    ensures RegistrationRejection(users, f, true).None? ==>
      |out.newUsers| == 1 &&
      var u := out.newUsers[0];
      && u == NewAccount(nextId, f, Guest, salt)
      && out.response.status == 201 && out.response.token.Some?
      && Verify(out.response.token.value) == Some(Claims(nextId, f.email, Guest, IssuedAt(now)))
  {
    match RegistrationRejection(users, f, true)
    case Some(r) => Outcome(r, [], [])
    case None =>
      var u := NewAccount(nextId, f, Guest, salt);
      SignVerify(ClaimsOf(u, now));
      Outcome(Response(201, "Registration successful", Some(Sign(ClaimsOf(u, now)))), [u], [])
  }

  /**
   * Once a guest registration succeeds, its email is taken: any complete,
   * consistent form with that email is refused with 409 by every role's
   * registration checks.
   */
  lemma GuestRegisterThenDuplicate(users: seq<User>, nextId: nat, f: Form, salt: nat, now: nat, g: Form, withAddress: bool)
    requires GuestRegisterOutcome(users, nextId, f, salt, now).response.status == 201
    requires g.email == f.email && FieldsPresent(g, withAddress) && g.password == g.confirmPassword
    ensures RegistrationRejection(users + GuestRegisterOutcome(users, nextId, f, salt, now).newUsers, g, withAddress) ==
      Some(Reply(409, "Email already registered"))
  {
    var added := GuestRegisterOutcome(users, nextId, f, salt, now).newUsers;
    assert added[0] in users + added;
  }

  /** `guestRegister`, with the bcrypt salt and the current time passed in. */
  method GuestRegister(db: Db, f: Form, salt: nat, now: nat) returns (res: Response)
    modifies db`users, db`nextUserId
    ensures res == GuestRegisterOutcome(old(db.users), old(db.nextUserId), f, salt, now).response
    ensures db.users == old(db.users) + GuestRegisterOutcome(old(db.users), old(db.nextUserId), f, salt, now).newUsers
    ensures db.nextUserId == old(db.nextUserId) + |db.users| - |old(db.users)|
    ensures old(db.Valid()) ==> db.Valid()
  {
    if f.name == "" || f.email == "" || f.phone == "" || f.address == "" || f.password == "" || f.confirmPassword == "" {
      return Reply(400, "All fields are required");
    }
    if f.password != f.confirmPassword {
      return Reply(400, "Passwords do not match");
    }
    if EmailTaken(db.users, f.email) {
      return Reply(409, "Email already registered");
    }
    var hashedPassword := Hash(f.password, salt);
    var newUser := User(db.nextUserId, f.name, f.email, hashedPassword, f.phone, f.address, Guest, false);
    if db.Valid() {
      InsertKeepsTablesValid(db.users, db.sessions, db.nextUserId, newUser, "");
    }
    db.users := db.users + [newUser];
    db.nextUserId := db.nextUserId + 1;
    var token := Sign(Claims(newUser.id, newUser.email, newUser.userType, now / 1000));
    res := Response(201, "Registration successful", Some(token));
  }
}
