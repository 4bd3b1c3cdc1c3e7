/** `ownerLogin` and `ownerRegister`. */
module OwnerController {
  import opened Wrappers
  import opened Bcrypt
  import opened Tables
  import opened Jwt
  import opened Auth

  /** `ownerLogin`: the role-scoped login with `user_type = 'owner'`. */
  method OwnerLogin(db: Db, email: string, password: string, now: nat) returns (res: Response)
    modifies db`sessions
    ensures res == LoginOutcome(old(db.users), Owner, email, password, now).response
    ensures db.sessions == old(db.sessions) + LoginOutcome(old(db.users), Owner, email, password, now).newSessions
    ensures old(db.Valid()) ==> db.Valid()
  {
    res := Login(db, Owner, email, password, now);
  }

  /**
   * `ownerRegister`: the same checks as the guest form, then one owner row and,
   * unlike the guest handler, a session row for the new account's token.
   */
  function OwnerRegisterOutcome(users: seq<User>, nextId: nat, f: Form, salt: nat, now: nat): (out: Outcome)
    ensures RegistrationRejection(users, f, true).Some? ==>
      out == Outcome(RegistrationRejection(users, f, true).value, [], [])
    ensures RegistrationRejection(users, f, true).None? ==>
      |out.newUsers| == 1 && out.response.token.Some? &&
      var u := out.newUsers[0];
      var token := out.response.token.value;
      && u == NewAccount(nextId, f, Owner, salt)
      && out.response.status == 201
      && out.newSessions == [Session(nextId, token)]
      && Verify(token) == Some(Claims(nextId, f.email, Owner, IssuedAt(now)))
  {
    match RegistrationRejection(users, f, true)
    case Some(r) => Outcome(r, [], [])
    case None =>
      var u := NewAccount(nextId, f, Owner, salt);
      var token := Sign(ClaimsOf(u, now));
      SignVerify(ClaimsOf(u, now));
      Outcome(Response(201, "Registration successful", Some(token)), [u], [Session(u.id, token)])
  }

  /**
   * Once an owner registration succeeds, its email is taken: any complete,
   * consistent form with that email is refused with 409 by every role's
   * registration checks.
   */
  lemma OwnerRegisterThenDuplicate(users: seq<User>, nextId: nat, f: Form, salt: nat, now: nat, g: Form, withAddress: bool)
    requires OwnerRegisterOutcome(users, nextId, f, salt, now).response.status == 201
    requires g.email == f.email && FieldsPresent(g, withAddress) && g.password == g.confirmPassword
    ensures RegistrationRejection(users + OwnerRegisterOutcome(users, nextId, f, salt, now).newUsers, g, withAddress) ==
      Some(Reply(409, "Email already registered"))
  {
    var added := OwnerRegisterOutcome(users, nextId, f, salt, now).newUsers;
    assert added[0] in users + added;
  }

  /** `ownerRegister`, with the bcrypt salt and the current time passed in. */
  method OwnerRegister(db: Db, f: Form, salt: nat, now: nat) returns (res: Response)
    modifies db
    ensures res == OwnerRegisterOutcome(old(db.users), old(db.nextUserId), f, salt, now).response
    ensures db.users == old(db.users) + OwnerRegisterOutcome(old(db.users), old(db.nextUserId), f, salt, now).newUsers
    ensures db.sessions == old(db.sessions) + OwnerRegisterOutcome(old(db.users), old(db.nextUserId), f, salt, now).newSessions
    ensures db.nextUserId == old(db.nextUserId) + |db.users| - |old(db.users)|
    ensures old(db.Valid()) ==> db.Valid()
  {
    if f.name == "" || f.email == "" || f.phone == "" || f.address == "" || f.password == "" || f.confirmPassword == "" {
      return Reply(400, "All fields are required");
    }
    if f.password != f.confirmPassword {
      return Reply(400, "Passwords do not match");
    }
    if EmailTaken(db.users, f.email) {
      return Reply(409, "Email already registered");
    }
    var hashedPassword := Hash(f.password, salt);
    var newUser := User(db.nextUserId, f.name, f.email, hashedPassword, f.phone, f.address, Owner, false);
    var token := Sign(Claims(newUser.id, newUser.email, newUser.userType, now / 1000));
    if db.Valid() {
      InsertKeepsTablesValid(db.users, db.sessions, db.nextUserId, newUser, token);
    }
    db.users := db.users + [newUser];
    db.nextUserId := db.nextUserId + 1;
    db.sessions := db.sessions + [Session(newUser.id, token)];
    res := Response(201, "Registration successful", Some(token));
  }
}
