/** `adminRegister`, `adminLogin` and `getActiveUsers`. */
module AdminController {
  import opened Wrappers
  import opened Bcrypt
  import opened Tables
  import opened Jwt
  import opened Auth

  /** `adminLogin`: the role-scoped login with `user_type = 'admin'`. */
  method AdminLogin(db: Db, email: string, password: string, now: nat) returns (res: Response)
    modifies db`sessions
    ensures res == LoginOutcome(old(db.users), Admin, email, password, now).response
    ensures db.sessions == old(db.sessions) + LoginOutcome(old(db.users), Admin, email, password, now).newSessions
    ensures old(db.Valid()) ==> db.Valid()
  {
    res := Login(db, Admin, email, password, now);
  }

  /**
   * `adminRegister` as written: five fields (no address), matching passwords,
   * unused email; past those checks the insert's argument list reads the
   * undeclared `address`, which throws a ReferenceError inside the `try`, so
   * the answer is always 500 and nothing is inserted.
   */
  function AdminRegisterOutcome(users: seq<User>, f: Form): (out: Outcome)
    ensures out.newUsers == [] && out.newSessions == []
    ensures out.response.status != 201 && out.response.token.None?
    ensures RegistrationRejection(users, f, false).Some? ==> out.response == RegistrationRejection(users, f, false).value
    ensures RegistrationRejection(users, f, false).None? ==> out.response == Reply(500, "Server error")
  {
    match RegistrationRejection(users, f, false)
    case Some(r) => Outcome(r, [], [])
    case None => Outcome(Reply(500, "Server error"), [], [])
  }

  /** `adminRegister`, with the bcrypt salt passed in. */
  method AdminRegister(db: Db, f: Form, salt: nat) returns (res: Response)
    ensures res == AdminRegisterOutcome(db.users, f).response
  {
    if f.name == "" || f.email == "" || f.phone == "" || f.password == "" || f.confirmPassword == "" {
      return Reply(400, "All fields are required");
    }
    if f.password != f.confirmPassword {
      return Reply(400, "Passwords do not match");
    }
    if EmailTaken(db.users, f.email) {
      return Reply(409, "Email already registered");
    }
    var hashedPassword := Hash(f.password, salt);
    // Building `[name, email, hashedPassword, phone, address]` reads an undeclared
    // variable: the ReferenceError is caught and answered with 500.
    res := Reply(500, "Server error");
  }

  /**
   * The evidently intended `adminRegister`: the same checks, then one admin row
   * (address NULL) and 201 with a token for it; like the guest handler it writes
   * no session row.
   */
  function AdminRegisterIntended(users: seq<User>, nextId: nat, f: Form, salt: nat, now: nat): (out: Outcome)
    ensures out.newSessions == []
    ensures RegistrationRejection(users, f, false).Some? ==>
      out == Outcome(RegistrationRejection(users, f, false).value, [], [])
    ensures RegistrationRejection(users, f, false).None? ==>
      |out.newUsers| == 1 && out.response.token.Some? &&
      var u := out.newUsers[0];
      && u == NewAccount(nextId, f.(address := ""), Admin, salt)
      && out.response.status == 201
      && Verify(out.response.token.value) == Some(Claims(nextId, f.email, Admin, IssuedAt(now)))
  {
    match RegistrationRejection(users, f, false)
    case Some(r) => Outcome(r, [], [])
    case None =>
      var u := NewAccount(nextId, f.(address := ""), Admin, salt);
      SignVerify(ClaimsOf(u, now));
      Outcome(Response(201, "Admin registered successfully", Some(Sign(ClaimsOf(u, now)))), [u], [])
  }

  /** A well-formed admin registration with a fresh email: 500 as written, 201 as intended. */
  lemma AdminRegisterNeverSucceeds(users: seq<User>, nextId: nat, f: Form, salt: nat, now: nat)
    requires FieldsPresent(f, false) && f.password == f.confirmPassword && !EmailTaken(users, f.email)
    ensures AdminRegisterOutcome(users, f).response == Reply(500, "Server error")
    ensures AdminRegisterIntended(users, nextId, f, salt, now).response.status == 201
  {
  }

  /** A row of `SELECT DISTINCT u.user_id, u.full_name, u.email, u.phone, u.user_type`. */
  datatype UserRow = UserRow(id: nat, fullName: string, email: string, phone: string, userType: Role)

  function RowOf(u: User): UserRow
  {
    UserRow(u.id, u.fullName, u.email, u.phone, u.userType)
  }

  predicate HasSession(sessions: seq<Session>, id: nat)
  {
    exists s :: s in sessions && s.userId == id
  }

  ghost predicate Distinct(rows: seq<UserRow>)
  {
    forall i, j :: 0 <= i < j < |rows| ==> rows[i] != rows[j]
  }

  /**
   * `getActiveUsers`: the users joined with `user_sessions`, each distinct row
   * once (in table order; the query itself fixes no order).
   */
  function ActiveUsers(users: seq<User>, sessions: seq<Session>): (rows: seq<UserRow>)
    ensures forall r :: r in rows <==> exists u :: u in users && HasSession(sessions, u.id) && RowOf(u) == r
    ensures Distinct(rows)
    decreases |users|
  {
    if users == [] then []
    else
      var last := users[|users| - 1];
      var rest := ActiveUsers(users[..|users| - 1], sessions);
      assert users == users[..|users| - 1] + [last];
      if HasSession(sessions, last.id) && RowOf(last) !in rest then rest + [RowOf(last)] else rest
  }

  /** After a successful login the account appears among the active users. */
  lemma LoginMakesActive(users: seq<User>, sessions: seq<Session>, role: Role, email: string, password: string, now: nat)
    requires LoginOutcome(users, role, email, password, now).response.status == 200
    ensures exists u ::
              && u in users && u.email == email && u.userType == role
              && RowOf(u) in ActiveUsers(users, sessions + LoginOutcome(users, role, email, password, now).newSessions)
  {
  }
}
