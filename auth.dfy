/**
 * What the three role controllers share: the response shape, the role-scoped
 * login (identical in guestLogin, ownerLogin and adminLogin apart from the role)
 * and the validation every registration handler runs before it inserts.
 */
module Auth {
  import opened Wrappers
  import opened Bcrypt
  import opened Tables
  import opened Jwt

  /** An HTTP response: status code, the `message` field and the `token` field when there is one. */
  datatype Response = Response(status: int, message: string, token: Option<string>)

  /** What one handler call does: its response and the rows it appends to each table. */
  datatype Outcome = Outcome(response: Response, newUsers: seq<User>, newSessions: seq<Session>)

  function Reply(status: int, message: string): Response
  {
    Response(status, message, None)
  }

  /** The one message for an unknown email and for a wrong password. */
  const InvalidCredentials: string := "Invalid email or password"

  /** The `iat` claim `jwt.sign` adds: the current time in whole seconds, rounded down. */
  function IssuedAt(now: nat): (iat: nat)
    ensures iat * 1000 <= now < iat * 1000 + 1000
  {
    now / 1000
  }

  /**
   * The claims signed for a user row: `{ userId: user_id, email, userType: user_type }`
   * and the second of issue; a token signed with them verifies back to the row's
   * id, email and role.
   */
  function ClaimsOf(u: User, now: nat): (c: Claims)
    ensures Verify(Sign(c)) == Some(c)
    ensures c.userId == u.id && c.email == u.email && c.userType == u.userType
    ensures c.iat * 1000 <= now < c.iat * 1000 + 1000
  {
    var c := Claims(u.id, u.email, u.userType, IssuedAt(now));
    SignVerify(c);
    c
  }

  /** Some account of role `role` has this email and accepts this password. */
  ghost predicate CanLogIn(users: seq<User>, role: Role, email: string, password: string)
  {
    exists u :: u in users && u.email == email && u.userType == role && Compare(password, u.passwordHash)
  }

  /**
   * The login handler for `role` on the users table at time `now` (milliseconds):
   * fields present, else 400; a row of that role with that email, else 401; the
   * password matches its digest, else the same 401; then one session row holding
   * the signed token, and 200 with that token.
   */
  function LoginOutcome(users: seq<User>, role: Role, email: string, password: string, now: nat): (out: Outcome)
    ensures out.newUsers == []
    ensures out.response.status in {200, 400, 401}
    ensures out.response.status == 400 <==> email == "" || password == ""
    ensures out.response.status == 400 ==> out.response == Reply(400, "Email and password are required")
    ensures out.response.status == 401 ==> out.response == Reply(401, InvalidCredentials)
    ensures out.response.status != 200 <==> out.newSessions == []
    ensures out.response.status == 200 ==>
      exists u :: u in users && u.email == email && u.userType == role && Compare(password, u.passwordHash) &&
        out.response == Response(200, "Login successful", Some(Sign(ClaimsOf(u, now)))) &&
        out.newSessions == [Session(u.id, Sign(ClaimsOf(u, now)))]
    ensures UniqueEmails(users) ==> (out.response.status == 200 <==> email != "" && password != "" && CanLogIn(users, role, email, password))
  {
    if email == "" || password == "" then
      Outcome(Reply(400, "Email and password are required"), [], [])
    else
      var rows := SelectByEmailAndRole(users, email, role);
      if |rows| == 0 then
        Outcome(Reply(401, InvalidCredentials), [], [])
      else
        var user := rows[0];
        assert user in rows;
        if !Compare(password, user.passwordHash) then
          Outcome(Reply(401, InvalidCredentials), [], [])
        else
          var token := Sign(ClaimsOf(user, now));
          Outcome(Response(200, "Login successful", Some(token)), [], [Session(user.id, token)])
  }

  /** `guestLogin`, `ownerLogin` and `adminLogin`: the same steps, with `user_type = <role>` in the query. */
  method Login(db: Db, role: Role, email: string, password: string, now: nat) returns (res: Response)
    modifies db`sessions
    ensures res == LoginOutcome(old(db.users), role, email, password, now).response
    ensures db.sessions == old(db.sessions) + LoginOutcome(old(db.users), role, email, password, now).newSessions
    ensures old(db.Valid()) ==> db.Valid()
  {
    if email == "" || password == "" {
      return Reply(400, "Email and password are required");
    }
    var rows := SelectByEmailAndRole(db.users, email, role);
    if |rows| == 0 {
      return Reply(401, InvalidCredentials);
    }
    var user := rows[0];
    var isPasswordValid := Compare(password, user.passwordHash);
    if !isPasswordValid {
      return Reply(401, InvalidCredentials);
    }
    var token := Sign(Claims(user.id, user.email, user.userType, now / 1000));
    ghost var before := db.sessions;
    db.sessions := db.sessions + [Session(user.id, token)];
    if old(db.Valid()) {
      LoginKeepsTablesValid(db.users, before, db.nextUserId, role, email, password, now);
    }
    res := Response(200, "Login successful", Some(token));
  }

  /** A login's session row names an existing account, so logging in keeps the tables valid. */
  lemma LoginKeepsTablesValid(users: seq<User>, sessions: seq<Session>, nextId: nat, role: Role, email: string, password: string, now: nat)
    requires TablesValid(users, sessions, nextId)
    ensures TablesValid(users, sessions + LoginOutcome(users, role, email, password, now).newSessions, nextId)
  {
  }

  /** The token a successful login returns verifies to the matched row's id, email and role. */
  lemma LoginTokenCarriesRow(users: seq<User>, role: Role, email: string, password: string, now: nat)
    requires LoginOutcome(users, role, email, password, now).response.status == 200
    ensures var tok := LoginOutcome(users, role, email, password, now).response.token;
      tok.Some? &&
      exists u :: u in users && u.email == email && u.userType == role &&
        Verify(tok.value) == Some(Claims(u.id, u.email, role, IssuedAt(now)))
  {
    var out := LoginOutcome(users, role, email, password, now);
    var u :| u in users && u.email == email && u.userType == role &&
      out.response == Response(200, "Login successful", Some(Sign(ClaimsOf(u, now))));
    SignVerify(ClaimsOf(u, now));
  }

  /** An email registered only under other roles cannot log in under this one. */
  lemma LoginScopedByRole(users: seq<User>, role: Role, email: string, password: string, now: nat)
    requires email != "" && password != ""
    requires forall u :: u in users && u.email == email ==> u.userType != role
    ensures LoginOutcome(users, role, email, password, now).response == Reply(401, InvalidCredentials)
  {
  }

  /** A wrong password and an unknown email get the very same response. */
  lemma WrongPasswordLooksUnknown(users: seq<User>, role: Role, known: string, unknown: string, password: string, now: nat)
    requires known != "" && unknown != "" && password != ""
    requires forall u :: u in users ==> u.email != unknown
    requires !CanLogIn(users, role, known, password)
    ensures LoginOutcome(users, role, known, password, now).response == LoginOutcome(users, role, unknown, password, now).response
  {
  }

  /** The registration form; `address` is "" for the admin form, which has no such field. */
  datatype Form = Form(name: string, email: string, phone: string, address: string, password: string, confirmPassword: string)

  /** The fields a role's form requires: the address only when the form has one. */
  function RequiredFields(f: Form, withAddress: bool): seq<string>
  {
    [f.name, f.email, f.phone] + (if withAddress then [f.address] else []) + [f.password, f.confirmPassword]
  }

  /**
   * `!name || !email || ...`: no required field is missing. Login's two fields are
   * among them, and the address is checked only when the form has it.
   */
  predicate FieldsPresent(f: Form, withAddress: bool): (present: bool)
    ensures present <==> "" !in RequiredFields(f, withAddress)
    ensures present ==> f.email != "" && f.password != ""
  {
    f.name != "" && f.email != "" && f.phone != "" && (withAddress ==> f.address != "") &&
    f.password != "" && f.confirmPassword != ""
  }

  /**
   * The checks each registration handler runs before it inserts, in order: all
   * fields (400), matching passwords (400), email unused under every role (409).
   * None when all pass.
   */
  function RegistrationRejection(users: seq<User>, f: Form, withAddress: bool): (r: Option<Response>)
    ensures r.None? <==> FieldsPresent(f, withAddress) && f.password == f.confirmPassword && !EmailTaken(users, f.email)
    ensures !FieldsPresent(f, withAddress) ==> r == Some(Reply(400, "All fields are required"))
    ensures FieldsPresent(f, withAddress) && f.password != f.confirmPassword ==> r == Some(Reply(400, "Passwords do not match"))
    ensures FieldsPresent(f, withAddress) && f.password == f.confirmPassword && EmailTaken(users, f.email) ==>
      r == Some(Reply(409, "Email already registered"))
  {
    if !FieldsPresent(f, withAddress) then Some(Reply(400, "All fields are required"))
    else if f.password != f.confirmPassword then Some(Reply(400, "Passwords do not match"))
    else if EmailTaken(users, f.email) then Some(Reply(409, "Email already registered"))
    else None
  }

  /** The duplicate check ignores roles: an email used under any role blocks every registration. */
  lemma DuplicateAcrossRoles(users: seq<User>, f: Form, withAddress: bool, existing: User)
    requires existing in users && existing.email == f.email
    requires FieldsPresent(f, withAddress) && f.password == f.confirmPassword
    ensures RegistrationRejection(users, f, withAddress) == Some(Reply(409, "Email already registered"))
  {
  }

  /** The row a registration inserts: the next serial id, the form's fields, the password's digest, unverified. */
  function NewAccount(id: nat, f: Form, role: Role, salt: nat): (u: User)
    ensures u.id == id && u.email == f.email && u.userType == role && !u.emailVerified
    ensures u.fullName == f.name && u.phone == f.phone && u.address == f.address
    ensures forall attempt :: Compare(attempt, u.passwordHash) <==> attempt == f.password
  {
    User(id, f.name, f.email, Hash(f.password, salt), f.phone, f.address, role, false)
  }
}
