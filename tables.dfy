/**
 * The two database tables the authentication handlers touch: `users`, one row per
 * account with its role tag, and the append-only `user_sessions` log of issued tokens.
 */
module Tables {
  import opened Bcrypt

  /** The `user_type` column. */
  datatype Role = Guest | Owner | Admin

  /** A row of `users`; `address` is "" where the column is NULL. */
  datatype User = User(
    id: nat,
    fullName: string,
    email: string,
    passwordHash: Digest,
    phone: string,
    address: string,
    userType: Role,
    emailVerified: bool)

  /** A row of `user_sessions`. */
  datatype Session = Session(userId: nat, token: string)

  /** No two accounts share an email, whatever their roles. */
  ghost predicate UniqueEmails(users: seq<User>)
  {
    forall i, j :: 0 <= i < j < |users| ==> users[i].email != users[j].email
  }

  /** The serial `user_id` column: ids grow in insertion order and stay below the next one to hand out. */
  ghost predicate SerialIds(users: seq<User>, nextId: nat)
  {
    (forall i, j :: 0 <= i < j < |users| ==> users[i].id < users[j].id) &&
    (forall i :: 0 <= i < |users| ==> users[i].id < nextId)
  }

  predicate HasUser(users: seq<User>, id: nat)
  {
    exists u :: u in users && u.id == id
  }

  /** Every session row names an existing account. */
  ghost predicate SessionsOfUsers(users: seq<User>, sessions: seq<Session>)
  {
    forall s :: s in sessions ==> HasUser(users, s.userId)
  }

  /**
   * `SELECT * FROM users WHERE email = $1 AND user_type = <role>`: the matching
   * rows, in table order.
   */
  function SelectByEmailAndRole(users: seq<User>, email: string, role: Role): (rows: seq<User>)
    ensures forall u :: u in rows <==> u in users && u.email == email && u.userType == role
    ensures |rows| <= |users|
  {
    if users == [] then []
    else
      var rest := SelectByEmailAndRole(users[1..], email, role);
      if users[0].email == email && users[0].userType == role then [users[0]] + rest else rest
  }

  /**
   * `SELECT user_id FROM users WHERE email = $1` returns a row: the email is used
   * under some role, so the role-free query finds a row exactly when one of the
   * three role-scoped lookups does.
   */
  predicate EmailTaken(users: seq<User>, email: string): (taken: bool)
    ensures taken <==>
      SelectByEmailAndRole(users, email, Guest) != [] ||
      SelectByEmailAndRole(users, email, Owner) != [] ||
      SelectByEmailAndRole(users, email, Admin) != []
  {
    RoleScopedCover(users, email);
    exists u :: u in users && u.email == email
  }

  /** Every row carries one of the three roles, so some role-scoped lookup finds it. */
  lemma RoleScopedCover(users: seq<User>, email: string)
    ensures (exists u :: u in users && u.email == email) <==>
      SelectByEmailAndRole(users, email, Guest) != [] ||
      SelectByEmailAndRole(users, email, Owner) != [] ||
      SelectByEmailAndRole(users, email, Admin) != []
  {
    if u :| u in users && u.email == email {
      assert u in SelectByEmailAndRole(users, email, u.userType);
    }
    forall role | SelectByEmailAndRole(users, email, role) != []
      ensures exists u :: u in users && u.email == email
    {
      assert SelectByEmailAndRole(users, email, role)[0] in SelectByEmailAndRole(users, email, role);
    }
  }

  /** An email nobody uses selects no rows. */
  lemma {:induction false} SelectNone(users: seq<User>, email: string, role: Role)
    requires forall u :: u in users ==> u.email != email
    ensures SelectByEmailAndRole(users, email, role) == []
  {
    if users != [] {
      SelectNone(users[1..], email, role);
    }
  }

  /** With unique emails, the role-scoped lookup finds at most one row. */
  lemma {:induction false} SelectAtMostOne(users: seq<User>, email: string, role: Role)
    requires UniqueEmails(users)
    ensures |SelectByEmailAndRole(users, email, role)| <= 1
  {
    if users != [] {
      SelectAtMostOne(users[1..], email, role);
      if users[0].email == email {
        forall u | u in users[1..] ensures u.email != email {
          var k :| 0 <= k < |users[1..]| && users[1..][k] == u;
          assert users[k + 1] == u;
        }
        SelectNone(users[1..], email, role);
      }
    }
  }

  /** The tables' invariant, on values: unique emails, serial ids, sessions of existing users. */
  ghost predicate TablesValid(users: seq<User>, sessions: seq<Session>, nextId: nat)
  {
    UniqueEmails(users) && SerialIds(users, nextId) && SessionsOfUsers(users, sessions)
  }

  /** Appending a user whose email is unused, under the next serial id, keeps the tables valid, with or without a session row for it. */
  lemma InsertKeepsTablesValid(users: seq<User>, sessions: seq<Session>, nextId: nat, u: User, token: string)
    requires TablesValid(users, sessions, nextId)
    requires !EmailTaken(users, u.email) && u.id == nextId
    ensures TablesValid(users + [u], sessions, nextId + 1)
    ensures TablesValid(users + [u], sessions + [Session(u.id, token)], nextId + 1)
  {
  }

  /** The `users` and `user_sessions` tables, updated in place by the handlers. */
  class Db {
    var users: seq<User>
    var sessions: seq<Session>
    var nextUserId: nat

    ghost predicate Valid()
      reads this
    {
      TablesValid(users, sessions, nextUserId)
    }

    constructor ()
      ensures Valid()
      ensures users == [] && sessions == [] && nextUserId == 1
    {
      users := [];
      sessions := [];
      nextUserId := 1;
    }
  }
}
