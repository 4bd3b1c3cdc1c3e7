/** `sendEmailVerification` and `verifyEmailCode`. */
module OtpController {
  import opened Wrappers
  import opened Text
  import opened Tables
  import opened Jwt
  import opened OtpStore
  import opened Auth

  /**
   * `authHeader?.split(' ')[1]`, then `!token`: the second space-separated word
   * of the `Authorization` header, when there is one and it is not empty. The
   * first word (the scheme) is not looked at.
   */
  function BearerToken(header: Option<string>): (token: Option<string>)
    ensures header.None? ==> token.None?
    ensures token.Some? ==> token.value != "" && ' ' !in token.value
  {
    match header
    case None => None
    case Some(h) =>
      var parts := Split(h, ' ');
      if |parts| < 2 || parts[1] == "" then None else Some(parts[1])
  }

  /** `h` is a space-free scheme, one space, `token`, and then nothing or a space. */
  predicate HeaderShape(h: string, scheme: string, token: string, rest: string)
  {
    ' ' !in scheme && h == scheme + " " + token + rest && (rest == "" || rest[0] == ' ')
  }

  /**
   * A header `<scheme> <token>`, possibly followed by further space-separated
   * words, yields the token, whatever single word the scheme is.
   */
  lemma SchemeThenToken(h: string, scheme: string, token: string, rest: string)
    requires HeaderShape(h, scheme, token, rest) && ' ' !in token && token != ""
    ensures BearerToken(Some(h)) == Some(token)
  {
    var words: seq<string>;
    if rest == "" {
      words := [scheme, token];
      assert Join(words, ' ') == h;
    } else {
      var tail := Split(rest[1..], ' ');
      JoinSplit(rest[1..], ' ');
      words := [scheme, token] + tail;
      JoinSchemeToken(scheme, token, tail);
      assert [' '] + rest[1..] == rest;
      assert Join(words, ' ') == h;
    }
    SplitJoin(words, ' ');
  }

  /** Joining `[scheme, token] + tail` puts one space after each of the first two words. */
  lemma {:induction false} JoinSchemeToken(scheme: string, token: string, tail: seq<string>)
    requires |tail| >= 1
    ensures Join([scheme, token] + tail, ' ') == scheme + " " + token + " " + Join(tail, ' ')
  {
    assert ([scheme, token] + tail)[1..] == [token] + tail;
    assert ([token] + tail)[1..] == tail;
  }

  /** Conversely, a token found in a header is its second word. */
  lemma TokenIsSecondWord(h: string, token: string)
    requires BearerToken(Some(h)) == Some(token)
    ensures exists scheme, rest :: HeaderShape(h, scheme, token, rest)
  {
    var scheme, rest := SecondWordPieces(h, token);
  }

  /** The scheme and the remainder around a header's token, read off its split. */
  lemma SecondWordPieces(h: string, token: string) returns (scheme: string, rest: string)
    requires BearerToken(Some(h)) == Some(token)
    ensures HeaderShape(h, scheme, token, rest)
  {
    var parts := Split(h, ' ');
    JoinSplit(h, ' ');
    scheme := parts[0];
    assert parts[1] == token;
    assert h == scheme + [' '] + Join(parts[1..], ' ');
    if |parts| == 2 {
      rest := "";
      assert Join(parts[1..], ' ') == token;
    } else {
      rest := [' '] + Join(parts[2..], ' ');
      assert parts[1..][1..] == parts[2..];
      assert Join(parts[1..], ' ') == token + rest;
    }
  }

  /** A header without a space yields no token. */
  lemma NoSpaceNoToken(h: string)
    requires ' ' !in h
    ensures BearerToken(Some(h)) == None
  {
    SplitJoin([h], ' ');
  }

  /** A double space leaves an empty second word, which counts as no token. */
  lemma DoubleSpaceNoToken(scheme: string, rest: string)
    requires ' ' !in scheme
    ensures BearerToken(Some(scheme + "  " + rest)) == None
  {
    var h := scheme + "  " + rest;
    var tail := Split(rest, ' ');
    JoinSplit(rest, ' ');
    SplitJoin([scheme, ""] + tail, ' ');
    assert Join([scheme, ""] + tail, ' ') == h by {
      assert Join([""] + tail, ' ') == [' '] + Join(tail, ' ');
    }
  }

  /** The verification email `emailjs.send` is asked to deliver. */
  datatype Mail = Mail(to: string, code: string)

  /** What `sendEmailVerification` does: its response, the code map afterwards and the email it sent, if any. */
  datatype SendResult = SendResult(response: Response, entries: map<nat, Entry>, mail: Option<Mail>)

  /**
   * `sendEmailVerification` on the code map `entries` at time `now`, with the
   * random draw for the code and whether the email service accepted the message.
   */
  function SendOutcome(entries: map<nat, Entry>, header: Option<string>, draw: real, now: nat, delivered: bool): (out: SendResult)
    requires 0.0 <= draw < 1.0
    ensures BearerToken(header).None? ==> out == SendResult(Reply(401, "Unauthorized"), entries, None)
    ensures out.mail.Some? <==> BearerToken(header).Some? && Verify(BearerToken(header).value).Some?
    ensures out.mail.None? ==> out.entries == entries && out.response.status in {401, 500}
    ensures BearerToken(header).Some? && Verify(BearerToken(header).value).None? ==>
      out == SendResult(Reply(500, "Failed to send code."), entries, None)
    ensures out.mail.Some? ==>
      out.response == (if delivered then Reply(200, "Verification code sent.") else Reply(500, "Failed to send code."))
    ensures out.mail.Some? ==>
      var claims := Verify(BearerToken(header).value).value;
      && out.mail == Some(Mail(claims.email, CodeFromDraw(draw)))
      && out.entries == WithCode(entries, claims.userId, CodeFromDraw(draw), now)
    ensures out.response.status == 200 <==> out.mail.Some? && delivered
    ensures out.response.status != 200 ==> out.response.status in {401, 500}
  {
    match BearerToken(header)
    case None => SendResult(Reply(401, "Unauthorized"), entries, None)
    case Some(token) =>
      match Verify(token)
      case None => SendResult(Reply(500, "Failed to send code."), entries, None)
      case Some(claims) =>
        var code := CodeFromDraw(draw);
        var stored := WithCode(entries, claims.userId, code, now);
        if delivered then SendResult(Reply(200, "Verification code sent."), stored, Some(Mail(claims.email, code)))
        else SendResult(Reply(500, "Failed to send code."), stored, Some(Mail(claims.email, code)))
  }

  /** `sendEmailVerification`, with `Math.random()`, `Date.now()` and the email service's verdict passed in. */
  method SendEmailVerification(store: Store, header: Option<string>, draw: real, now: nat, delivered: bool)
    returns (res: Response, mail: Option<Mail>)
    requires 0.0 <= draw < 1.0
    modifies store
    ensures var out := SendOutcome(old(store.entries), header, draw, now, delivered);
      res == out.response && mail == out.mail && store.entries == out.entries
  {
    var token := BearerToken(header);
    if token.None? {
      return Reply(401, "Unauthorized"), None;
    }
    var decoded := Verify(token.value);
    if decoded.None? {
      // jwt.verify throws inside the try block.
      return Reply(500, "Failed to send code."), None;
    }
    var userId := decoded.value.userId;
    var userEmail := decoded.value.email;
    var code := Decimal((100000.0 + draw * 900000.0).Floor);
    store.SetCode(userId, code, now);
    mail := Some(Mail(userEmail, code));
    if !delivered {
      // emailjs.send rejects: the code stays stored.
      return Reply(500, "Failed to send code."), mail;
    }
    res := Reply(200, "Verification code sent.");
  }

  /** `UPDATE users SET email_verify = 'yes' WHERE user_id = $1`. */
  function MarkVerified(users: seq<User>, id: nat): (users': seq<User>)
    ensures |users'| == |users|
    ensures forall i :: 0 <= i < |users| ==>
      users'[i].(emailVerified := users[i].emailVerified) == users[i] &&
      users'[i].emailVerified == (users[i].emailVerified || users[i].id == id)
  {
    seq(|users|, i requires 0 <= i < |users| =>
      if users[i].id == id then users[i].(emailVerified := true) else users[i])
  }

  /** What `verifyEmailCode` does: its response, the code map and the users table afterwards. */
  datatype VerifyResult = VerifyResult(response: Response, entries: map<nat, Entry>, users: seq<User>)

  /**
   * `verifyEmailCode`: token present (401), token genuine (a throw, so 500), code
   * present (400), code valid for the token's user (400); then the code is
   * consumed, that user's `email_verify` is set and the answer is 200.
   */
  function VerifyOutcome(entries: map<nat, Entry>, users: seq<User>, header: Option<string>, code: string, now: nat): (out: VerifyResult)
    ensures BearerToken(header).None? ==> out == VerifyResult(Reply(401, "Unauthorized"), entries, users)
    ensures BearerToken(header).Some? && Verify(BearerToken(header).value).None? ==>
      out == VerifyResult(Reply(500, "Verification failed"), entries, users)
    ensures BearerToken(header).Some? && Verify(BearerToken(header).value).Some? ==>
      var userId := Verify(BearerToken(header).value).value.userId;
      && (code == "" ==> out == VerifyResult(Reply(400, "Code is required"), entries, users))
      && (code != "" && !CodeValid(entries, userId, code, now) ==>
            out == VerifyResult(Reply(400, "Invalid or expired code"), entries, users))
      && (code != "" && CodeValid(entries, userId, code, now) ==>
            out == VerifyResult(Reply(200, "Email verified!"), entries - {userId}, MarkVerified(users, userId)))
    ensures out.response.status != 200 ==> out.users == users && out.entries == entries
  {
    match BearerToken(header)
    case None => VerifyResult(Reply(401, "Unauthorized"), entries, users)
    case Some(token) =>
      match Verify(token)
      case None => VerifyResult(Reply(500, "Verification failed"), entries, users)
      case Some(claims) =>
        if code == "" then VerifyResult(Reply(400, "Code is required"), entries, users)
        else if !CodeValid(entries, claims.userId, code, now) then
          VerifyResult(Reply(400, "Invalid or expired code"), entries, users)
        else VerifyResult(Reply(200, "Email verified!"), AfterCodeCheck(entries, claims.userId, code, now), MarkVerified(users, claims.userId))
  }

  /** `verifyEmailCode`, with `Date.now()` passed in. */
  method VerifyEmailCode(store: Store, db: Db, header: Option<string>, code: string, now: nat) returns (res: Response)
    modifies store, db`users
    ensures var out := VerifyOutcome(old(store.entries), old(db.users), header, code, now);
      res == out.response && store.entries == out.entries && db.users == out.users
    ensures old(db.Valid()) ==> db.Valid()
  {
    var token := BearerToken(header);
    if token.None? {
      return Reply(401, "Unauthorized");
    }
    var decoded := Verify(token.value);
    if decoded.None? {
      // jwt.verify throws inside the try block.
      return Reply(500, "Verification failed");
    }
    var userId := decoded.value.userId;
    if code == "" {
      return Reply(400, "Code is required");
    }
    var valid := store.IsCodeValid(userId, code, now);
    if !valid {
      return Reply(400, "Invalid or expired code");
    }
    ghost var before := db.users;
    db.users := MarkVerified(db.users, userId);
    if old(db.Valid()) {
      MarkVerifiedKeepsTablesValid(before, db.sessions, db.nextUserId, userId);
    }
    res := Reply(200, "Email verified!");
  }

  /** Setting the verified flag changes no id or email, so the tables stay valid. */
  lemma MarkVerifiedKeepsTablesValid(users: seq<User>, sessions: seq<Session>, nextId: nat, id: nat)
    requires TablesValid(users, sessions, nextId)
    ensures TablesValid(MarkVerified(users, id), sessions, nextId)
  {
  }

  /**
   * The whole round: a client holding a genuine token sends `<scheme> <token>`,
   * receives the mailed code and submits it within fifteen minutes. That verifies
   * the token's account and answers 200; submitting the same code again gets 400.
   */
  lemma SendThenVerify(entries: map<nat, Entry>, users: seq<User>, scheme: string, claims: Claims,
                       draw: real, sentAt: nat, t: nat)
    requires ' ' !in scheme && 0.0 <= draw < 1.0
    requires t <= sentAt + TtlMs
    ensures var header := Some(scheme + " " + Sign(claims));
      var sent := SendOutcome(entries, header, draw, sentAt, true);
      && sent.response.status == 200
      && sent.mail == Some(Mail(claims.email, CodeFromDraw(draw)))
      && var checked := VerifyOutcome(sent.entries, users, header, sent.mail.value.code, t);
      && checked.response.status == 200
      && checked.users == MarkVerified(users, claims.userId)
      && VerifyOutcome(checked.entries, checked.users, header, sent.mail.value.code, t).response ==
           Reply(400, "Invalid or expired code")
  {
    SignHasNoSpace(claims);
    assert scheme + " " + Sign(claims) + "" == scheme + " " + Sign(claims);
    SchemeThenToken(scheme + " " + Sign(claims), scheme, Sign(claims), "");
    SignVerify(claims);
  }

  /** A code that does not match, or comes too late, leaves every account's verified flag as it was. */
  lemma RefusedCodeChangesNoAccount(entries: map<nat, Entry>, users: seq<User>, header: Option<string>, code: string, now: nat)
    requires BearerToken(header).Some? && Verify(BearerToken(header).value).Some?
    requires !CodeValid(entries, Verify(BearerToken(header).value).value.userId, code, now)
    ensures VerifyOutcome(entries, users, header, code, now).users == users
    ensures VerifyOutcome(entries, users, header, code, now).entries == entries
  {
  }
}
