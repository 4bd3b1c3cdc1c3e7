/**
 * The token issuer (the `jsonwebtoken` library) as an idealised primitive over
 * strings. `jwt.sign(claims, secret)` renders the claim set into a token with no
 * space in it; `jwt.verify(token, secret)` accepts exactly the strings `sign`
 * produces, which is what a signature check against the server secret
 * guarantees, and yields their claims.
 */
module Jwt {
  import opened Wrappers
  import opened Text
  import opened Tables

  /**
   * The claims every handler signs, `{ userId, email, userType }`, plus the
   * `iat` (issued-at, in seconds) the library adds by default. No `exp` is ever set.
   */
  datatype Claims = Claims(userId: nat, email: string, userType: Role, iat: nat)

  function RoleTag(r: Role): char
  {
    match r
    case Guest => 'g'
    case Owner => 'o'
    case Admin => 'a'
  }

  function TagRole(c: char): (r: Option<Role>)
    ensures r.Some? ==> RoleTag(r.value) == c
  {
    if c == 'g' then Some(Guest) else if c == 'o' then Some(Owner) else if c == 'a' then Some(Admin) else None
  }

  /** Percent-style escaping that removes '.', ' ' and '%' from the email's rendering. */
  function Escape(s: string): (e: string)
    ensures '.' !in e && ' ' !in e
  {
    if s == [] then []
    else
      var head := if s[0] == '.' then "%d" else if s[0] == ' ' then "%s" else if s[0] == '%' then "%p" else [s[0]];
      head + Escape(s[1..])
  }

  function Unescape(e: string): Option<string>
  {
    if e == [] then Some([])
    else if e[0] == '%' then
      if |e| < 2 then None
      else
        var c := if e[1] == 'd' then Some('.') else if e[1] == 's' then Some(' ') else if e[1] == 'p' then Some('%') else None;
        match (c, Unescape(e[2..]))
        case (Some(ch), Some(rest)) => Some([ch] + rest)
        case _ => None
    else if e[0] == '.' || e[0] == ' ' then None
    else
      match Unescape(e[1..])
      case Some(rest) => Some([e[0]] + rest)
      case None => None
  }

  lemma {:induction false} UnescapeEscape(s: string)
    ensures Unescape(Escape(s)) == Some(s)
  {
    if s != [] {
      UnescapeEscape(s[1..]);
      var e := Escape(s);
      if s[0] in {'.', ' ', '%'} {
        assert e[0] == '%' && e[2..] == Escape(s[1..]);
      } else {
        assert e[0] == s[0] && e[1..] == Escape(s[1..]);
      }
      assert [s[0]] + s[1..] == s;
    }
  }

  /** The pieces of a token after its role tag. */
  function Fields(c: Claims): (parts: seq<string>)
    ensures |parts| == 3 && forall i :: 0 <= i < 3 ==> '.' !in parts[i]
  {
    [Decimal(c.userId), Decimal(c.iat), Escape(c.email)]
  }

  /** `jwt.sign(claims, JWT_SECRET)`: a token from which the claims can be read back unchanged. */
  function Sign(c: Claims): (token: string)
    ensures Decode(token) == Some(c)
  {
    var token := [RoleTag(c.userType)] + Join(Fields(c), '.');
    DecodeRendering(c, token);
    token
  }

  /** The rendering of a claim set decodes to that claim set. */
  lemma DecodeRendering(c: Claims, token: string)
    requires token == [RoleTag(c.userType)] + Join(Fields(c), '.')
    ensures Decode(token) == Some(c)
  {
    var parts := Fields(c);
    assert token[1..] == Join(parts, '.');
    SplitJoin(parts, '.');
    DecimalRoundTrip(c.userId);
    DecimalRoundTrip(c.iat);
    UnescapeEscape(c.email);
  }

  /** Reads a claim set back out of a token's text, without checking the signature. */
  function Decode(token: string): Option<Claims>
  {
    if token == [] then None
    else
      var parts := Split(token[1..], '.');
      if |parts| != 3 || parts[0] == [] || parts[1] == [] || !AllDigits(parts[0]) || !AllDigits(parts[1]) then None
      else
        match (TagRole(token[0]), Unescape(parts[2]))
        case (Some(role), Some(email)) => Some(Claims(DigitsValue(parts[0]), email, role, DigitsValue(parts[1])))
        case _ => None
  }

  /** `jwt.verify(token, JWT_SECRET)`: the claims of a genuine token, and nothing for any other string. */
  function Verify(token: string): (c: Option<Claims>)
    ensures c.Some? ==> Sign(c.value) == token
  {
    match Decode(token)
    case Some(claims) => if Sign(claims) == token then Some(claims) else None
    case None => None
  }

  /** Verifying a signed token returns the claims it was signed with. */
  lemma SignVerify(c: Claims)
    ensures Verify(Sign(c)) == Some(c)
  {
  }

  /** A token is a single word: it never contains the space that separates it from the scheme. */
  lemma {:induction false} SignHasNoSpace(c: Claims)
    ensures Sign(c) != [] && ' ' !in Sign(c)
  {
    var parts := Fields(c);
    assert forall i :: 0 <= i < 2 ==> AllDigits(parts[i]);
    JoinHasNoSpace(parts);
  }

  lemma {:induction false} JoinHasNoSpace(parts: seq<string>)
    requires |parts| >= 1 && ' ' !in parts[|parts| - 1]
    requires forall i :: 0 <= i < |parts| - 1 ==> AllDigits(parts[i])
    ensures ' ' !in Join(parts, '.')
    decreases |parts|
  {
    if |parts| > 1 {
      JoinHasNoSpace(parts[1..]);
      assert ' ' !in parts[0] by {
        forall i | 0 <= i < |parts[0]| ensures parts[0][i] != ' ' { assert IsDigit(parts[0][i]); }
      }
    }
  }
}
