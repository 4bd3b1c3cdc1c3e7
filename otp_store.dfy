/**
 * The process-local one-time-code store: a map from user id to the code last
 * issued for that user and the instant it stops being accepted. Two APIs share
 * the map, `generateOTP`/`verifyOTP` and `setCode`/`isCodeValid`, and each writes
 * its own field names.
 */
module OtpStore {
  import opened Text

  /** Fifteen minutes, in milliseconds. */
  const TtlMs: nat := 15 * 60 * 1000

  /** A map value: the object literal each writer builds. */
  datatype Entry =
    | OtpEntry(otp: string, expiresAt: nat)   // `{ otp, expiresAt }`, written by generateOTP
    | CodeEntry(code: string, expires: nat)   // `{ code, expires }`, written by setCode

  /**
   * `data.otp === code && Date.now() <= data.expiresAt`. On an entry without those
   * fields both reads give `undefined`, and `now <= undefined` is false.
   */
  predicate OtpAccepts(e: Entry, code: string, now: nat)
  {
    e.OtpEntry? && e.otp == code && now <= e.expiresAt
  }

  /** `entry.code === submittedCode && Date.now() <= entry.expires`, read the same way. */
  predicate CodeAccepts(e: Entry, submitted: string, now: nat)
  {
    e.CodeEntry? && e.code == submitted && now <= e.expires
  }

  /** `Math.floor(100000 + draw * 900000).toString()` for a draw of `Math.random()`. */
  function CodeFromDraw(draw: real): (code: string)
    requires 0.0 <= draw < 1.0
    ensures |code| == 6 && AllDigits(code) && code[0] != '0'
    ensures 100000 <= DigitsValue(code) <= 999999
  {
    var n := (100000.0 + draw * 900000.0).Floor;
    assert 100000 <= n <= 999999;
    DecimalLength(n, 5);
    DecimalRoundTrip(n);
    Decimal(n)
  }

  /** What `isCodeValid(userId, submitted)` answers in state `m` at time `now`. */
  predicate CodeValid(m: map<nat, Entry>, userId: nat, submitted: string, now: nat)
  {
    userId in m && CodeAccepts(m[userId], submitted, now)
  }

  /** What `verifyOTP(userId, code)` answers in state `m` at time `now`. */
  predicate OtpValid(m: map<nat, Entry>, userId: nat, code: string, now: nat)
  {
    userId in m && OtpAccepts(m[userId], code, now)
  }

  /** The map after `setCode(userId, code)` at time `now`. */
  function WithCode(m: map<nat, Entry>, userId: nat, code: string, now: nat): (m': map<nat, Entry>)
    ensures m'.Keys == m.Keys + {userId}
    ensures forall v :: v in m && v != userId ==> m'[v] == m[v]
    ensures forall t: nat :: CodeValid(m', userId, code, t) <==> t <= now + TtlMs
    ensures forall s, t :: CodeValid(m', userId, s, t) ==> s == code
    ensures forall s, t :: !OtpValid(m', userId, s, t)
  {
    m[userId := CodeEntry(code, now + TtlMs)]
  }

  /** The map after `generateOTP(userId)` stored `otp` at time `now`. */
  function WithOtp(m: map<nat, Entry>, userId: nat, otp: string, now: nat): (m': map<nat, Entry>)
    ensures m'.Keys == m.Keys + {userId}
    ensures forall v :: v in m && v != userId ==> m'[v] == m[v]
    ensures forall t: nat :: OtpValid(m', userId, otp, t) <==> t <= now + TtlMs
    ensures forall s, t :: OtpValid(m', userId, s, t) ==> s == otp
    ensures forall s, t :: !CodeValid(m', userId, s, t)
  {
    m[userId := OtpEntry(otp, now + TtlMs)]
  }

  /** The map after `isCodeValid(userId, submitted)` at time `now`: the entry goes exactly when it was accepted. */
  function AfterCodeCheck(m: map<nat, Entry>, userId: nat, submitted: string, now: nat): (m': map<nat, Entry>)
    ensures m'.Keys == if CodeValid(m, userId, submitted, now) then m.Keys - {userId} else m.Keys
    ensures forall v :: v in m' ==> m'[v] == m[v]
  {
    if CodeValid(m, userId, submitted, now) then m - {userId} else m
  }

  /** The map after `verifyOTP(userId, code)` at time `now`. */
  function AfterOtpCheck(m: map<nat, Entry>, userId: nat, code: string, now: nat): (m': map<nat, Entry>)
    ensures m'.Keys == if OtpValid(m, userId, code, now) then m.Keys - {userId} else m.Keys
    ensures forall v :: v in m' ==> m'[v] == m[v]
  {
    if OtpValid(m, userId, code, now) then m - {userId} else m
  }

  /** The module-level `otpMap`, mutated in place by the four exported functions. */
  class Store {
    var entries: map<nat, Entry>

    constructor ()
      ensures entries == map[]
    {
      entries := map[];
    }

    /** `generateOTP(userId)`, with `Math.random()` and `Date.now()` passed in. */
    method GenerateOtp(userId: nat, draw: real, now: nat) returns (otp: string)
      requires 0.0 <= draw < 1.0
      modifies this
      ensures otp == CodeFromDraw(draw)
      ensures entries == WithOtp(old(entries), userId, otp, now)
    {
      otp := Decimal((100000.0 + draw * 900000.0).Floor);
      var expiresAt := now + 15 * 60 * 1000;
      entries := entries[userId := OtpEntry(otp, expiresAt)];
    }

    /** `verifyOTP(userId, code)`. */
    method VerifyOtp(userId: nat, code: string, now: nat) returns (isValid: bool)
      modifies this
      ensures isValid == OtpValid(old(entries), userId, code, now)
      ensures entries == AfterOtpCheck(old(entries), userId, code, now)
    {
      if userId !in entries {
        return false;
      }
      var data := entries[userId];
      isValid := data.OtpEntry? && data.otp == code && now <= data.expiresAt;
      if isValid {
        entries := entries - {userId};
      }
    }

    /** `setCode(userId, code)`. */
    method SetCode(userId: nat, code: string, now: nat)
      modifies this
      ensures entries == WithCode(old(entries), userId, code, now)
    {
      entries := entries[userId := CodeEntry(code, now + 15 * 60 * 1000)];
    }

    /** `isCodeValid(userId, submittedCode)`. */
    method IsCodeValid(userId: nat, submitted: string, now: nat) returns (valid: bool)
      modifies this
      ensures valid == CodeValid(old(entries), userId, submitted, now)
      ensures entries == AfterCodeCheck(old(entries), userId, submitted, now)
    {
      if userId !in entries {
        return false;
      }
      var entry := entries[userId];
      valid := entry.CodeEntry? && entry.code == submitted && now <= entry.expires;
      if valid {
        entries := entries - {userId};
      }
    }
  }

  /** Setting a new code replaces the old one: the earlier code stops validating. */
  lemma NewCodeReplacesOld(m: map<nat, Entry>, userId: nat, first: string, second: string, t1: nat, t2: nat, now: nat)
    requires first != second
    ensures !CodeValid(WithCode(WithCode(m, userId, first, t1), userId, second, t2), userId, first, now)
  {
  }

  /** A user with no entry is refused and the map is left as it was. */
  lemma NoEntryRefused(m: map<nat, Entry>, userId: nat, submitted: string, now: nat)
    requires userId !in m
    ensures !CodeValid(m, userId, submitted, now)
    ensures AfterCodeCheck(m, userId, submitted, now) == m
  {
  }

  /** The expiry bound is inclusive: valid at set time + 15 minutes, refused one millisecond later. */
  lemma ExpiryIsInclusive(m: map<nat, Entry>, userId: nat, code: string, setAt: nat)
    ensures CodeValid(WithCode(m, userId, code, setAt), userId, code, setAt + 900000)
    ensures !CodeValid(WithCode(m, userId, code, setAt), userId, code, setAt + 900001)
  {
  }

  /** Single use: once a code is accepted, no code is accepted for that user until a new one is set. */
  lemma CodeIsSingleUse(m: map<nat, Entry>, userId: nat, submitted: string, now: nat, again: string, later: nat)
    requires CodeValid(m, userId, submitted, now)
    ensures !CodeValid(AfterCodeCheck(m, userId, submitted, now), userId, again, later)
  {
  }

  /** A refused attempt leaves the entry, so the right code inside the window still works afterwards. */
  lemma RetryAfterRefusal(m: map<nat, Entry>, userId: nat, wrong: string, t1: nat, right: string, t2: nat)
    requires !CodeValid(m, userId, wrong, t1)
    requires CodeValid(m, userId, right, t2)
    ensures CodeValid(AfterCodeCheck(m, userId, wrong, t1), userId, right, t2)
  {
  }

  /** Operations on one user never change whether another user's code validates. */
  lemma OtherUsersUntouched(m: map<nat, Entry>, userId: nat, other: nat, code: string, submitted: string, t1: nat, s: string, t2: nat)
    requires other != userId
    ensures CodeValid(WithCode(m, userId, code, t1), other, s, t2) == CodeValid(m, other, s, t2)
    ensures CodeValid(AfterCodeCheck(m, userId, submitted, t1), other, s, t2) == CodeValid(m, other, s, t2)
    ensures OtpValid(WithOtp(m, userId, code, t1), other, s, t2) == OtpValid(m, other, s, t2)
    ensures OtpValid(AfterOtpCheck(m, userId, submitted, t1), other, s, t2) == OtpValid(m, other, s, t2)
  {
  }

  /** A generated code is six digits, verifies before expiry, and verifies only once. */
  lemma GeneratedCodeWorksOnce(m: map<nat, Entry>, userId: nat, draw: real, now: nat, t: nat, later: nat)
    requires 0.0 <= draw < 1.0
    requires t <= now + TtlMs
    ensures var otp := CodeFromDraw(draw);
      var m1 := WithOtp(m, userId, otp, now);
      && |otp| == 6
      && OtpValid(m1, userId, otp, t)
      && !OtpValid(AfterOtpCheck(m1, userId, otp, t), userId, otp, later)
  {
  }

  /** The two APIs do not interoperate: neither checker ever accepts an entry the other API's writer made. */
  lemma ApisDoNotInteroperate(m: map<nat, Entry>, userId: nat, code: string, now: nat, s: string, t: nat)
    ensures !OtpValid(WithCode(m, userId, code, now), userId, s, t)
    ensures !CodeValid(WithOtp(m, userId, code, now), userId, s, t)
  {
  }
}
