# Account authentication and email verification, modelled in Dafny

This project models the authentication subsystem of a property-booking REST
backend:

- the role-scoped login and registration handlers for guests, owners and admins,
  over the `users` table (keyed by email, with a role tag) and the append-only
  `user_sessions` table;
- the admin query that lists users with at least one session;
- the process-local one-time-code store and the two email-verification handlers
  that use it.

Modules, one per source file or external collaborator:

- `Tables` (`tables.dfy`): the two tables, the class `Db` that holds them, and
  the table invariant. The invariant says emails are unique, ids are serial, and
  every session row names an existing account. The handlers modelled here keep
  it (see "Left out" for the handlers that do not).
- `Auth` (`auth.dfy`): what the three controllers share. This is the
  role-scoped login (the same steps in each controller) and the three
  registration checks in their source order.
- `GuestController`, `OwnerController`, `AdminController`, `OtpController`: one
  module per controller file. Each handler is an imperative method over `Db`
  (and the code `Store`). It is proved equal to a pure outcome function, and the
  properties are proved about that function.
- `OtpStore` (`otp_store.dfy`): the class `Store`, whose `entries` map is the
  module-level `otpMap`. Its four methods are proved against pure transition
  functions on the map.
- `Bcrypt`, `Jwt` (`bcrypt.dfy`, `jwt.dfy`): the password hasher and the token
  issuer as idealised primitives.
  - A digest accepts exactly the password it was made from.
  - A token is a space-free string. `Verify` accepts exactly the strings `Sign`
    produces and returns their claims (`SignVerify`).
- `Text` (`text.dfy`): JavaScript's integer `toString`, `split(' ')` and `join`,
  with their round trips.

Time (`Date.now()`), the random draw (`Math.random()`), the bcrypt salt and
whether the email service accepted a message are method parameters. A request
field that is absent or empty is the empty string, which is what JavaScript's
`!x` treats as missing.

Points where the code's behaviour is easy to misread:

- Codes never have a leading zero: `Math.floor(100000 + r * 900000)` is 100000..999999.
- A token that fails `jwt.verify` in the code handlers gives 500, not 403.
- Guest registration writes no session row, and owner registration does.
- Admin registration never succeeds (see Findings).
- The controllers have no logout handler and no "current principal" handler, so neither is modelled.

## Model

| member | source | states |
|---|---|---|
| Text.Decimal | controllers/otpController.js:18 | `toString()` of a non-negative integer is a non-empty digit string with no leading zero |
| Text.DecimalRoundTrip | controllers/otpController.js:18 | reading the digits back gives the number again, so distinct codes give distinct strings |
| Text.DecimalLength | utils/otpStore.js:5 | a number with k+1 digits is written with exactly k+1 characters (six for a code) |
| Text.Split | controllers/otpController.js:10 | `split(' ')` yields at least one piece and no piece contains the separator |
| Text.JoinSplit | controllers/otpController.js:10 | joining the pieces of a split with the separator gives back the original header |
| Text.SplitJoin | controllers/otpController.js:43 | splitting separator-free pieces joined by the separator gives back exactly those pieces |
| Bcrypt.Hash | controllers/guestController.js:71 | `bcrypt.hash(password, 10)` yields a cost-10 digest that `compare` accepts for that password and for no other (idealised: the 72-byte truncation is under Left out) |
| Bcrypt.CompareRehashes | controllers/guestController.js:30 | `bcrypt.compare` on a cost-10 digest accepts exactly when hashing the attempt with the digest's own salt reproduces the digest |
| Jwt.Sign | controllers/guestController.js:36-39 | `jwt.sign` renders the claims so that decoding the token, without the signature check, reads back exactly those claims |
| Jwt.Verify | controllers/otpController.js:14 | `jwt.verify` accepts a string only if it is exactly the signed form of the claims it returns |
| Jwt.SignVerify | controllers/guestController.js:36-39 | verifying a signed token returns exactly the claims `{userId, email, userType}` plus `iat`, with no expiry |
| Jwt.SignHasNoSpace | controllers/ownerController.js:32-35 | a signed token is a single non-empty word, so it survives `Bearer <token>` |
| Jwt.UnescapeEscape | controllers/guestController.js:37 | the email claim is read back unchanged from the token text |
| OtpStore.CodeFromDraw | utils/otpStore.js:5 | a draw in [0,1) gives a six-digit decimal string whose value is in 100000..999999 |
| OtpStore.WithCode | utils/otpStore.js:22-24 | `setCode` keeps one entry per user and replaces the old one; the new code validates exactly up to set time + 900000 ms; no other user's entry changes; `verifyOTP` never accepts the entry |
| OtpStore.WithOtp | utils/otpStore.js:4-10 | `generateOTP` stores `{otp, expiresAt}` with a 15-minute expiry, touches no other user, and `isCodeValid` never accepts the entry |
| OtpStore.AfterCodeCheck | utils/otpStore.js:26-32 | `isCodeValid` deletes the user's entry exactly when it accepts, and otherwise changes nothing |
| OtpStore.AfterOtpCheck | utils/otpStore.js:12-19 | `verifyOTP` deletes the user's entry exactly when it accepts, and otherwise changes nothing |
| OtpStore.Store.constructor | utils/otpStore.js:2 | the map starts empty |
| OtpStore.Store.GenerateOtp | utils/otpStore.js:4-10 | returns the six-digit code for the draw and stores it for the user with expiry now + 15 min |
| OtpStore.Store.VerifyOtp | utils/otpStore.js:12-19 | answers whether an `{otp, expiresAt}` entry matches and is unexpired, and removes it exactly then |
| OtpStore.Store.SetCode | utils/otpStore.js:22-24 | overwrites the user's entry with `{code, expires: now + 15 min}` |
| OtpStore.Store.IsCodeValid | utils/otpStore.js:26-32 | answers whether a `{code, expires}` entry matches and is unexpired, and removes it exactly then |
| OtpStore.NewCodeReplacesOld | utils/otpStore.js:22-24 | after a second `setCode` the first code no longer validates |
| OtpStore.NoEntryRefused | utils/otpStore.js:26-28 | a user without an entry is refused and the map is unchanged |
| OtpStore.ExpiryIsInclusive | utils/otpStore.js:23-29 | the code is valid at set time + 900000 ms and refused 1 ms later |
| OtpStore.CodeIsSingleUse | utils/otpStore.js:29-30 | after an accepted code, no code at all is accepted for that user until a new one is set |
| OtpStore.RetryAfterRefusal | utils/otpStore.js:29-31 | a refused attempt (wrong or late) leaves the entry, so the right code in the window still succeeds |
| OtpStore.OtherUsersUntouched | utils/otpStore.js:8-30 | no store operation on one user changes whether another user's code validates |
| OtpStore.GeneratedCodeWorksOnce | utils/otpStore.js:4-19 | a generated code is six digits, verifies before expiry, and verifies only once |
| OtpStore.ApisDoNotInteroperate | utils/otpStore.js:8-29 | `verifyOTP` never accepts a `setCode` entry and `isCodeValid` never accepts a `generateOTP` entry |
| Tables.EmailTaken | controllers/guestController.js:66-67 | the role-free duplicate `SELECT` finds a row exactly when the guest, owner or admin lookup does |
| Tables.Db.constructor | db.js:2-9 | the two tables start empty, the next serial id is 1, and the table invariant holds |
| Tables.SelectByEmailAndRole | controllers/guestController.js:19-22 | the query returns exactly the rows with that email and that `user_type` |
| Tables.SelectAtMostOne | controllers/ownerController.js:16-25 | with unique emails the role-scoped lookup finds at most one row |
| Tables.SelectNone | controllers/guestController.js:24-26 | an email nobody uses selects no rows |
| Tables.InsertKeepsTablesValid | controllers/ownerController.js:62-86 | inserting an account whose email is unused, under the next id, with or without its session row, keeps emails unique, ids serial and sessions attached to accounts |
| Auth.IssuedAt | controllers/guestController.js:36-39 | the `iat` claim jsonwebtoken adds is the time in whole seconds, rounded down |
| Auth.ClaimsOf | controllers/guestController.js:36-39 | the signed claims are the row's `user_id`, `email` and `user_type` plus the second of issue, and the signed token verifies back to them |
| Auth.LoginOutcome | controllers/guestController.js:11-52 | 400 "Email and password are required" exactly when a field is missing; every 401 has one message and no token; a session row is written exactly on 200, and it holds the returned token for a matched row of that role whose digest accepts the password; with unique emails, 200 holds exactly when such an account exists |
| Auth.Login | controllers/adminController.js:64-105 | the login steps append the outcome's session rows, leave `users` alone and keep the tables valid |
| Auth.LoginKeepsTablesValid | controllers/guestController.js:41-45 | the session row a login appends names an existing account |
| Auth.LoginTokenCarriesRow | controllers/guestController.js:35-39 | a successful login's token verifies to the matched row's id, email and role |
| Auth.LoginScopedByRole | controllers/guestController.js:19-26 | an email registered only under other roles gets 401 |
| Auth.WrongPasswordLooksUnknown | controllers/guestController.js:24-33 | a wrong password and an unknown email get the identical response, on any table, including one where several rows share an email |
| Auth.FieldsPresent | controllers/guestController.js:57 | the `!name`, `!email`, ... check passes exactly when no field the role's form requires is empty; the address is required only on forms that have it (adminController.js:26 has none) |
| Auth.RegistrationRejection | controllers/guestController.js:57-69 | checks run in order: all fields (400), passwords match (400), email unused under any role (409); passing means all three hold |
| Auth.DuplicateAcrossRoles | controllers/ownerController.js:62-65 | an existing account of any role with the email blocks the registration with 409 |
| Auth.NewAccount | controllers/guestController.js:71-78 | the inserted row has the next id, the form's name, email, phone and address, the role, unverified status, and a digest accepting only the password |
| GuestController.GuestLogin | controllers/guestController.js:11-52 | guest login appends the login outcome's session row (one per successful login, repeated logins keep appending) and answers its response |
| GuestController.GuestRegisterOutcome | controllers/guestController.js:54-92 | a rejection inserts nothing; otherwise one guest row with the password's digest, 201 with a token verifying to the new row's claims, and no session row |
| GuestController.GuestRegisterThenDuplicate | controllers/guestController.js:66-78 | after a successful guest registration, a complete form with the same email is refused with 409 by every role's checks |
| GuestController.GuestRegister | controllers/guestController.js:54-92 | the handler appends the outcome's user row, writes no session row and keeps the tables valid |
| OwnerController.OwnerLogin | controllers/ownerController.js:8-47 | owner login appends the login outcome's session row and answers its response |
| OwnerController.OwnerRegisterOutcome | controllers/ownerController.js:50-93 | a rejection changes nothing; otherwise one owner row, one session row holding the returned token for the new id, and 201 |
| OwnerController.OwnerRegisterThenDuplicate | controllers/ownerController.js:62-77 | after a successful owner registration, a complete form with the same email is refused with 409 by every role's checks |
| OwnerController.OwnerRegister | controllers/ownerController.js:50-93 | the handler appends the outcome's user row and session row and keeps the tables valid |
| AdminController.AdminLogin | controllers/adminController.js:64-105 | admin login appends the login outcome's session row and answers its response |
| AdminController.AdminRegisterOutcome | controllers/adminController.js:23-61 | five fields (no address), then passwords, then email unused; past the checks always 500 with no row inserted and no token |
| AdminController.AdminRegister | controllers/adminController.js:23-61 | the handler answers the as-written outcome and changes no table |
| AdminController.AdminRegisterIntended | controllers/adminController.js:40-56 | the intended handler inserts one admin row (address NULL) and answers 201 with a token verifying to admin claims |
| AdminController.AdminRegisterNeverSucceeds | controllers/adminController.js:40-60 | a valid admin form with a fresh email gets 500 as written and 201 as intended |
| AdminController.ActiveUsers | controllers/adminController.js:8-16 | a row is listed exactly when some user with those fields has a session row, and no row is listed twice |
| AdminController.LoginMakesActive | controllers/adminController.js:10-14 | after a successful login the account is among the active users |
| OtpController.BearerToken | controllers/otpController.js:9-11 | no header gives no token; a token found is non-empty and has no space |
| OtpController.SchemeThenToken | controllers/otpController.js:9-11 | a header `<scheme> <token>`, alone or followed by a space and further words, yields the token whatever the scheme word is |
| OtpController.TokenIsSecondWord | controllers/otpController.js:9-11 | conversely, a token found in a header is its second word: a space-free scheme, one space, the token, then the end or a space |
| OtpController.NoSpaceNoToken | controllers/otpController.js:42-44 | a header with no space yields no token (401) |
| OtpController.DoubleSpaceNoToken | controllers/otpController.js:42-44 | a double space leaves an empty second word, which is no token (401) |
| OtpController.SendOutcome | controllers/otpController.js:8-39 | no token gives 401 with nothing stored; a token that fails verification gives 500 "Failed to send code." with nothing stored and no mail; a genuine token stores the draw's code for the token's userId and mails it to the token's email; the answer is 200 if the send succeeded and 500 "Failed to send code." if it failed, and then the code stays stored |
| OtpController.SendEmailVerification | controllers/otpController.js:8-39 | the handler's response, mail and new code map are those of the outcome |
| OtpController.MarkVerified | controllers/otpController.js:57 | the update sets `email_verify` on exactly the rows with that id and changes nothing else |
| OtpController.MarkVerifiedKeepsTablesValid | controllers/otpController.js:57 | setting the verified flag keeps the tables valid |
| OtpController.VerifyOutcome | controllers/otpController.js:41-63 | token (401), then genuine token (500), then code present (400), then code valid for the token's user (400); only a valid code consumes the entry and sets `email_verify` for that userId, with 200; every other answer changes nothing |
| OtpController.VerifyEmailCode | controllers/otpController.js:41-63 | the handler's response, code map and users table are those of the outcome, and the tables stay valid |
| OtpController.SendThenVerify | controllers/otpController.js:18-58 | sending to a genuine `<scheme> <token>` and submitting the mailed code in time verifies that account with 200; the same code again gets 400 |
| OtpController.RefusedCodeChangesNoAccount | controllers/otpController.js:53-55 | a wrong or expired code leaves the users table and the code map unchanged |

## Left out

- Database failures: every handler's `catch` turns a failed query into 500. The model's queries never fail, so those 500 answers are not modelled. The admin registration's 500 and the 500s from a failed token check are modelled, because they come from the code itself.
- A missing signing secret is not modelled. With `JWT_SECRET` unset every `jwt.sign`/`jwt.verify` throws. The model assumes the secret is configured.
- Cryptography is idealised:
  - A bcrypt digest is an injective tag of the password and the salt. One-wayness and timing are not modelled.
  - Bcrypt.Hash: node's `bcrypt` uses only the first 72 bytes of a password, so `compare` also accepts any string that agrees with the password on those bytes. The model's digest accepts the password alone.
  - A token is a readable rendering of its claims. `Verify` stands for a signature check and accepts exactly what `Sign` produced.
- Floating point is not modelled. The code is drawn as a real in [0,1) with exact arithmetic, while JavaScript uses doubles. Rounding cannot push the result past 999999.
- Request bodies are strings. A non-string JSON `code` (a number, say) never equals a stored string, so the source answers 400 for it. The model does not represent such values.
- Sending the email is a parameter that says whether `emailjs.send` succeeded. Its I/O is not modelled.
- Concurrency is not modelled: each handler is one atomic step. In the source, the check-then-insert on a duplicate email is not atomic.
- Row order is not modelled. `rows[0]` and the `getActiveUsers` listing follow table order, but the queries have no `ORDER BY`. With unique emails the login lookup has at most one row anyway.
- Routing is not modelled:
  - `middleware/authMiddleware` (`verifyToken`) is not part of this model.
  - `checkAdmin` guards `getActiveUsers` and is not part of this model either.
  - `routes/index.js` does not mount the code routes, so the two verification handlers are unreachable over HTTP as shipped.
- The default of the `email_verify` column is not visible in the source. New accounts start unverified in the model.
- Tables.Db.Valid: the table invariant is kept by the handlers modelled here and by nothing else. `usersController.js` is not part of this model. Its `createUser` (lines 39-52) inserts any email without a duplicate check. Its `updateUser` (lines 55-71) rewrites `email` and `user_type`. Its `deleteUser` (lines 74-85) removes accounts that may still have session rows. Login, registration and verification are modelled on any table, valid or not, and only the "keeps the tables valid" clauses assume the invariant.
- The other controllers (CRUD, cash, messaging), `server.js` and `db.js` are outside this subsystem.

## Findings

| source | as written | input that shows it | evidently intended | confidence | as-written member | corrected member |
|---|---|---|---|---|---|---|
| controllers/adminController.js:42-47 | the insert's argument list reads `address`, which is never declared, so a ReferenceError reaches the `catch` and the answer is 500; the SQL also has four placeholders for five arguments | any form with name, email, phone and matching passwords, whose email is unused | insert an admin row and answer 201 with a token | high (not executed) | AdminController.AdminRegisterOutcome (shown by AdminController.AdminRegisterNeverSucceeds) | AdminController.AdminRegisterIntended |
