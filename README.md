# Password-reset authentication flow, modelled in Dafny

This project models the core of a credential-based authentication service. That
core is two source files:

- The back end's authentication controller. It has six handlers: signup, login,
  profile, forgot-password, reset-password and verify-reset-token. They work over
  a store of user records. Each record holds a normalised email, a name, a
  password hash, an optional reset-token digest with its expiry, and a creation
  time.
- The front end's form-validation helpers: `formatEmail`, `isValidEmail`,
  `validatePassword` and `passwordsMatch`.

Files:

- `wrappers.dfy`: the `Option` datatype, used for absent request fields and
  absent record fields.
- `validation.dfy` (module `Validation`): the validation helpers, written as
  functions with lemmas. `validatePassword` is a method that builds its list by
  appending, as the source does.
- `users.dfy` (module `Users`): the user record and the store's `findOne`
  lookup, which returns the first matching record of a sequence. It also holds
  the reset-token lookup and expiry check shared by the reset and verify
  handlers, the store invariant, and lemmas about all of these.
- `auth.dfy` (module `Auth`): the class `AuthController`. Its field `users` is
  the store. Each handler is a method with exact postconditions. The handlers
  that write to the store (signup, forgot-password, reset-password) declare
  `modifies`; login, profile and verify-reset-token do not, so they cannot
  change it. `Valid()` is the store invariant:
  - identifiers are distinct;
  - emails are in normal form and distinct;
  - the two reset fields are set and cleared together.

  Client methods at the end of the file use the handlers' contracts to show:
  - signup followed by login;
  - a reset token works only once;
  - verify predicts reset;
  - the forgot-then-reset round trip;
  - a re-issued token invalidates the earlier one.

Some things come from outside the controller:

- The SHA-256 digest of reset tokens, the password hash and its comparison, and
  the session-token signer are function values. They are fixed when the
  controller is built.
- The configured token lifetime is the result of `parseInt` (`None` for NaN).
- The random reset token, the clock (`now`, in milliseconds) and the outcome of
  the email send are parameters of the handlers that use them.
- The profile handler receives its user id from the authentication middleware,
  as a parameter.

Reset-token validity is modelled as "an expiry is present and `now` is strictly
before it". The user model that defines `isResetTokenValid` is not part of this
model, so this is an assumption, not a fact taken from the source.

Where the code and the documented design of the system differ, the model follows
the code:

- signup checks for missing fields before it checks for a duplicate email;
- the two reset handlers answer an expired token with their own distinct
  messages, not one generic message;
- an expired token is never cleared.

## Model

| member | source | states |
|---|---|---|
| `Validation.LowerChar` | frontend/src/utils/validation.js:7 | lower-casing maps each upper-case letter to the lower-case letter at the same alphabet position, changes no other character, and keeps whitespace as whitespace |
| `Validation.ToLower` | frontend/src/utils/validation.js:7 | `toLowerCase` keeps the length and lower-cases every character in place |
| `Validation.TrimStart` | frontend/src/utils/validation.js:7 | the result is the longest suffix that does not start with whitespace; everything dropped is whitespace |
| `Validation.TrimEnd` | frontend/src/utils/validation.js:7 | the result is the longest prefix that does not end in whitespace; everything dropped is whitespace |
| `Validation.Trim` | frontend/src/utils/validation.js:7 | `trim` leaves no whitespace at either end, returns a string without edge whitespace unchanged, and keeps only characters of its input |
| `Validation.TrimIsInfix` | frontend/src/utils/validation.js:7 | `trim` returns a contiguous slice of its input and removes only whitespace, at the two ends |
| `Validation.FormatEmail` | frontend/src/utils/validation.js:6-8 | `formatEmail` (lower-case, then trim) returns a string with no edge whitespace and no upper-case letter |
| `Validation.FormatEmailIdempotent` | frontend/src/utils/validation.js:6-8 | formatting an already formatted email changes nothing |
| `Validation.LowerTrimStartCommute` | frontend/src/utils/validation.js:7 | dropping leading whitespace commutes with lower-casing |
| `Validation.LowerTrimEndCommute` | frontend/src/utils/validation.js:7 | dropping trailing whitespace commutes with lower-casing |
| `Validation.FormatEmailTrimFirst` | frontend/src/utils/validation.js:6-8 | lower-casing then trimming equals trimming then lower-casing |
| `Validation.NormalizedIsFixedPoint` | backend/controllers/authController.js:40 | the normal form the store keeps (no edge whitespace, no upper-case letter) is exactly the set of fixed points of `formatEmail` |
| `Validation.IsValidEmail` | frontend/src/utils/validation.js:11-14 | `isValidEmail` accepts only strings of at least five characters whose first and last characters are neither whitespace nor '@' |
| `Validation.PatternMatchIsWellFormed` | frontend/src/utils/validation.js:11-14 | a match of `^[^\s@]+@[^\s@]+\.[^\s@]+$` has no whitespace, exactly one '@' with something before it, and an inner '.' after it |
| `Validation.WellFormedMatchesPattern` | frontend/src/utils/validation.js:11-14 | conversely, such a string matches the pattern |
| `Validation.IsValidEmailCharacterized` | frontend/src/utils/validation.js:11-14 | `isValidEmail` holds iff there is no whitespace, exactly one '@' with a non-empty part before it, and a '.' after it that is neither the first nor the last character of the domain |
| `Validation.ValidatePassword` | frontend/src/utils/validation.js:17-34 | the list holds exactly the messages of the broken rules (length under 8, no upper-case, no lower-case, no digit), each once, in that order, at most four; it is empty iff the password is strong; a short password gets the length message first |
| `Validation.PasswordsMatch` | frontend/src/utils/validation.js:37-39 | `passwordsMatch` holds iff both strings have the same length and the same character at every position |
| `Validation.PasswordsMatchIsEquivalence` | frontend/src/utils/validation.js:37-39 | matching is reflexive, symmetric and transitive |
| `Users.ClearReset` | backend/controllers/authController.js:236-237 | a record whose reset fields were removed keeps them paired, matches no reset-token lookup, and gives back the original record when the two fields are put back |
| `Users.FindOne` | backend/controllers/authController.js:287-289 | `findOne` returns the first matching record, and nothing exactly when no record matches |
| `Users.IsResetTokenValid` | backend/controllers/authController.js:299 | a token is valid only while an expiry is set (the check itself is the assumed `now < expires`) |
| `Users.ExpiryIsFinal` | backend/controllers/authController.js:299 | a token that is no longer valid stays invalid as the clock advances |
| `Users.CheckResetToken` | backend/controllers/authController.js:287-304 | the reset-token check finds no record exactly when none holds the digest; otherwise it names a holder, and that holder is usable exactly when its token has not expired |
| `Users.FindAppended` | backend/controllers/authController.js:38-42 | a record appended to a store where nothing matched is the one a later lookup finds |
| `Users.AppendKeepsWellFormed` | backend/controllers/authController.js:29-42 | creating a record with a fresh id and a new normalised email keeps the store invariant |
| `Users.UpdateKeepsWellFormed` | backend/controllers/authController.js:306-310 | changing a record's password or reset fields, with the two reset fields still paired, keeps the store invariant |
| `Users.EmailIdentifiesRecord` | backend/controllers/authController.js:29-35 | in a well-formed store at most one record has a given normalised email |
| `Users.ClearedTokenNotFound` | backend/controllers/authController.js:306-310 | once the only holder of a digest has its reset fields cleared, the digest matches nothing |
| `Users.ReissuedTokenReplacesOld` | backend/controllers/authController.js:196-203 | once the only holder of a digest is given a different digest, the old digest matches nothing |
| `Users.OnlyHolderIsFound` | backend/controllers/authController.js:287-304 | when one record alone holds a digest, the reset-token check lands on that record, usable exactly while its token has not expired |
| `Users.FindByEmailAfterUpdate` | backend/controllers/authController.js:183-203 | changing a record without changing its email leaves every lookup by email unchanged |
| `Users.NewTokenOnlyHolder` | backend/controllers/authController.js:196-205 | a digest that no record held before is held only by the record it is given to |
| `Auth.ResetTokenTtl` | backend/controllers/authController.js:202 | the lifetime is the configured value unless that is absent (NaN) or zero, when it is 3600000; it is never zero |
| `Auth.Missing` | backend/controllers/authController.js:21 | `!field` on a request field holds exactly when the field is absent or not a non-empty string |
| `Auth.AuthController.NewUser` | backend/controllers/authController.js:38-42 | the record signup creates takes the next identifier, has a normalised email and paired reset fields, so it meets the per-record part of the store invariant |
| `Auth.AuthController.Signup` | backend/controllers/authController.js:21-59 | a missing field gives 400, and then a registered normalised email gives 400, both with the store unchanged; otherwise exactly one record is appended, and the 201 response carries the session token and only id, name and email; the store invariant is kept |
| `Auth.AuthController.CreateUser` | backend/controllers/authController.js:38-42 | creating a record with the next identifier and a normalised email no record has appends exactly that record, advances the identifier and keeps the store invariant |
| `Auth.AuthController.Login` | backend/controllers/authController.js:80-121 | a missing field gives 400; an unknown email and a wrong password both give the identical 401 "Invalid email or password"; otherwise 200 with a session token; the store is not changed |
| `Auth.AuthController.GetProfile` | backend/controllers/authController.js:138-155 | an unknown id gives 404; otherwise 200 with exactly id, name, email and creation time; the response type has no place for the password or reset fields; the store is not changed |
| `Auth.AuthController.ForgotPassword` | backend/controllers/authController.js:175-205 | a missing email gives 400 and an unknown one 404, both with the store unchanged; for a known email the record found is handed to the token issuing step |
| `Auth.AuthController.IssueResetToken` | backend/controllers/authController.js:192-245 | when the email is sent, the record holds the digest of the raw token and the expiry now + lifetime, and the answer is 200; when the send fails, both reset fields are absent afterwards and the answer is 500; nothing else changes |
| `Auth.AuthController.ResetPassword` | backend/controllers/authController.js:265-315 | the checks run in a fixed order: missing input, then a password under 8 characters, then no holder of the digest ("Invalid reset token"), then expiry (a distinct message); every rejection leaves the store unchanged; success replaces the hash and clears both reset fields of that record, after which the digest matches nothing if it had a single holder |
| `Auth.AuthController.VerifyResetToken` | backend/controllers/authController.js:334-370 | the same lookup and expiry check as reset, with its own expiry message; the store is not changed |
| `Auth.SignupThenLogin` | backend/controllers/authController.js:88-121 | after a successful signup, logging in with an email of the same normal form and the same password returns the new account's public fields |
| `Auth.ResetTokenSingleUse` | backend/controllers/authController.js:287-310 | after one successful reset, a second reset with the same raw token fails with "Invalid reset token" |
| `Auth.VerifyPredictsReset` | backend/controllers/authController.js:348-370 | on the same store, verify and reset succeed together and reject an unknown token together |
| `Auth.ForgotWithFreshToken` | backend/controllers/authController.js:183-205 | after a successful forgot-password with a digest no record held, the record found by the email holds that digest and the expiry now + lifetime, and no other record holds the digest |
| `Auth.ForgotThenReset` | backend/controllers/authController.js:192-205 | the raw token of a successful forgot-password resets the password exactly while the clock is before the stored expiry; afterwards it is refused as expired |
| `Auth.ReissueInvalidatesEarlier` | backend/controllers/authController.js:196-205 | after a second forgot-password for the same email, the first raw token is refused as invalid, given an injective digest |

## Left out

- The SHA-256 digest, the password hash and `comparePassword` are function values, not their algorithms. The hash is deterministic, with no salt. The session-token signer (JWT with a seven-day lifetime) is a function of the id and the email.
- `crypto.randomBytes(32)`: the raw reset token is a parameter. It is not constrained to 64 hexadecimal characters.
- `Date.now()`: a parameter. The creation time a new record receives is that parameter too.
- Sending the email: only its success or failure is modelled. The recipient, the subject, the HTML body and the reset URL are not.
- `isResetTokenValid`: modelled as `now < expires`. The user model that defines it is not part of this model.
- The user model's schema validation and save hooks are not part of this model. Creating a record always succeeds, and the password is hashed when it is stored.
- Unexpected failures of storage or signing, and the generic 500 answers of the outer `catch` blocks, are left out. The store never fails.
- Request fields are absent or strings. A field of another JSON type, which would make `toLowerCase` throw, is not modelled.
- Lower-casing covers ASCII letters only. JavaScript's full Unicode `toLowerCase` is narrowed to that.
- String lengths count Unicode scalar values. JavaScript counts UTF-16 code units, so the two differ for characters outside the Basic Multilingual Plane.
- Whitespace for `trim` and `\s` is the full set JavaScript uses.
- `Date.now() + expiryTime` is JavaScript floating-point arithmetic, exact only below 2^53 and bounded by the Date range; the model adds unbounded integers.
- Users.FindOne: the store's `findOne` does not say which record it returns when several match; the model fixes that choice to the first in sequence order.
- Concurrent requests and the store's last-write-wins behaviour are left out. The model is sequential.
- The authentication middleware, the HTTP routing, the HTTP client and the React pages are left out.
- Auth.AuthController.ResetPassword: single use is promised only when no other record holds the same token digest. The source never checks that digests are unique, and two records holding one digest would let the second be reset with the same raw token.
- Auth.ResetTokenSingleUse: holds under the same single-holder assumption.
- Auth.ForgotThenReset: assumes that no record held the new token's digest before.
- Auth.ForgotWithFreshToken: the same assumption, and the email send is taken to succeed.
- Auth.ReissueInvalidatesEarlier: assumes that no record held the first token's digest before, and that the digest is injective.
- Auth.SignupThenLogin: assumes that the password comparison accepts a password against its own hash. It also needs a non-empty login email: signup accepts an email made only of whitespace, stored as the empty string, and login refuses the empty string as missing.
