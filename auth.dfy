/**
 * The authentication controller: signup, login, profile, and the
 * forgot/reset/verify password-reset handshake, as handlers over a store of
 * user records.
 *
 * The digest of reset tokens (SHA-256), the password hash and its comparison,
 * and the session-token signer are functions fixed when the controller is
 * built. The random reset token, the clock and the outcome of the email send
 * are parameters of the handlers that use them.
 */
module Auth {
  import opened Wrappers
  import opened Validation
  import opened Users

  /** Reset-token lifetime in milliseconds when none is configured. */
  const DefaultResetTokenExpiry: int := 3600000

  /**
   * The lifetime in force: the configured value (the result of `parseInt`,
   * `None` for NaN) unless it is absent or zero, in which case the default.
   */
  function ResetTokenTtl(configured: Option<int>): (ttl: int)
    ensures ttl != 0
    ensures configured.Some? && configured.value != 0 ==> ttl == configured.value
    ensures configured == None || configured == Some(0) ==> ttl == DefaultResetTokenExpiry
  {
    if configured.Some? && configured.value != 0 then configured.value else DefaultResetTokenExpiry
  }

  /** The user fields a signup or login response carries. */
  datatype PublicUser = PublicUser(id: UserId, name: string, email: string)

  /** The user fields a profile response carries. */
  datatype ProfileUser = ProfileUser(id: UserId, name: string, email: string, createdAt: int)

  datatype Payload = NoPayload | Session(token: string, user: PublicUser) | Profile(profile: ProfileUser)

  /** A JSON response: status, `success`, optional `message`, and the rest of the body. */
  datatype Response = Response(status: nat, success: bool, message: Option<string>, payload: Payload)

  function Failure(status: nat, message: string): Response
  {
    Response(status, false, Some(message), NoPayload)
  }

  /** The one login failure, shared by "no such email" and "wrong password". */
  const InvalidCredentials := Failure(401, "Invalid email or password")
  const InvalidResetToken := Failure(400, "Invalid reset token")

  /** JavaScript's `!field` on a request field: absent or the empty string. */
  function Missing(field: Option<string>): (r: bool)
    ensures !r <==> field.Some? && |field.value| > 0
  {
    field.None? || field.value == ""
  }

  /** The user part of a signup or login response. */
  function PublicView(u: User): PublicUser
  {
    PublicUser(u.id, u.name, u.email)
  }

  class AuthController {
    var users: seq<User>
    var nextId: nat

    const sha256: string -> string
    const hashPassword: string -> string
    const comparePassword: (string, string) -> bool
    const signToken: (UserId, string) -> string
    const resetTokenExpiry: Option<int>

    ghost predicate Valid()
      reads this
    {
      WellFormed(users, nextId)
    }

    constructor (sha256: string -> string, hashPassword: string -> string,
                 comparePassword: (string, string) -> bool,
                 signToken: (UserId, string) -> string, resetTokenExpiry: Option<int>)
      ensures Valid() && users == []
      ensures this.sha256 == sha256 && this.hashPassword == hashPassword
      ensures this.comparePassword == comparePassword && this.signToken == signToken
      ensures this.resetTokenExpiry == resetTokenExpiry
    {
      users := [];
      nextId := 0;
      this.sha256 := sha256;
      this.hashPassword := hashPassword;
      this.comparePassword := comparePassword;
      this.signToken := signToken;
      this.resetTokenExpiry := resetTokenExpiry;
    }

    /** The record the store creates for a signup; it meets the per-record part of the store invariant. */
    function NewUser(email: string, password: string, name: string, now: int): (u: User)
      reads this
      ensures u.id == nextId && IsNormalizedEmail(u.email) && ResetFieldsPaired(u)
    {
      User(nextId, name, FormatEmail(email), hashPassword(password), None, None, now)
    }

    /**
     * signup: rejects a missing field, then an already registered normalised
     * email, leaving the store unchanged; otherwise appends exactly one record,
     * whose email is the normalised one, and answers with a session token and
     * the public fields only.
     */
    method Signup(email: Option<string>, password: Option<string>, name: Option<string>, now: int)
      returns (res: Response)
      requires Valid()
      modifies this
      ensures Valid()
      ensures Missing(email) || Missing(password) || Missing(name) ==>
                res == Failure(400, "All fields are required")
                && users == old(users) && nextId == old(nextId)
      ensures !Missing(email) && !Missing(password) && !Missing(name)
              && FindOne(old(users), ByEmail(FormatEmail(email.value))).Some? ==>
                res == Failure(400, "User already exists with this email")
                && users == old(users) && nextId == old(nextId)
      ensures !Missing(email) && !Missing(password) && !Missing(name)
              && FindOne(old(users), ByEmail(FormatEmail(email.value))).None? ==>
                var u := old(NewUser(email.value, password.value, name.value, now));
                && users == old(users) + [u]
                && nextId == old(nextId) + 1
                && res == Response(201, true, Some("Account created successfully"),
                                   Session(signToken(u.id, u.email), PublicView(u)))
      ensures res.success <==> |users| == |old(users)| + 1
    {
      if Missing(email) || Missing(password) || Missing(name) {
        return Failure(400, "All fields are required");
      }
      var normalized := FormatEmail(email.value);
      var existing := FindOne(users, ByEmail(normalized));
      if existing.Some? {
        return Failure(400, "User already exists with this email");
      }
      var u := NewUser(email.value, password.value, name.value, now);
      CreateUser(u);
      var token := signToken(u.id, u.email);
      res := Response(201, true, Some("Account created successfully"), Session(token, PublicView(u)));
    }

    /**
     * The store's `create`: appends a record that takes the next identifier
     * and carries a normalised email no record has yet.
     */
    method CreateUser(u: User)
      requires Valid()
      requires u.id == nextId && IsNormalizedEmail(u.email) && ResetFieldsPaired(u)
      requires FindOne(users, ByEmail(u.email)).None?
      modifies this
      ensures Valid()
      ensures users == old(users) + [u] && nextId == old(nextId) + 1
    {
      AppendKeepsWellFormed(users, nextId, u);
      users := users + [u];
      nextId := nextId + 1;
    }

    /**
     * login: a missing field gives 400; an unknown email and a wrong password
     * give the very same 401 response; otherwise a session token. Never
     * changes the store.
     */
    method Login(email: Option<string>, password: Option<string>) returns (res: Response)
      ensures Missing(email) || Missing(password) ==> res == Failure(400, "Email and password are required")
      ensures !Missing(email) && !Missing(password) ==>
                match FindOne(users, ByEmail(FormatEmail(email.value)))
                case None => res == InvalidCredentials
                case Some(i) =>
                  if comparePassword(password.value, users[i].password)
                  then res == Response(200, true, Some("Login successful"),
                                       Session(signToken(users[i].id, users[i].email), PublicView(users[i])))
                  else res == InvalidCredentials
      ensures res.status == 401 ==> res == InvalidCredentials
    {
      if Missing(email) || Missing(password) {
        return Failure(400, "Email and password are required");
      }
      var found := FindOne(users, ByEmail(FormatEmail(email.value)));
      if found.None? {
        return InvalidCredentials;
      }
      var user := users[found.value];
      if !comparePassword(password.value, user.password) {
        return InvalidCredentials;
      }
      var token := signToken(user.id, user.email);
      res := Response(200, true, Some("Login successful"), Session(token, PublicView(user)));
    }

    /**
     * getProfile: 404 for an unknown id; otherwise exactly the id, name, email
     * and creation time of that record. Never changes the store.
     */
    method GetProfile(userId: UserId) returns (res: Response)
      ensures FindOne(users, ById(userId)).None? ==> res == Failure(404, "User not found")
      ensures FindOne(users, ById(userId)).Some? ==>
                var u := users[FindOne(users, ById(userId)).value];
                res == Response(200, true, None, Profile(ProfileUser(u.id, u.name, u.email, u.createdAt)))
      ensures res.success ==> res.payload.Profile? && res.payload.profile.id == userId
    {
      var found := FindOne(users, ById(userId));
      if found.None? {
        return Failure(404, "User not found");
      }
      var u := users[found.value];
      res := Response(200, true, None, Profile(ProfileUser(u.id, u.name, u.email, u.createdAt)));
    }

    /**
     * forgotPassword: on a known email, stores the digest of `rawToken` and
     * the expiry `now + ttl` and reports success when the email is sent; when
     * the send fails, both reset fields are removed again and the answer is
     * 500. A missing or unknown email leaves the store unchanged.
     */
    method ForgotPassword(email: Option<string>, rawToken: string, now: int, emailSent: bool)
      returns (res: Response)
      requires Valid()
      modifies this
      ensures Valid()
      ensures nextId == old(nextId)
      ensures Missing(email) ==> res == Failure(400, "Email is required") && users == old(users)
      ensures !Missing(email) && FindOne(old(users), ByEmail(FormatEmail(email.value))).None? ==>
                res == Failure(404, "User not found with this email address") && users == old(users)
      ensures !Missing(email) && FindOne(old(users), ByEmail(FormatEmail(email.value))).Some? ==>
                var i := FindOne(old(users), ByEmail(FormatEmail(email.value))).value;
                if emailSent then
                  && users == old(users)[i := old(users)[i].(
                       resetPasswordToken := Some(sha256(rawToken)),
                       resetPasswordExpires := Some(now + ResetTokenTtl(resetTokenExpiry)))]
                  && res == Response(200, true, Some("Password reset link sent to your email"), NoPayload)
                else
                  && users == old(users)[i := ClearReset(old(users)[i])]
                  && res == Failure(500, "Error sending email. Please try again later.")
      ensures |users| == |old(users)|
    {
      if Missing(email) {
        return Failure(400, "Email is required");
      }
      var found := FindOne(users, ByEmail(FormatEmail(email.value)));
      if found.None? {
        return Failure(404, "User not found with this email address");
      }
      res := IssueResetToken(found.value, rawToken, now, emailSent);
    }

    /**
     * The part of forgotPassword after the lookup: store the digest and the
     * expiry on record `i`, then, if the send failed, remove both again.
     */
    method IssueResetToken(i: nat, rawToken: string, now: int, emailSent: bool) returns (res: Response)
      requires Valid() && i < |users|
      modifies this
      ensures Valid()
      ensures nextId == old(nextId)
      ensures emailSent ==>
                && users == old(users)[i := old(users)[i].(
                     resetPasswordToken := Some(sha256(rawToken)),
                     resetPasswordExpires := Some(now + ResetTokenTtl(resetTokenExpiry)))]
                && res == Response(200, true, Some("Password reset link sent to your email"), NoPayload)
      ensures !emailSent ==>
                && users == old(users)[i := ClearReset(old(users)[i])]
                && res == Failure(500, "Error sending email. Please try again later.")
    {
      ghost var before := users;
      var user := users[i];
      user := user.(resetPasswordToken := Some(sha256(rawToken)));
      var expiryTime := ResetTokenTtl(resetTokenExpiry);
      user := user.(resetPasswordExpires := Some(now + expiryTime));
      UpdateKeepsWellFormed(users, nextId, i, user);
      users := users[i := user];
      if emailSent {
        res := Response(200, true, Some("Password reset link sent to your email"), NoPayload);
      } else {
        // the send failed: roll both reset fields back on the same record
        user := user.(resetPasswordToken := None);
        user := user.(resetPasswordExpires := None);
        UpdateKeepsWellFormed(users, nextId, i, user);
        users := users[i := user];
        assert users == before[i := ClearReset(before[i])];
        res := Failure(500, "Error sending email. Please try again later.");
      }
    }

    /**
     * resetPassword: checks, in this order, missing input, a new password
     * shorter than 8, no record holding the token's digest, and expiry; every
     * rejection leaves the store unchanged. Success replaces the password hash
     * and clears both reset fields of that one record.
     */
    method ResetPassword(token: Option<string>, newPassword: Option<string>, now: int)
      returns (res: Response)
      requires Valid()
      modifies this
      ensures Valid()
      ensures nextId == old(nextId)
      ensures Missing(token) || Missing(newPassword) ==>
                res == Failure(400, "Token and new password are required") && users == old(users)
      ensures !Missing(token) && !Missing(newPassword) && |newPassword.value| < 8 ==>
                res == Failure(400, "Password must be at least 8 characters") && users == old(users)
      ensures !Missing(token) && !Missing(newPassword) && |newPassword.value| >= 8 ==>
                match CheckResetToken(old(users), sha256(token.value), now)
                case NoMatch => res == InvalidResetToken && users == old(users)
                case Expired(_) =>
                  res == Failure(400, "Reset token has expired. Please request a new one.") && users == old(users)
                case Usable(i) =>
                  && users == old(users)[i := ClearReset(old(users)[i]).(password := hashPassword(newPassword.value))]
                  && res == Response(200, true, Some("Password has been reset successfully"), NoPayload)
      ensures res.success ==> !Missing(token)
      ensures res.success && old(AtMostOneHolder(users, sha256(token.value))) ==>
                forall later :: CheckResetToken(users, sha256(token.value), later) == NoMatch
    {
      if Missing(token) || Missing(newPassword) {
        return Failure(400, "Token and new password are required");
      }
      if |newPassword.value| < 8 {
        return Failure(400, "Password must be at least 8 characters");
      }
      var hashedToken := sha256(token.value);
      var found := FindOne(users, ByResetToken(hashedToken));
      if found.None? {
        return InvalidResetToken;
      }
      var i := found.value;
      var user := users[i];
      if !IsResetTokenValid(user, now) {
        return Failure(400, "Reset token has expired. Please request a new one.");
      }
      ghost var before := users;
      user := user.(password := hashPassword(newPassword.value));
      user := user.(resetPasswordToken := None);
      user := user.(resetPasswordExpires := None);
      UpdateKeepsWellFormed(users, nextId, i, user);
      users := users[i := user];
      res := Response(200, true, Some("Password has been reset successfully"), NoPayload);
      forall later | AtMostOneHolder(before, hashedToken)
        ensures CheckResetToken(users, hashedToken, later) == NoMatch
      {
        ClearedTokenNotFound(before, i, hashedToken, user, later);
      }
    }

    /**
     * verifyResetToken: the same lookup and expiry check as resetPassword,
     * with its own expiry message. Never changes the store.
     */
    method VerifyResetToken(token: Option<string>, now: int) returns (res: Response)
      ensures Missing(token) ==> res == Failure(400, "Token is required")
      ensures !Missing(token) ==>
                match CheckResetToken(users, sha256(token.value), now)
                case NoMatch => res == InvalidResetToken
                case Expired(_) => res == Failure(400, "Reset token has expired")
                case Usable(_) => res == Response(200, true, Some("Token is valid"), NoPayload)
    {
      if Missing(token) {
        return Failure(400, "Token is required");
      }
      var hashedToken := sha256(token.value);
      var found := FindOne(users, ByResetToken(hashedToken));
      if found.None? {
        return InvalidResetToken;
      }
      if !IsResetTokenValid(users[found.value], now) {
        return Failure(400, "Reset token has expired");
      }
      res := Response(200, true, Some("Token is valid"), NoPayload);
    }
  }

  // ---------------------------------------------------------------------------
  // Clients: what a caller can conclude from the handlers' contracts alone
  // ---------------------------------------------------------------------------

  ghost predicate Injective(f: string -> string)
  {
    forall a, b :: f(a) == f(b) ==> a == b
  }

  /**
   * Signing up and then logging in with the same password and an email that
   * normalises to the same address succeeds for the new account, provided the
   * password comparison accepts a password against its own hash.
   */
  method SignupThenLogin(c: AuthController, email: string, loginEmail: string, password: string,
                         name: string, now: int)
    returns (signedUp: Response, loggedIn: Response)
    requires c.Valid()
    requires loginEmail != "" && FormatEmail(loginEmail) == FormatEmail(email)
    requires c.comparePassword(password, c.hashPassword(password))
    modifies c
    ensures c.Valid()
    ensures signedUp.success ==>
              && loggedIn.success && loggedIn.status == 200
              && loggedIn.payload.Session? && signedUp.payload.Session?
              && loggedIn.payload.user == signedUp.payload.user
  {
    ghost var before := c.users;
    signedUp := c.Signup(Some(email), Some(password), Some(name), now);
    if signedUp.success {
      var normalized := FormatEmail(email);
      assert FindOne(before, ByEmail(normalized)).None?;
      var u := c.users[|before|];
      assert c.users == before + [u] && u.email == normalized;
      FindAppended(before, u, ByEmail(normalized));
      assert u.password == c.hashPassword(password);
    }
    loggedIn := c.Login(Some(loginEmail), Some(password));
    if signedUp.success {
      assert FindOne(c.users, ByEmail(FormatEmail(loginEmail))) == Some(|before|);
    }
  }

  /**
   * A reset token works at most once: after a successful reset with it, a
   * second reset with the same raw token is refused as invalid, provided no
   * other record carried the same digest.
   */
  method ResetTokenSingleUse(c: AuthController, rawToken: string, first: string, second: string,
                             now: int, later: int)
    returns (firstReset: Response, secondReset: Response)
    requires c.Valid()
    requires AtMostOneHolder(c.users, c.sha256(rawToken)) && |second| >= 8
    modifies c
    ensures c.Valid()
    ensures firstReset.success ==> secondReset == InvalidResetToken
  {
    firstReset := c.ResetPassword(Some(rawToken), Some(first), now);
    secondReset := c.ResetPassword(Some(rawToken), Some(second), later);
  }

  /**
   * verifyResetToken, asked first, predicts resetPassword: for a present token
   * and an acceptable password the two succeed together and reject an unknown
   * token together.
   */
  method VerifyPredictsReset(c: AuthController, rawToken: string, newPassword: string, now: int)
    returns (verified: Response, reset: Response)
    requires c.Valid()
    requires rawToken != "" && |newPassword| >= 8
    modifies c
    ensures c.Valid()
    ensures && (verified.success <==> reset.success)
              && (verified == InvalidResetToken <==> reset == InvalidResetToken)
  {
    verified := c.VerifyResetToken(Some(rawToken), now);
    reset := c.ResetPassword(Some(rawToken), Some(newPassword), now);
  }

  /**
   * A successful forgotPassword with a token whose digest no record held
   * before: the record found by the email holds the new digest and its expiry,
   * and it is the only holder of that digest.
   */
  method ForgotWithFreshToken(c: AuthController, email: string, rawToken: string, now: int)
    returns (forgot: Response, ghost i: nat)
    requires c.Valid()
    requires CheckResetToken(c.users, c.sha256(rawToken), now) == NoMatch
    modifies c
    ensures c.Valid()
    ensures forgot.success ==>
              && i < |c.users|
              && FindOne(c.users, ByEmail(FormatEmail(email))) == Some(i)
              && c.users[i].resetPasswordToken == Some(c.sha256(rawToken))
              && c.users[i].resetPasswordExpires == Some(now + ResetTokenTtl(c.resetTokenExpiry))
              && OnlyHolder(c.users, c.sha256(rawToken), i)
  {
    ghost var before := c.users;
    forgot := c.ForgotPassword(Some(email), rawToken, now, true);
    i := 0;
    if forgot.success {
      var normalized := FormatEmail(email);
      i := FindOne(before, ByEmail(normalized)).value;
      assert c.users == before[i := c.users[i]];
      NewTokenOnlyHolder(before, i, c.sha256(rawToken), c.users[i]);
      FindByEmailAfterUpdate(before, i, c.users[i], normalized);
    }
  }

  /**
   * Round trip: the raw token of a successful forgotPassword resets the
   * password exactly while the clock is before the stored expiry, provided no
   * record carried its digest before.
   */
  method ForgotThenReset(c: AuthController, email: string, rawToken: string, newPassword: string,
                         now: int, later: int)
    returns (forgot: Response, reset: Response)
    requires c.Valid()
    requires rawToken != "" && |newPassword| >= 8
    requires CheckResetToken(c.users, c.sha256(rawToken), now) == NoMatch
    modifies c
    ensures c.Valid()
    ensures forgot.success ==>
              && (reset.success <==> later < now + ResetTokenTtl(c.resetTokenExpiry))
              && (!reset.success ==> reset == Failure(400, "Reset token has expired. Please request a new one."))
  {
    ghost var i;
    forgot, i := ForgotWithFreshToken(c, email, rawToken, now);
    if forgot.success {
      OnlyHolderIsFound(c.users, c.sha256(rawToken), i, later);
    }
    reset := c.ResetPassword(Some(rawToken), Some(newPassword), later);
  }

  /**
   * A second forgotPassword for the same email replaces the first token: with
   * an injective digest and two different raw tokens, the first raw token is
   * refused afterwards.
   */
  method ReissueInvalidatesEarlier(c: AuthController, email: string, raw1: string, raw2: string,
                                   newPassword: string, now1: int, now2: int, later: int)
    returns (forgot1: Response, forgot2: Response, reset: Response)
    requires c.Valid()
    requires Injective(c.sha256) && raw1 != raw2 && raw1 != "" && |newPassword| >= 8
    requires CheckResetToken(c.users, c.sha256(raw1), now1) == NoMatch
    modifies c
    ensures c.Valid()
    ensures forgot1.success && forgot2.success ==> reset == InvalidResetToken
  {
    ghost var i;
    forgot1, i := ForgotWithFreshToken(c, email, raw1, now1);
    ghost var s1 := c.users;
    forgot2 := c.ForgotPassword(Some(email), raw2, now2, true);
    if forgot1.success && forgot2.success {
      assert c.sha256(raw1) != c.sha256(raw2);
      ReissuedTokenReplacesOld(s1, i, c.sha256(raw1), c.sha256(raw2),
                               now2 + ResetTokenTtl(c.resetTokenExpiry), later);
    }
    reset := c.ResetPassword(Some(raw1), Some(newPassword), later);
  }
}
