/**
 * The user records the authentication controller reads and writes, the
 * store's `findOne` lookup and the reset-token check shared by the reset and
 * verify handlers.
 */
module Users {
  import opened Wrappers
  import opened Validation

  /** An opaque record identifier, assigned once at creation. */
  type UserId = nat

  /**
   * One user record. `password` holds the password hash, never the plain
   * password; the two reset fields are set and cleared together.
   */
  datatype User = User(
    id: UserId,
    name: string,
    email: string,
    password: string,
    resetPasswordToken: Option<string>,
    resetPasswordExpires: Option<int>,
    createdAt: int)

  predicate ResetFieldsPaired(u: User)
  {
    u.resetPasswordToken.Some? == u.resetPasswordExpires.Some?
  }

  /**
   * The record with both reset fields removed: it matches no reset-token
   * lookup, and putting the two fields back gives the original record.
   */
  function ClearReset(u: User): (v: User)
    ensures ResetFieldsPaired(v)
    ensures forall h :: !Matches(v, ByResetToken(h))
    ensures v.(resetPasswordToken := u.resetPasswordToken, resetPasswordExpires := u.resetPasswordExpires) == u
  {
    u.(resetPasswordToken := None, resetPasswordExpires := None)
  }

  /** The filters the controller passes to the store. */
  datatype Query = ByEmail(email: string) | ById(id: UserId) | ByResetToken(tokenHash: string)

  predicate Matches(u: User, q: Query)
  {
    match q
    case ByEmail(e) => u.email == e
    case ById(id) => u.id == id
    case ByResetToken(h) => u.resetPasswordToken == Some(h)
  }

  /** `findOne` (and `findById`): the index of the first record that matches, if any. */
  function FindOne(users: seq<User>, q: Query): (r: Option<nat>)
    ensures r.None? <==> forall j :: 0 <= j < |users| ==> !Matches(users[j], q)
    ensures r.Some? ==> r.value < |users| && Matches(users[r.value], q)
    ensures r.Some? ==> forall j :: 0 <= j < r.value ==> !Matches(users[j], q)
  {
    if users == [] then None
    else if Matches(users[0], q) then Some(0)
    else match FindOne(users[1..], q)
      case None => None
      case Some(k) => Some(k + 1)
  }

  /**
   * The token-validity check of the user model: the expiry is present and
   * lies strictly after `now`.
   */
  function IsResetTokenValid(u: User, now: int): (r: bool)
    ensures r ==> u.resetPasswordExpires.Some?
  {
    u.resetPasswordExpires.Some? && now < u.resetPasswordExpires.value
  }

  /** Expiry is final: a token that is no longer valid stays invalid as the clock advances. */
  lemma ExpiryIsFinal(u: User, now: int, later: int)
    requires now <= later && !IsResetTokenValid(u, now)
    ensures !IsResetTokenValid(u, later)
  {
  }

  /** Outcome of looking a reset token up by its hash and checking its expiry. */
  datatype TokenCheck = NoMatch | Expired(index: nat) | Usable(index: nat)

  function CheckResetToken(users: seq<User>, tokenHash: string, now: int): (c: TokenCheck)
    ensures c.NoMatch? <==> forall j :: 0 <= j < |users| ==> users[j].resetPasswordToken != Some(tokenHash)
    ensures !c.NoMatch? ==> c.index < |users| && users[c.index].resetPasswordToken == Some(tokenHash)
    ensures !c.NoMatch? ==> (c.Usable? <==> IsResetTokenValid(users[c.index], now))
  {
    match FindOne(users, ByResetToken(tokenHash))
    case None => NoMatch
    case Some(i) => if IsResetTokenValid(users[i], now) then Usable(i) else Expired(i)
  }

  /** At most one record carries the token hash `h`. */
  ghost predicate AtMostOneHolder(users: seq<User>, h: string)
  {
    forall i, j ::
      0 <= i < |users| && 0 <= j < |users|
      && users[i].resetPasswordToken == Some(h) && users[j].resetPasswordToken == Some(h)
      ==> i == j
  }

  /** No record other than number `i` carries the token hash `h`. */
  ghost predicate OnlyHolder(users: seq<User>, h: string, i: nat)
  {
    forall j :: 0 <= j < |users| && j != i ==> users[j].resetPasswordToken != Some(h)
  }

  /**
   * The store invariant: identifiers below the next one to assign and distinct,
   * emails in normal form and distinct, reset fields paired.
   */
  ghost predicate WellFormed(users: seq<User>, nextId: nat)
  {
    && (forall i :: 0 <= i < |users| ==>
          users[i].id < nextId && IsNormalizedEmail(users[i].email) && ResetFieldsPaired(users[i]))
    && (forall i, j :: 0 <= i < j < |users| ==> users[i].id != users[j].id)
    && (forall i, j :: 0 <= i < j < |users| ==> users[i].email != users[j].email)
  }

  /** A record appended to a store where nothing matched is the one found. */
  lemma FindAppended(users: seq<User>, u: User, q: Query)
    requires FindOne(users, q).None? && Matches(u, q)
    ensures FindOne(users + [u], q) == Some(|users|)
  {
    var after := users + [u];
    var r := FindOne(after, q);
    assert Matches(after[|users|], q);
    assert r.Some?;
  }

  /** Appending a record with a fresh identifier and a new normalised email keeps the store well formed. */
  lemma AppendKeepsWellFormed(users: seq<User>, nextId: nat, u: User)
    requires WellFormed(users, nextId)
    requires u.id == nextId && IsNormalizedEmail(u.email) && ResetFieldsPaired(u)
    requires forall j :: 0 <= j < |users| ==> users[j].email != u.email
    ensures WellFormed(users + [u], nextId + 1)
  {
  }

  /** Changing a record's password or reset fields, keeping them paired, keeps the store well formed. */
  lemma UpdateKeepsWellFormed(users: seq<User>, nextId: nat, i: nat, v: User)
    requires WellFormed(users, nextId)
    requires i < |users| && v.id == users[i].id && v.email == users[i].email
    requires ResetFieldsPaired(v)
    ensures WellFormed(users[i := v], nextId)
  {
  }

  /** In a well-formed store the record found by email is the only one with that email. */
  lemma EmailIdentifiesRecord(users: seq<User>, nextId: nat, email: string, i: nat)
    requires WellFormed(users, nextId)
    requires FindOne(users, ByEmail(email)) == Some(i)
    ensures forall j :: 0 <= j < |users| && users[j].email == email ==> j == i
  {
  }

  /**
   * Single use: once the only record carrying a token hash has its reset fields
   * cleared, looking the hash up finds nothing.
   */
  lemma ClearedTokenNotFound(users: seq<User>, i: nat, h: string, u: User, now: int)
    requires i < |users| && OnlyHolder(users, h, i)
    requires u.resetPasswordToken.None?
    ensures CheckResetToken(users[i := u], h, now) == NoMatch
  {
  }

  /**
   * Overwrite: when the only record carrying `h1` is given a different token
   * hash, `h1` no longer matches any record.
   */
  lemma ReissuedTokenReplacesOld(users: seq<User>, i: nat, h1: string, h2: string, expires: int, now: int)
    requires i < |users| && OnlyHolder(users, h1, i)
    requires h1 != h2
    ensures CheckResetToken(users[i := users[i].(resetPasswordToken := Some(h2), resetPasswordExpires := Some(expires))], h1, now) == NoMatch
  {
  }

  /** When record `i` alone holds a digest, the reset-token check lands on it. */
  lemma OnlyHolderIsFound(users: seq<User>, h: string, i: nat, now: int)
    requires i < |users| && users[i].resetPasswordToken == Some(h) && OnlyHolder(users, h, i)
    ensures CheckResetToken(users, h, now) == if IsResetTokenValid(users[i], now) then Usable(i) else Expired(i)
  {
  }

  /** Changing a record without changing its email does not change what a lookup by email finds. */
  lemma {:induction false} FindByEmailAfterUpdate(users: seq<User>, i: nat, v: User, e: string)
    requires i < |users| && v.email == users[i].email
    ensures FindOne(users[i := v], ByEmail(e)) == FindOne(users, ByEmail(e))
  {
    var after := users[i := v];
    if i == 0 {
      assert after[1..] == users[1..];
    } else {
      assert after[1..] == users[1..][i - 1 := v];
      FindByEmailAfterUpdate(users[1..], i - 1, v, e);
    }
  }

  /** A record that is the first holder of a hash after it is set, and was not a holder before, holds it alone. */
  lemma NewTokenOnlyHolder(users: seq<User>, i: nat, h: string, v: User)
    requires i < |users|
    requires forall j :: 0 <= j < |users| ==> users[j].resetPasswordToken != Some(h)
    ensures OnlyHolder(users[i := v], h, i)
  {
  }
}
