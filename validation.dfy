/**
 * The front end's form-validation helpers: email normalisation, the email
 * pattern, the password rules and the confirmation check.
 *
 * Characters are Unicode scalar values. Lower-casing is modelled over ASCII
 * only; whitespace is the full set that JavaScript's `trim` strips and that
 * the regular-expression class `\s` matches.
 */
module Validation {

  /** JavaScript's WhiteSpace and LineTerminator code points. */
  predicate IsWhitespace(c: char)
  {
    || c == '\t' || c == '\n' || c == '\U{000B}' || c == '\U{000C}' || c == '\r'
    || c == ' ' || c == '\U{00A0}' || c == '\U{1680}'
    || ('\U{2000}' <= c <= '\U{200A}')
    || c == '\U{2028}' || c == '\U{2029}' || c == '\U{202F}' || c == '\U{205F}'
    || c == '\U{3000}' || c == '\U{FEFF}'
  }

  predicate IsUpper(c: char) { 'A' <= c <= 'Z' }
  predicate IsLower(c: char) { 'a' <= c <= 'z' }
  predicate IsDigit(c: char) { '0' <= c <= '9' }

  // ---------------------------------------------------------------------------
  // Lower-casing and trimming
  // ---------------------------------------------------------------------------

  function LowerChar(c: char): (d: char)
    ensures !IsUpper(d)
    ensures IsWhitespace(d) <==> IsWhitespace(c)
    ensures !IsUpper(c) ==> d == c
    ensures IsUpper(c) ==> IsLower(d) && d as int - 'a' as int == c as int - 'A' as int
  {
    if IsUpper(c) then (c as int + 32) as char else c
  }

  /** `toLowerCase`, restricted to ASCII letters. */
  function ToLower(s: string): (r: string)
    ensures |r| == |s|
    ensures forall i :: 0 <= i < |s| ==> r[i] == LowerChar(s[i])
  {
    if s == [] then [] else [LowerChar(s[0])] + ToLower(s[1..])
  }

  predicate AllWhitespace(s: string)
  {
    forall i :: 0 <= i < |s| ==> IsWhitespace(s[i])
  }

  /** Neither the first nor the last character is whitespace. */
  predicate NoEdgeWhitespace(s: string)
  {
    s == [] || (!IsWhitespace(s[0]) && !IsWhitespace(s[|s| - 1]))
  }

  /** Drops the leading whitespace: the result is the longest suffix not starting with whitespace. */
  function TrimStart(s: string): (r: string)
    ensures |r| <= |s| && r == s[|s| - |r|..]
    ensures AllWhitespace(s[..|s| - |r|])
    ensures r == [] || !IsWhitespace(r[0])
  {
    if s != [] && IsWhitespace(s[0]) then TrimStart(s[1..]) else s
  }

  /** Drops the trailing whitespace: the result is the longest prefix not ending in whitespace. */
  function TrimEnd(s: string): (r: string)
    ensures |r| <= |s| && r == s[..|r|]
    ensures AllWhitespace(s[|r|..])
    ensures r == [] || !IsWhitespace(r[|r| - 1])
  {
    if s != [] && IsWhitespace(s[|s| - 1]) then TrimEnd(s[..|s| - 1]) else s
  }

  /** `trim`: the result has no edge whitespace, and a string without edge whitespace is its own trim. */
  function Trim(s: string): (r: string)
    ensures NoEdgeWhitespace(r)
    ensures NoEdgeWhitespace(s) ==> r == s
    ensures forall i :: 0 <= i < |r| ==> r[i] in s
  {
    TrimEnd(TrimStart(s))
  }

  /** Trim removes whitespace at the two ends and nothing else. */
  lemma TrimIsInfix(s: string)
    ensures exists i, j :: 0 <= i <= j <= |s| && Trim(s) == s[i..j]
                           && AllWhitespace(s[..i]) && AllWhitespace(s[j..])
  {
    var t := TrimStart(s);
    var i := |s| - |t|;
    var r := TrimEnd(t);
    var j := i + |r|;
    assert r == s[i..j];
    assert s[j..] == t[|r|..];
  }

  // ---------------------------------------------------------------------------
  // formatEmail
  // ---------------------------------------------------------------------------

  /** `formatEmail`: lower-case, then trim. The result has no edge whitespace and no upper-case letter. */
  function FormatEmail(email: string): (r: string)
    ensures NoEdgeWhitespace(r)
    ensures forall i :: 0 <= i < |r| ==> !IsUpper(r[i])
  {
    Trim(ToLower(email))
  }

  /** An email in the normal form the back end stores: no edge whitespace, no upper-case letter. */
  predicate IsNormalizedEmail(email: string)
  {
    NoEdgeWhitespace(email) && forall i :: 0 <= i < |email| ==> !IsUpper(email[i])
  }

  lemma {:induction false} FormatEmailIdempotent(email: string)
    ensures FormatEmail(FormatEmail(email)) == FormatEmail(email)
  {
    var r := FormatEmail(email);
    assert ToLower(r) == r;
  }

  lemma {:induction false} LowerTrimStartCommute(s: string)
    ensures TrimStart(ToLower(s)) == ToLower(TrimStart(s))
    decreases |s|
  {
    if s != [] && IsWhitespace(s[0]) {
      assert ToLower(s)[1..] == ToLower(s[1..]);
      LowerTrimStartCommute(s[1..]);
    }
  }

  lemma {:induction false} LowerTrimEndCommute(s: string)
    ensures TrimEnd(ToLower(s)) == ToLower(TrimEnd(s))
    decreases |s|
  {
    if s != [] && IsWhitespace(s[|s| - 1]) {
      assert ToLower(s)[..|s| - 1] == ToLower(s[..|s| - 1]);
      LowerTrimEndCommute(s[..|s| - 1]);
    }
  }

  /** The order of the two steps does not matter: trimming first gives the same email. */
  lemma FormatEmailTrimFirst(email: string)
    ensures FormatEmail(email) == ToLower(Trim(email))
  {
    LowerTrimStartCommute(email);
    LowerTrimEndCommute(TrimStart(email));
  }

  /** The normalised emails are exactly the fixed points of FormatEmail. */
  lemma NormalizedIsFixedPoint(email: string)
    ensures IsNormalizedEmail(email) <==> FormatEmail(email) == email
  {
    if IsNormalizedEmail(email) {
      assert ToLower(email) == email;
    }
  }

  // ---------------------------------------------------------------------------
  // isValidEmail
  // ---------------------------------------------------------------------------

  /** A character of the class `[^\s@]`. */
  predicate IsPlain(c: char) { !IsWhitespace(c) && c != '@' }

  predicate AllPlain(s: string)
  {
    forall i :: 0 <= i < |s| ==> IsPlain(s[i])
  }

  /**
   * `isValidEmail`: the pattern `^[^\s@]+@[^\s@]+\.[^\s@]+$`, read as the
   * choice of the position of its '@' and of its '.'.
   */
  function IsValidEmail(email: string): (r: bool)
    ensures r ==> 5 <= |email| && IsPlain(email[0]) && IsPlain(email[|email| - 1])
  {
    var r := exists at, dot | 0 < at < |email| && 0 < dot < |email| ::
      && at + 1 < dot && dot + 1 < |email|
      && email[at] == '@' && email[dot] == '.'
      && AllPlain(email[..at]) && AllPlain(email[at + 1..dot]) && AllPlain(email[dot + 1..]);
    assert r ==> IsPlain(email[0]) && IsPlain(email[|email| - 1]) by {
      if r {
        var at, dot :| 0 < at < |email| && 0 < dot < |email|
          && at + 1 < dot && dot + 1 < |email|
          && email[at] == '@' && email[dot] == '.'
          && AllPlain(email[..at]) && AllPlain(email[at + 1..dot]) && AllPlain(email[dot + 1..]);
        assert email[0] == email[..at][0];
        assert email[|email| - 1] == email[dot + 1..][|email| - dot - 2];
      }
    }
    r
  }

  /** The domain part has a '.' that is neither its first nor its last character. */
  predicate HasInnerDot(domain: string)
  {
    exists k | 0 < k < |domain| - 1 :: domain[k] == '.'
  }

  /** The shape of a valid address, stated without the pattern. */
  ghost predicate WellFormedAddress(email: string)
  {
    && (forall i :: 0 <= i < |email| ==> !IsWhitespace(email[i]))
    && exists at :: 0 < at < |email| && email[at] == '@'
         && (forall k :: 0 <= k < |email| && email[k] == '@' ==> k == at)
         && HasInnerDot(email[at + 1..])
  }

  lemma PatternMatchIsWellFormed(email: string, at: int, dot: int)
    requires 0 < at && at + 1 < dot && dot + 1 < |email|
    requires email[at] == '@' && email[dot] == '.'
    requires AllPlain(email[..at]) && AllPlain(email[at + 1..dot]) && AllPlain(email[dot + 1..])
    ensures WellFormedAddress(email)
  {
    forall i | 0 <= i < |email| && i != at && i != dot
      ensures IsPlain(email[i])
    {
      if i < at {
        assert email[i] == email[..at][i];
      } else if i < dot {
        assert email[i] == email[at + 1..dot][i - at - 1];
      } else {
        assert email[i] == email[dot + 1..][i - dot - 1];
      }
    }
    var domain := email[at + 1..];
    assert domain[dot - at - 1] == '.';
    assert HasInnerDot(domain);
  }

  lemma WellFormedMatchesPattern(email: string, at: int)
    requires forall i :: 0 <= i < |email| ==> !IsWhitespace(email[i])
    requires 0 < at < |email| && email[at] == '@'
    requires forall k :: 0 <= k < |email| && email[k] == '@' ==> k == at
    requires HasInnerDot(email[at + 1..])
    ensures IsValidEmail(email)
  {
  }

  /**
   * An email matches the pattern exactly when it has no whitespace, exactly one
   * '@' with something before it, and an inner '.' after it.
   */
  lemma IsValidEmailCharacterized(email: string)
    ensures IsValidEmail(email) <==> WellFormedAddress(email)
  {
    if IsValidEmail(email) {
      var at, dot :| 0 < at < |email| && 0 < dot < |email|
        && at + 1 < dot && dot + 1 < |email|
        && email[at] == '@' && email[dot] == '.'
        && AllPlain(email[..at]) && AllPlain(email[at + 1..dot]) && AllPlain(email[dot + 1..]);
      PatternMatchIsWellFormed(email, at, dot);
    }
    if WellFormedAddress(email) {
      var at :| 0 < at < |email| && email[at] == '@'
        && (forall k :: 0 <= k < |email| && email[k] == '@' ==> k == at)
        && HasInnerDot(email[at + 1..]);
      WellFormedMatchesPattern(email, at);
    }
  }

  // ---------------------------------------------------------------------------
  // validatePassword
  // ---------------------------------------------------------------------------

  const LengthMessage := "Password must be at least 8 characters"
  const UppercaseMessage := "Password must contain at least one uppercase letter"
  const LowercaseMessage := "Password must contain at least one lowercase letter"
  const NumberMessage := "Password must contain at least one number"

  /** The four rules, in the order in which they are checked. */
  const PasswordRules := [LengthMessage, UppercaseMessage, LowercaseMessage, NumberMessage]

  predicate HasUpper(s: string) { exists i | 0 <= i < |s| :: IsUpper(s[i]) }
  predicate HasLower(s: string) { exists i | 0 <= i < |s| :: IsLower(s[i]) }
  predicate HasDigit(s: string) { exists i | 0 <= i < |s| :: IsDigit(s[i]) }

  predicate IsStrongPassword(password: string)
  {
    |password| >= 8 && HasUpper(password) && HasLower(password) && HasDigit(password)
  }

  /** Whether `message` is one of the rules and the password breaks it. */
  predicate Breaks(password: string, message: string)
  {
    || (message == LengthMessage && |password| < 8)
    || (message == UppercaseMessage && !HasUpper(password))
    || (message == LowercaseMessage && !HasLower(password))
    || (message == NumberMessage && !HasDigit(password))
  }

  /** The position of a rule in PasswordRules (4 for anything else). */
  function RuleRank(message: string): (k: nat)
    ensures k < 4 <==> message in PasswordRules
    ensures k < 4 ==> PasswordRules[k] == message
  {
    if message == LengthMessage then 0
    else if message == UppercaseMessage then 1
    else if message == LowercaseMessage then 2
    else if message == NumberMessage then 3
    else 4
  }

  /**
   * `validatePassword`: collects the message of every broken rule. The list
   * holds exactly the broken rules, each once, in rule order, so it is empty
   * exactly for a strong password.
   */
  method ValidatePassword(password: string) returns (errors: seq<string>)
    ensures forall m :: m in errors <==> Breaks(password, m)
    ensures forall i, j :: 0 <= i < j < |errors| ==> RuleRank(errors[i]) < RuleRank(errors[j])
    ensures |errors| <= |PasswordRules|
    ensures errors == [] <==> IsStrongPassword(password)
    ensures |password| < 8 ==> errors != [] && errors[0] == LengthMessage
  {
    errors := [];
    if |password| < 8 {
      errors := errors + [LengthMessage];
    }
    if !HasUpper(password) {
      errors := errors + [UppercaseMessage];
    }
    if !HasLower(password) {
      errors := errors + [LowercaseMessage];
    }
    if !HasDigit(password) {
      errors := errors + [NumberMessage];
    }
  }

  // ---------------------------------------------------------------------------
  // passwordsMatch
  // ---------------------------------------------------------------------------

  /** `passwordsMatch`: strict equality, i.e. the same length and the same character at every position. */
  function PasswordsMatch(password: string, confirmPassword: string): (r: bool)
    ensures r <==> |password| == |confirmPassword|
                   && forall i :: 0 <= i < |password| ==> password[i] == confirmPassword[i]
  {
    password == confirmPassword
  }

  /** Matching is an equivalence: reflexive, symmetric and transitive. */
  lemma PasswordsMatchIsEquivalence(a: string, b: string, c: string)
    ensures PasswordsMatch(a, a)
    ensures PasswordsMatch(a, b) <==> PasswordsMatch(b, a)
    ensures PasswordsMatch(a, b) && PasswordsMatch(b, c) ==> PasswordsMatch(a, c)
  {
  }
}
