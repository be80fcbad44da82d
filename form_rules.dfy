/**
 * The field rules shared by the sign-up and login forms: the unanchored email pattern
 * `\S+@\S+\.\S+`, the required-field and minimum-length checks, and their messages.
 */
module FormRules {
  import opened Wrappers
  import opened Text

  const EmailRequired := "Email is required"
  const InvalidEmailFormat := "Invalid email format"
  const UsernameRequired := "Username is required"
  const PasswordRequired := "Password is required"
  const PasswordTooShort := "Password must be at least 6 characters"
  const MinPasswordLength := 6

  /** The keys of the `errors` object of a form. */
  datatype Field = Email | Username | Password | General

  type Errors = map<Field, string>

  /**
   * The pattern matches the substring `s[a..e]`: a run before '@' at `p`, a run up to '.' at `d`
   * and a run after it, all three non-empty and free of white space.
   */
  predicate MatchesAt(s: string, a: int, p: int, d: int, e: int) {
    && 0 <= a < p && p + 1 < d && d + 1 < e <= |s|
    && s[p] == '@' && s[d] == '.'
    && NoSpace(s[a..p]) && NoSpace(s[p + 1..d]) && NoSpace(s[d + 1..e])
  }

  /** `/\S+@\S+\.\S+/.test(s)`: the pattern is not anchored, so any substring may match. */
  predicate EmailPatternTest(s: string) {
    exists a, p, d, e | 0 <= a < p < d < e <= |s| :: MatchesAt(s, a, p, d, e)
  }

  /**
   * What the test amounts to: some '@' with a non-space before it, and a later '.' with at least
   * one character between them and one after it, none of them white space.
   */
  predicate HasEmailShape(s: string) {
    exists p, d | 1 <= p && p + 2 <= d && d + 2 <= |s| :: s[p] == '@' && s[d] == '.' && NoSpace(s[p - 1..d + 2])
  }

  lemma EmailPatternShape(s: string)
    ensures EmailPatternTest(s) <==> HasEmailShape(s)
  {
    if EmailPatternTest(s) {
      var a, p, d, e :| 0 <= a < p < d < e <= |s| && MatchesAt(s, a, p, d, e);
      ShapeOfMatch(s, a, p, d, e);
    }
    if HasEmailShape(s) {
      var p, d :| 1 <= p && p + 2 <= d && d + 2 <= |s| && s[p] == '@' && s[d] == '.' && NoSpace(s[p - 1..d + 2]);
      MatchOfShape(s, p, d);
    }
  }

  lemma ShapeOfMatch(s: string, a: int, p: int, d: int, e: int)
    requires MatchesAt(s, a, p, d, e)
    ensures NoSpace(s[p - 1..d + 2]) && HasEmailShape(s)
  {
    forall i | p - 1 <= i < d + 2
      ensures !IsSpace(s[i])
    {
      if i < p { assert s[a..p][i - a] == s[i]; }
      else if p < i < d { assert s[p + 1..d][i - p - 1] == s[i]; }
      else if d < i { assert s[d + 1..e][i - d - 1] == s[i]; }
    }
  }

  lemma MatchOfShape(s: string, p: int, d: int)
    requires 1 <= p && p + 2 <= d && d + 2 <= |s| && s[p] == '@' && s[d] == '.' && NoSpace(s[p - 1..d + 2])
    ensures MatchesAt(s, p - 1, p, d, d + 2)
  {
    NoSpaceWithin(s, p - 1, d + 2, p - 1, p);
    NoSpaceWithin(s, p - 1, d + 2, p + 1, d);
    NoSpaceWithin(s, p - 1, d + 2, d + 1, d + 2);
  }

  /** A slice of a white-space-free slice is white-space free. */
  lemma NoSpaceWithin(s: string, lo: int, hi: int, a: int, b: int)
    requires 0 <= lo <= a <= b <= hi <= |s| && NoSpace(s[lo..hi])
    ensures NoSpace(s[a..b])
  {
    forall k | 0 <= k < b - a
      ensures !IsSpace(s[a..b][k])
    {
      assert s[a..b][k] == s[lo..hi][a - lo + k];
    }
  }

  /** Without an '@' nothing matches. */
  lemma NoAtSignNoMatch(s: string)
    requires '@' !in s
    ensures !EmailPatternTest(s)
  {
    forall a, p, d, e | 0 <= a < p < d < e <= |s|
      ensures !MatchesAt(s, a, p, d, e)
    {
      assert s[p] in s;
    }
  }

  /** Text around an address does not matter: the test is not anchored. */
  lemma SurroundedAddressMatches(pre: string, addr: string, post: string)
    requires EmailPatternTest(addr)
    ensures EmailPatternTest(pre + addr + post)
  {
    var a, p, d, e :| 0 <= a < p < d < e <= |addr| && MatchesAt(addr, a, p, d, e);
    var k := |pre|;
    ShiftedMatch(pre, addr, post, a, p, d, e);
    assert 0 <= k + a < k + p < k + d < k + e <= |pre + addr + post|;
  }

  /** A match inside the middle part of a concatenation is a match of the whole, shifted by the first part. */
  lemma ShiftedMatch(pre: string, addr: string, post: string, a: int, p: int, d: int, e: int)
    requires MatchesAt(addr, a, p, d, e)
    ensures MatchesAt(pre + addr + post, |pre| + a, |pre| + p, |pre| + d, |pre| + e)
  {
    var s, k := pre + addr + post, |pre|;
    assert s[k + p] == addr[p] && s[k + d] == addr[d];
    assert s[k + a..k + p] == addr[a..p];
    assert s[k + p + 1..k + d] == addr[p + 1..d];
    assert s[k + d + 1..k + e] == addr[d + 1..e];
  }

  /** The message `validate` stores under `email`, if any. */
  function EmailMessage(email: string): (m: Option<string>)
    ensures m.None? <==> email != "" && EmailPatternTest(email)
    ensures email == "" ==> m == Some(EmailRequired)
    ensures email != "" && !EmailPatternTest(email) ==> m == Some(InvalidEmailFormat)
  {
    if email == "" then Some(EmailRequired)
    else if !EmailPatternTest(email) then Some(InvalidEmailFormat)
    else None
  }

  /** The message `validate` stores under `password`, if any. */
  function PasswordMessage(password: string): (m: Option<string>)
    ensures m.None? <==> |password| >= MinPasswordLength
    ensures password == "" ==> m == Some(PasswordRequired)
    ensures password != "" && |password| < MinPasswordLength ==> m == Some(PasswordTooShort)
  {
    if password == "" then Some(PasswordRequired)
    else if |password| < MinPasswordLength then Some(PasswordTooShort)
    else None
  }

  /** The message `validate` stores under `username`, if any. */
  function UsernameMessage(username: string): (m: Option<string>)
    ensures m.None? <==> username != ""
    ensures username == "" ==> m == Some(UsernameRequired)
  {
    if username == "" then Some(UsernameRequired) else None
  }

  /** The errors object with the field's message added, when there is one. */
  function Record(errors: Errors, field: Field, message: Option<string>): (r: Errors)
    ensures field in r <==> field in errors || message.Some?
    ensures message.Some? ==> r[field] == message.value
    ensures forall f :: f != field ==> (f in r <==> f in errors) && (f in r ==> r[f] == errors[f])
  {
    if message.Some? then errors[field := message.value] else errors
  }
}
