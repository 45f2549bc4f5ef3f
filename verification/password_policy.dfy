/** The application's password policy (`validate_password`): a password is
    accepted when it is at least eight characters long and contains at least
    one lower-case and at least one upper-case letter. Digits and symbols are
    neither required nor counted. */
module PasswordPolicy {

  /** Minimum length, counted in characters (Unicode scalar values, as
      Python's `len` counts code points of a `str`). */
  const MinLength: nat := 8

  /** Python's `str.islower` on one character, restricted to ASCII letters. */
  predicate IsLower(c: char) {
    'a' <= c <= 'z'
  }

  /** Python's `str.isupper` on one character, restricted to ASCII letters. */
  predicate IsUpper(c: char) {
    'A' <= c <= 'Z'
  }

  /** Python's `any(pred(c) for c in s)`: scans the string from the left and
      stops at the first character satisfying `pred`. */
  function Any(s: string, pred: char -> bool): (r: bool)
    ensures r <==> exists i :: 0 <= i < |s| && pred(s[i])
  {
    if |s| == 0 then false
    else if pred(s[0]) then true
    else
      var rest := Any(s[1..], pred);
      assert forall i :: 1 <= i < |s| ==> s[i] == s[1..][i - 1];
      rest
  }

  /** The policy as the sign-up and reset pages state it to the user. */
  ghost predicate MeetsPolicy(p: string) {
    && |p| >= MinLength
    && (exists i :: 0 <= i < |p| && IsLower(p[i]))
    && (exists j :: 0 <= j < |p| && IsUpper(p[j]))
  }

  /** `validate_password(password)`. */
  function ValidatePassword(p: string): (ok: bool)
    ensures ok <==> MeetsPolicy(p)
  {
    |p| >= MinLength && Any(p, IsLower) && Any(p, IsUpper)
  }

  /** Digits and symbols are irrelevant: two passwords of the same length
      whose characters agree on being lower-case and on being upper-case
      letters are accepted or rejected together. */
  lemma OnlyLetterClassesMatter(p: string, q: string)
    requires |p| == |q|
    requires forall i :: 0 <= i < |p| ==> (IsLower(p[i]) <==> IsLower(q[i]))
    requires forall i :: 0 <= i < |p| ==> (IsUpper(p[i]) <==> IsUpper(q[i]))
    ensures ValidatePassword(p) == ValidatePassword(q)
  {
  }

  /** Appending characters of any kind never turns an accepted password into
      a rejected one. */
  lemma ExtensionStaysValid(p: string, suffix: string)
    requires ValidatePassword(p)
    ensures ValidatePassword(p + suffix)
  {
    var i :| 0 <= i < |p| && IsLower(p[i]);
    var j :| 0 <= j < |p| && IsUpper(p[j]);
    assert (p + suffix)[i] == p[i] && (p + suffix)[j] == p[j];
  }

  /** The worked examples of the policy: a mixed-case password with a digit
      passes; all lower-case, all upper-case and too-short ones fail. */
  lemma PolicyExamples()
    ensures ValidatePassword("Abcdefg1")
    ensures !ValidatePassword("abcdefgh")
    ensures !ValidatePassword("ABCDEFGH")
    ensures !ValidatePassword("Ab1")
  {
    var good, lower, upper := "Abcdefg1", "abcdefgh", "ABCDEFGH";
    assert IsLower(good[1]) && IsUpper(good[0]);
    assert forall i :: 0 <= i < |lower| ==> !IsUpper(lower[i]);
    assert forall i :: 0 <= i < |upper| ==> !IsLower(upper[i]);
  }

}
