/** The two credential checks of the account service, each the language of
    its regular expression (authController.js, `isValidEmail` and
    `isValidPassword`), together with the plain-words rule each one enforces. */
module Credentials {
  import opened JsStrings

  /** `[^\s@]` */
  predicate IsEmailChar(c: char) {
    !IsJsSpace(c) && c != '@'
  }

  predicate AllEmailChars(s: string) {
    forall k :: 0 <= k < |s| ==> IsEmailChar(s[k])
  }

  /** `^[^\s@]+@[^\s@]+\.[^\s@]+$`: the string splits at an '@' (index i) and a
      later '.' (index j) into three non-empty runs of `[^\s@]`. */
  predicate IsValidEmail(s: string) {
    exists i, j | 0 < i < |s| && i + 1 < j < |s| - 1 ::
      s[i] == '@' && s[j] == '.' &&
      AllEmailChars(s[..i]) && AllEmailChars(s[i + 1..j]) && AllEmailChars(s[j + 1..])
  }

  /** The domain part holds a '.' that is neither its first nor its last character. */
  predicate HasInnerDot(d: string) {
    exists j | 0 < j < |d| - 1 :: d[j] == '.'
  }

  /** The '@' at index i is the only one in s. */
  predicate SoleAt(s: string, i: int)
    requires 0 <= i < |s|
  {
    s[i] == '@' && forall k :: 0 <= k < |s| && k != i ==> s[k] != '@'
  }

  /** What the email pattern accepts, in words: no white space anywhere, exactly
      one '@', something before it, and a '.' inside the part after it. */
  predicate EmailShape(s: string) {
    (forall k :: 0 <= k < |s| ==> !IsJsSpace(s[k])) &&
    exists i | 0 < i < |s| :: SoleAt(s, i) && HasInnerDot(s[i + 1..])
  }

  lemma EmailPatternHasShape(s: string)
    requires IsValidEmail(s)
    ensures EmailShape(s)
  {
    var i, j :| 0 < i < |s| && i + 1 < j < |s| - 1 &&
      s[i] == '@' && s[j] == '.' &&
      AllEmailChars(s[..i]) && AllEmailChars(s[i + 1..j]) && AllEmailChars(s[j + 1..]);
    forall k | 0 <= k < |s| && k != i
      ensures IsEmailChar(s[k])
    {
      if k < i {
        assert s[k] == s[..i][k];
      } else if k < j {
        assert s[k] == s[i + 1..j][k - i - 1];
      } else if k > j {
        assert s[k] == s[j + 1..][k - j - 1];
      }
    }
    assert SoleAt(s, i);
    assert s[i + 1..][j - i - 1] == '.';
    assert HasInnerDot(s[i + 1..]);
  }

  lemma EmailShapeMatchesPattern(s: string)
    requires EmailShape(s)
    ensures IsValidEmail(s)
  {
  }

  lemma EmailRule(s: string)
    ensures IsValidEmail(s) <==> EmailShape(s)
  {
    if IsValidEmail(s) {
      EmailPatternHasShape(s);
    }
    if EmailShape(s) {
      EmailShapeMatchesPattern(s);
    }
  }

  predicate IsAsciiLetter(c: char) {
    'A' <= c <= 'Z' || 'a' <= c <= 'z'
  }

  /** `\d` */
  predicate IsDigit(c: char) {
    '0' <= c <= '9'
  }

  /** The characters `.` does not match. */
  predicate IsLineTerminator(c: char) {
    var n := c as int;
    n == 0x0A || n == 0x0D || n == 0x2028 || n == 0x2029
  }

  /** `(?=.*[A-Za-z])`: a letter is reached from the start over characters `.` matches. */
  predicate LetterAhead(p: string) {
    exists k | 0 <= k < |p| :: IsAsciiLetter(p[k]) && forall m :: 0 <= m < k ==> !IsLineTerminator(p[m])
  }

  /** `(?=.*\d)`: likewise for a digit. */
  predicate DigitAhead(p: string) {
    exists k | 0 <= k < |p| :: IsDigit(p[k]) && forall m :: 0 <= m < k ==> !IsLineTerminator(p[m])
  }

  /** `^(?=.*[A-Za-z])(?=.*\d)[A-Za-z\d]{8,}$` */
  predicate IsValidPassword(p: string) {
    LetterAhead(p) && DigitAhead(p) &&
    |p| >= 8 && forall k :: 0 <= k < |p| ==> IsAsciiLetter(p[k]) || IsDigit(p[k])
  }

  /** What the password pattern accepts, in words: at least eight characters,
      only ASCII letters and digits, at least one of each. */
  lemma PasswordRule(p: string)
    ensures IsValidPassword(p) <==>
      |p| >= 8 &&
      (forall k :: 0 <= k < |p| ==> IsAsciiLetter(p[k]) || IsDigit(p[k])) &&
      (exists k :: 0 <= k < |p| && IsAsciiLetter(p[k])) &&
      (exists k :: 0 <= k < |p| && IsDigit(p[k]))
  {
  }
}
