/** The registration form's client-side checks (public/js/register.js): one
    validator per field, each showing at most one message, and a submit
    handler that runs all four and submits only when every one passes. */
module RegisterForm {
  import opened Text
  import opened Users

  /** What a field validator decides: pass, or fail showing a message. */
  datatype Check = Pass | Fail(msg: string)

  /** A character the pattern's class `[^\s@]` admits. */
  predicate EmailChar(c: char)
  {
    !IsSpace(c) && c != '@'
  }

  /** A match of `[^\s@]+`. */
  predicate EmailRun(s: string)
  {
    s != [] && forall k :: 0 <= k < |s| ==> EmailChar(s[k])
  }

  /** `/^[^\s@]+@[^\s@]+\.[^\s@]+$/.test(s)`: the string splits at an '@'
      (position i) and a later '.' (position j) into three runs of
      characters that are neither whitespace nor '@'. */
  predicate MatchesEmailPattern(s: string)
  {
    exists i, j :: 0 < i < |s| && 0 < j < |s| && i + 1 < j < |s| - 1 && s[i] == '@' && s[j] == '.'
                   && EmailRun(s[..i]) && EmailRun(s[i + 1..j]) && EmailRun(s[j + 1..])
  }

  /** The same language described directly: no whitespace, exactly one '@',
      which is not the first character, and a '.' after it with at least
      one character on each side. */
  predicate WellFormedEmail(s: string)
  {
    && (forall k :: 0 <= k < |s| ==> !IsSpace(s[k]))
    && exists i :: 0 < i < |s| && s[i] == '@'
                   && (forall k :: 0 <= k < |s| && s[k] == '@' ==> k == i)
                   && (exists j :: i + 1 < j < |s| - 1 && s[j] == '.')
  }

  lemma EmailPatternSound(s: string)
    requires MatchesEmailPattern(s)
    ensures WellFormedEmail(s)
  {
    var i, j :| 0 < i < |s| && 0 < j < |s| && i + 1 < j < |s| - 1 && s[i] == '@' && s[j] == '.'
                && EmailRun(s[..i]) && EmailRun(s[i + 1..j]) && EmailRun(s[j + 1..]);
    forall k | 0 <= k < |s| && k != i && k != j
      ensures EmailChar(s[k])
    {
      if k < i {
        assert s[k] == s[..i][k];
      } else if k < j {
        assert s[k] == s[i + 1..j][k - i - 1];
      } else {
        assert s[k] == s[j + 1..][k - j - 1];
      }
    }
  }

  lemma EmailPatternComplete(s: string)
    requires WellFormedEmail(s)
    ensures MatchesEmailPattern(s)
  {
    var i :| 0 < i < |s| && s[i] == '@'
             && (forall k :: 0 <= k < |s| && s[k] == '@' ==> k == i)
             && (exists j :: i + 1 < j < |s| - 1 && s[j] == '.');
    var j :| i + 1 < j < |s| - 1 && s[j] == '.';
    assert forall k :: 0 <= k < |s| && k != i ==> EmailChar(s[k]);
    assert EmailRun(s[..i]);
    var domain, last := s[i + 1..j], s[j + 1..];
    forall k | 0 <= k < |domain| ensures EmailChar(domain[k]) {
      assert domain[k] == s[i + 1 + k];
    }
    forall k | 0 <= k < |last| ensures EmailChar(last[k]) {
      assert last[k] == s[j + 1 + k];
    }
  }

  /** The email pattern accepts exactly the well-formed emails. */
  lemma EmailPatternCharacterised(s: string)
    ensures MatchesEmailPattern(s) <==> WellFormedEmail(s)
  {
    if MatchesEmailPattern(s) {
      EmailPatternSound(s);
    }
    if WellFormedEmail(s) {
      EmailPatternComplete(s);
    }
  }

  /** `validateEmailField` on the trimmed field value. */
  function ValidateEmailField(email: string): (r: Check)
    ensures email == [] ==> r == Fail("Email is required")
    ensures email != [] && !WellFormedEmail(email) ==> r == Fail("Please enter a valid email")
    ensures r == Pass <==> WellFormedEmail(email)
  {
    EmailPatternCharacterised(email);
    if email == [] then Fail("Email is required")
    else if !MatchesEmailPattern(email) then Fail("Please enter a valid email")
    else Pass
  }

  /** `validateUsernameField` on the trimmed field value. */
  function ValidateUsernameField(username: string): (r: Check)
    ensures username == [] ==> r == Fail("Username is required")
    ensures 0 < |username| < 3 ==> r == Fail("Username must be at least 3 characters")
    ensures r == Pass <==> |username| >= 3
  {
    if username == [] then Fail("Username is required")
    else if |username| < 3 then Fail("Username must be at least 3 characters")
    else Pass
  }

  /** `[A-Z]` occurs. */
  predicate HasUpper(p: string)
  {
    exists k :: 0 <= k < |p| && 'A' <= p[k] <= 'Z'
  }

  /** `[0-9]` occurs. */
  predicate HasDigit(p: string)
  {
    exists k :: 0 <= k < |p| && '0' <= p[k] <= '9'
  }

  /** `[^A-Za-z0-9]` occurs: some character that is not an ASCII letter or digit. */
  predicate HasSpecial(p: string)
  {
    exists k :: 0 <= k < |p| && !('A' <= p[k] <= 'Z' || 'a' <= p[k] <= 'z' || '0' <= p[k] <= '9')
  }

  /** `validatePasswordField`: five rules in a fixed order; the first one
      that fails is the message shown. */
  function ValidatePasswordField(password: string): (r: Check)
    ensures password == [] ==> r == Fail("Password is required")
    ensures 0 < |password| < 8 ==> r == Fail("Password must be at least 8 characters")
    ensures |password| >= 8 && !HasUpper(password) ==>
              r == Fail("Password must contain at least one uppercase letter")
    ensures |password| >= 8 && HasUpper(password) && !HasDigit(password) ==>
              r == Fail("Password must contain at least one number")
    ensures |password| >= 8 && HasUpper(password) && HasDigit(password) && !HasSpecial(password) ==>
              r == Fail("Password must contain at least one special character")
    ensures r == Pass <==> |password| >= 8 && HasUpper(password) && HasDigit(password) && HasSpecial(password)
  {
    if password == [] then Fail("Password is required")
    else if |password| < 8 then Fail("Password must be at least 8 characters")
    else if !HasUpper(password) then Fail("Password must contain at least one uppercase letter")
    else if !HasDigit(password) then Fail("Password must contain at least one number")
    else if !HasSpecial(password) then Fail("Password must contain at least one special character")
    else Pass
  }

  /** `validateConfirmPasswordField`. */
  function ValidateConfirmPasswordField(password: string, confirmPassword: string): (r: Check)
    ensures confirmPassword == [] ==> r == Fail("Please confirm your password")
    ensures confirmPassword != [] && confirmPassword != password ==> r == Fail("Passwords do not match")
    ensures r == Pass <==> confirmPassword != [] && confirmPassword == password
  {
    if confirmPassword == [] then Fail("Please confirm your password")
    else if password != confirmPassword then Fail("Passwords do not match")
    else Pass
  }

  /** The messages of the failing checks, in order. */
  function Shown(checks: seq<Check>): (r: seq<string>)
    ensures |r| <= |checks|
    ensures r == [] <==> forall k :: 0 <= k < |checks| ==> checks[k] == Pass
  {
    if checks == [] then []
    else
      Shown(checks[..|checks| - 1]) + CheckMessages(checks[|checks| - 1])
  }

  /** The message a check shows, if any. */
  function CheckMessages(c: Check): seq<string>
  {
    if c.Fail? then [c.msg] else []
  }

  lemma ShownOfFour(a: Check, b: Check, c: Check, d: Check)
    ensures Shown([a, b, c, d]) == CheckMessages(a) + CheckMessages(b) + CheckMessages(c) + CheckMessages(d)
  {
    assert [a][..0] == [];
    assert Shown([a]) == CheckMessages(a);
    assert [a, b][..1] == [a];
    assert Shown([a, b]) == CheckMessages(a) + CheckMessages(b);
    assert [a, b, c][..2] == [a, b];
    assert Shown([a, b, c]) == CheckMessages(a) + CheckMessages(b) + CheckMessages(c);
    assert [a, b, c, d][..3] == [a, b, c];
  }

  /** The four checks `handleSubmit` runs, on the field values it reads:
      email and username trimmed, the passwords as typed. */
  function FieldChecks(emailField: string, usernameField: string, passwordField: string,
                       confirmField: string): seq<Check>
  {
    [ValidateEmailField(Trim(emailField)), ValidateUsernameField(Trim(usernameField)),
     ValidatePasswordField(passwordField), ValidateConfirmPasswordField(passwordField, confirmField)]
  }

  /** `handleSubmit`: every validator runs, so each failing field shows its
      message; the form is submitted exactly when all four pass. */
  method HandleSubmit(emailField: string, usernameField: string, passwordField: string, confirmField: string)
    returns (shown: seq<string>, submitted: bool)
    ensures shown == Shown(FieldChecks(emailField, usernameField, passwordField, confirmField))
    ensures submitted <==> shown == []
  {
    var email := Trim(emailField);
    var username := Trim(usernameField);
    var isValid := true;
    var emailCheck := ValidateEmailField(email);
    if emailCheck.Fail? {
      isValid := false;
    }
    var usernameCheck := ValidateUsernameField(username);
    if usernameCheck.Fail? {
      isValid := false;
    }
    var passwordCheck := ValidatePasswordField(passwordField);
    if passwordCheck.Fail? {
      isValid := false;
    }
    var confirmCheck := ValidateConfirmPasswordField(passwordField, confirmField);
    if confirmCheck.Fail? {
      isValid := false;
    }
    submitted := isValid;
    shown := CheckMessages(emailCheck) + CheckMessages(usernameCheck) + CheckMessages(passwordCheck) + CheckMessages(confirmCheck);
    ShownOfFour(emailCheck, usernameCheck, passwordCheck, confirmCheck);
  }

  /** The form is submitted exactly when the trimmed email is well formed,
      the trimmed username has at least 3 characters, the password meets
      every rule and the confirmation repeats it. */
  lemma SubmitConditions(emailField: string, usernameField: string, passwordField: string, confirmField: string)
    ensures Shown(FieldChecks(emailField, usernameField, passwordField, confirmField)) == [] <==>
              (WellFormedEmail(Trim(emailField)) && |Trim(usernameField)| >= 3
               && |passwordField| >= 8 && HasUpper(passwordField) && HasDigit(passwordField)
               && HasSpecial(passwordField)
               && confirmField != [] && confirmField == passwordField)
  {
    var e := ValidateEmailField(Trim(emailField));
    var u := ValidateUsernameField(Trim(usernameField));
    var p := ValidatePasswordField(passwordField);
    var c := ValidateConfirmPasswordField(passwordField, confirmField);
    assert FieldChecks(emailField, usernameField, passwordField, confirmField) == [e, u, p, c];
    ShownOfFour(e, u, p, c);
  }

  /** A registration the form submits also passes `createUser`'s own checks
      on the same field values: all present, '@' and '.' in the normalised
      email, a password of at least 6 characters. */
  lemma FormAcceptedByServer(emailField: string, usernameField: string, passwordField: string)
    requires ValidateEmailField(Trim(emailField)) == Pass
    requires ValidateUsernameField(Trim(usernameField)) == Pass
    requires ValidatePasswordField(passwordField) == Pass
    ensures CheckNewUser(emailField, usernameField, passwordField).Ok?
  {
    var email := Trim(emailField);
    WellFormedHasAtAndDot(email);
    ToLowerKeeps(email, '@');
    ToLowerKeeps(email, '.');
  }

  lemma WellFormedHasAtAndDot(s: string)
    requires WellFormedEmail(s)
    ensures '@' in s && '.' in s
  {
    var i :| 0 < i < |s| && s[i] == '@'
             && (forall k :: 0 <= k < |s| && s[k] == '@' ==> k == i)
             && (exists j :: i + 1 < j < |s| - 1 && s[j] == '.');
    var j :| i + 1 < j < |s| - 1 && s[j] == '.';
  }

  lemma ToLowerKeeps(s: string, c: char)
    requires c in s && !('A' <= c <= 'Z')
    ensures c in ToLower(s)
  {
    var k :| 0 <= k < |s| && s[k] == c;
    assert ToLower(s)[k] == c;
  }
}
