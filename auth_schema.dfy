/**
 * The account forms' schemas: sign-up, sign-in, password reset and new password.
 * Each schema yields the keys that carry an issue, in declaration order; the form is accepted
 * when there is none. The object-level refinement comparing the two passwords runs unless a
 * field failed on its type or enum (the library aborts the object then), and files its issue
 * under `confirmPassword`.
 */
module AuthSchema {
  import opened Wrappers
  import opened JsText

  /** The sign-up form's keys, in declaration order. */
  datatype SignUpKey = Email | Password | ConfirmPassword | FullName | Role | Company | AcceptTerms

  datatype SignUpForm = SignUpForm(
    email: Nullable<string>,
    password: Nullable<string>,
    confirmPassword: Nullable<string>,
    fullName: Nullable<string>,
    role: Nullable<string>,
    company: Nullable<string>,
    acceptTerms: Nullable<bool>)

  /** The characters before the first line terminator: what a `.*` at the start of the text can reach. */
  function FirstLine(s: string): (r: string)
    ensures |r| <= |s| && r == s[..|r|]
    ensures forall i :: 0 <= i < |r| ==> !IsLineTerminator(r[i])
    ensures |r| < |s| ==> IsLineTerminator(s[|r|])
  {
    if s == [] || IsLineTerminator(s[0]) then [] else [s[0]] + FirstLine(s[1..])
  }

  predicate HasChar(s: string, p: char -> bool) {
    exists i :: 0 <= i < |s| && p(s[i])
  }

  /**
   * The pattern `^(?=.*[a-z])(?=.*[A-Z])(?=.*\d)`: each lookahead scans from the start of the
   * text up to the first line terminator.
   */
  predicate PasswordPattern(s: string) {
    var line := FirstLine(s);
    HasChar(line, IsAsciiLower) && HasChar(line, IsAsciiUpper) && HasChar(line, IsAsciiDigit)
  }

  /** The strength rule shared by sign-up and new password: at least 8 code units and the pattern. */
  predicate StrongPassword(s: string) {
    Utf16Length(s) >= 8 && PasswordPattern(s)
  }

  /** The roles a user may pick when signing up. */
  const SignUpRoles: seq<string> := ["entrepreneur", "investor"]

  /** A key whose value fails its type or enum, which stops the object-level refinement. */
  predicate SignUpKeyAborts(v: SignUpForm, k: SignUpKey) {
    match k
    case Email => !v.email.Defined?
    case Password => !v.password.Defined?
    case ConfirmPassword => !v.confirmPassword.Defined?
    case FullName => !v.fullName.Defined?
    case Role => !v.role.Defined? || v.role.value !in SignUpRoles
    case Company => v.company.Null?
    case AcceptTerms => !v.acceptTerms.Defined?
  }

  /** A key whose value fails any of its own checks. */
  predicate SignUpKeyFails(v: SignUpForm, k: SignUpKey, isEmail: string -> bool) {
    SignUpKeyAborts(v, k) ||
    match k
    case Email => !isEmail(v.email.value)
    case Password => !StrongPassword(v.password.value)
    case ConfirmPassword => false
    case FullName => Utf16Length(v.fullName.value) < 2
    case Role => false
    case Company => false
    case AcceptTerms => v.acceptTerms.value != true
  }

  const SignUpKeys: seq<SignUpKey> := [Email, Password, ConfirmPassword, FullName, Role, Company, AcceptTerms]

  function KeyIssues(v: SignUpForm, keys: seq<SignUpKey>, isEmail: string -> bool): (r: seq<SignUpKey>)
    ensures forall k :: k in r <==> k in keys && SignUpKeyFails(v, k, isEmail)
  {
    if keys == [] then []
    else (if SignUpKeyFails(v, keys[0], isEmail) then [keys[0]] else []) + KeyIssues(v, keys[1..], isEmail)
  }

  /** Whether the object-level refinement runs. */
  predicate RefinementRuns(v: SignUpForm) {
    forall k :: !SignUpKeyAborts(v, k)
  }

  /** `signUpSchema.safeParse(v)`'s issue paths: the field issues, then the password-match issue. */
  function SignUpIssues(v: SignUpForm, isEmail: string -> bool): seq<SignUpKey> {
    KeyIssues(v, SignUpKeys, isEmail)
    + (if RefinementRuns(v) && v.password.Defined? && v.confirmPassword.Defined?
          && v.password.value != v.confirmPassword.value
       then [ConfirmPassword] else [])
  }

  predicate SignUpPasses(v: SignUpForm, isEmail: string -> bool) {
    SignUpIssues(v, isEmail) == []
  }

  /**
   * A sign-up form passes iff the email is valid, the password is strong and repeated exactly,
   * the name has two or more code units, the role is entrepreneur or investor, the company is
   * a string or left out, and the terms are accepted.
   */
  lemma SignUpRule(v: SignUpForm, isEmail: string -> bool)
    ensures SignUpPasses(v, isEmail) <==>
      && v.email.Defined? && isEmail(v.email.value)
      && v.password.Defined? && StrongPassword(v.password.value)
      && v.confirmPassword == v.password
      && v.fullName.Defined? && Utf16Length(v.fullName.value) >= 2
      && (v.role == Defined("entrepreneur") || v.role == Defined("investor"))
      && !v.company.Null?
      && v.acceptTerms == Defined(true)
  {
    var ks := KeyIssues(v, SignUpKeys, isEmail);
    if ks == [] {
      forall k: SignUpKey ensures !SignUpKeyFails(v, k, isEmail) && !SignUpKeyAborts(v, k) {
        KeyListed(k);
      }
      assert RefinementRuns(v);
      assert !SignUpKeyFails(v, Email, isEmail) && !SignUpKeyFails(v, Password, isEmail);
      assert !SignUpKeyFails(v, ConfirmPassword, isEmail) && !SignUpKeyFails(v, FullName, isEmail);
      assert !SignUpKeyFails(v, Role, isEmail) && !SignUpKeyFails(v, Company, isEmail);
      assert !SignUpKeyFails(v, AcceptTerms, isEmail);
    } else {
      var k := ks[0];
      assert SignUpKeyFails(v, k, isEmail);
    }
  }

  lemma KeyListed(k: SignUpKey)
    ensures k in SignUpKeys
  {
    match k
    case Email =>
    case Password =>
    case ConfirmPassword =>
    case FullName =>
    case Role =>
    case Company =>
    case AcceptTerms =>
  }

  /** Different passwords never pass, and when no field failed on its type the issue sits on `confirmPassword`. */
  lemma SignUpMismatch(v: SignUpForm, isEmail: string -> bool)
    requires v.password.Defined? && v.confirmPassword.Defined?
    requires v.password.value != v.confirmPassword.value
    ensures !SignUpPasses(v, isEmail)
    ensures RefinementRuns(v) ==> SignUpIssues(v, isEmail)[|SignUpIssues(v, isEmail)| - 1] == ConfirmPassword
  {
    SignUpRule(v, isEmail);
  }

  /** Admin is not a role anyone can choose at sign-up. */
  lemma SignUpNeverAdmin(v: SignUpForm, isEmail: string -> bool)
    requires SignUpPasses(v, isEmail)
    ensures v.role != Defined("admin")
  {
    SignUpRule(v, isEmail);
  }

  /** Without a line break the pattern asks for a lower-case letter, a capital and a digit anywhere. */
  lemma PasswordPatternSingleLine(s: string)
    requires forall i :: 0 <= i < |s| ==> !IsLineTerminator(s[i])
    ensures PasswordPattern(s) <==> HasChar(s, IsAsciiLower) && HasChar(s, IsAsciiUpper) && HasChar(s, IsAsciiDigit)
  {
    var line := FirstLine(s);
    if |line| < |s| {
      assert false;
    }
    assert line == s;
  }

  /** The first line of a text that starts with a line free of terminators, then a terminator. */
  lemma {:induction false} FirstLineOfBrokenText(a: string, t: char, b: string)
    requires forall i :: 0 <= i < |a| ==> !IsLineTerminator(a[i])
    requires IsLineTerminator(t)
    ensures FirstLine(a + [t] + b) == a
  {
    if a != [] {
      assert (a + [t] + b)[1..] == a[1..] + [t] + b;
      FirstLineOfBrokenText(a[1..], t, b);
    }
  }

  /** Behind a line break the required characters are not seen. */
  lemma PasswordPatternStopsAtLineBreak()
    ensures !PasswordPattern("abcdefgh\nA1")
  {
    var a := "abcdefgh";
    forall i | 0 <= i < |a| ensures !IsLineTerminator(a[i]) && !IsAsciiUpper(a[i]) {
      assert a[i] in "abcdefgh";
    }
    BrokenLineNeedsCapital(a, '\n', "A1");
    assert a + ['\n'] + "A1" == "abcdefgh\nA1";
  }

  /** A first line without a capital fails the pattern, whatever follows the line break. */
  lemma BrokenLineNeedsCapital(a: string, t: char, b: string)
    requires forall i :: 0 <= i < |a| ==> !IsLineTerminator(a[i]) && !IsAsciiUpper(a[i])
    requires IsLineTerminator(t)
    ensures !PasswordPattern(a + [t] + b)
  {
    FirstLineOfBrokenText(a, t, b);
  }

  /** One line with a capital, a small letter and a digit passes. */
  lemma PasswordPatternAccepts()
    ensures PasswordPattern("Abcdefg1")
  {
    var p := "Abcdefg1";
    PasswordPatternSingleLine(p);
    assert IsAsciiUpper(p[0]) && IsAsciiLower(p[1]) && IsAsciiDigit(p[7]);
  }

  datatype SignInForm = SignInForm(email: Nullable<string>, password: Nullable<string>)

  /** `signInSchema`: a valid email and any non-empty password; no strength rule. */
  predicate SignInPasses(v: SignInForm, isEmail: string -> bool) {
    && v.email.Defined? && isEmail(v.email.value)
    && v.password.Defined? && Utf16Length(v.password.value) >= 1
  }

  /** Sign-in accepts a one-character password that sign-up would refuse. */
  lemma SignInHasNoStrengthRule(isEmail: string -> bool, e: string)
    requires isEmail(e)
    ensures SignInPasses(SignInForm(Defined(e), Defined("a")), isEmail)
    ensures !StrongPassword("a")
    ensures forall p :: Utf16Length(p) >= 1 ==> (SignInPasses(SignInForm(Defined(e), Defined(p)), isEmail))
  {
  }

  /** `resetPasswordSchema`: only a valid email. */
  predicate ResetPasses(email: Nullable<string>, isEmail: string -> bool) {
    email.Defined? && isEmail(email.value)
  }

  /** The reset form checks the email exactly as sign-in does, and nothing else. */
  lemma ResetChecksSignInEmail(email: Nullable<string>, password: Nullable<string>, isEmail: string -> bool)
    ensures SignInPasses(SignInForm(email, password), isEmail) ==> ResetPasses(email, isEmail)
    ensures ResetPasses(email, isEmail) ==> SignInPasses(SignInForm(email, Defined("x")), isEmail)
  {
    assert Utf16Length("x") == 1;
  }

  datatype NewPasswordForm = NewPasswordForm(password: Nullable<string>, confirmPassword: Nullable<string>)

  /** `newPasswordSchema`'s issue paths: the password's checks, then the match refinement. */
  function NewPasswordIssues(v: NewPasswordForm): seq<SignUpKey> {
    (if !v.password.Defined? || !StrongPassword(v.password.value) then [Password] else [])
    + (if !v.confirmPassword.Defined? then [ConfirmPassword] else [])
    + (if v.password.Defined? && v.confirmPassword.Defined? && v.password.value != v.confirmPassword.value
       then [ConfirmPassword] else [])
  }

  predicate NewPasswordPasses(v: NewPasswordForm) {
    NewPasswordIssues(v) == []
  }

  /** The new-password form applies exactly the sign-up strength rule and the same confirmation check. */
  lemma NewPasswordMatchesSignUp(v: SignUpForm, isEmail: string -> bool)
    ensures NewPasswordPasses(NewPasswordForm(v.password, v.confirmPassword)) <==>
      v.password.Defined? && StrongPassword(v.password.value) && v.confirmPassword == v.password
    ensures SignUpPasses(v, isEmail) ==> NewPasswordPasses(NewPasswordForm(v.password, v.confirmPassword))
  {
    SignUpRule(v, isEmail);
  }
}
