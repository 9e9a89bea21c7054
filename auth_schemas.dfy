/** The authentication forms' validation rules and the password strength meter. */
module AuthSchemas {
  import opened Common

  const MinPasswordLength: nat := 8
  const MinFullNameLength: nat := 2

  /** `[^A-Za-z0-9]` */
  predicate IsSpecial(c: char) {
    !IsAsciiUpper(c) && !IsAsciiLower(c) && !IsAsciiDigit(c)
  }

  /** `/[A-Z]/.test(p)` and the three other character-class tests. */
  predicate HasUpper(p: string) { exists i :: 0 <= i < |p| && IsAsciiUpper(p[i]) }
  predicate HasLower(p: string) { exists i :: 0 <= i < |p| && IsAsciiLower(p[i]) }
  predicate HasDigit(p: string) { exists i :: 0 <= i < |p| && IsAsciiDigit(p[i]) }
  predicate HasSpecial(p: string) { exists i :: 0 <= i < |p| && IsSpecial(p[i]) }

  /** The five strength criteria, in the order the meter tests them. */
  function Criteria(p: string): (c: seq<bool>)
    ensures |c| == 5
  {
    [|p| >= MinPasswordLength, HasUpper(p), HasLower(p), HasDigit(p), HasSpecial(p)]
  }

  /** The strength a password should score: how many criteria it meets. */
  function PasswordScore(p: string): nat {
    CountTrue(Criteria(p))
  }

  /** `calculatePasswordStrength`: one increment per satisfied criterion. */
  method CalculatePasswordStrength(password: string) returns (strength: int)
    ensures strength == PasswordScore(password)
    ensures 0 <= strength <= 5
  {
    strength := 0;
    if |password| >= MinPasswordLength { strength := strength + 1; }
    if HasUpper(password) { strength := strength + 1; }
    if HasLower(password) { strength := strength + 1; }
    if HasDigit(password) { strength := strength + 1; }
    if HasSpecial(password) { strength := strength + 1; }
    CountTrueFive(Criteria(password));
  }

  /** The empty password scores 0. */
  lemma EmptyPasswordScoresZero()
    ensures PasswordScore("") == 0
  {
    CountTrueBounds(Criteria(""));
  }

  /** Appending characters never lowers the score. */
  lemma ScoreMonotone(p: string, q: string)
    ensures PasswordScore(p) <= PasswordScore(p + q)
  {
    var a, b := Criteria(p), Criteria(p + q);
    forall i | 0 <= i < 5 && a[i] ensures b[i] {
      if i == 1 { var k :| 0 <= k < |p| && IsAsciiUpper(p[k]); assert (p + q)[k] == p[k]; }
      if i == 2 { var k :| 0 <= k < |p| && IsAsciiLower(p[k]); assert (p + q)[k] == p[k]; }
      if i == 3 { var k :| 0 <= k < |p| && IsAsciiDigit(p[k]); assert (p + q)[k] == p[k]; }
      if i == 4 { var k :| 0 <= k < |p| && IsSpecial(p[k]); assert (p + q)[k] == p[k]; }
    }
    CountTrueMonotone(a, b);
  }

  // ---------------------------------------------------------------------------
  // The PasswordStrength enum and its labels

  datatype PasswordStrength = VeryWeak | Weak | Fair | Good | Strong

  /** The numeric value of each enum member. */
  function StrengthValue(s: PasswordStrength): (n: nat)
    ensures n <= 4
  {
    match s
    case VeryWeak => 0
    case Weak => 1
    case Fair => 2
    case Good => 3
    case Strong => 4
  }

  /** The enum member with value `n`, if there is one. */
  function StrengthOf(n: int): (s: Option<PasswordStrength>)
    ensures s.Some? <==> 0 <= n <= 4
    ensures s.Some? ==> StrengthValue(s.value) == n
  {
    if n == 0 then Some(VeryWeak)
    else if n == 1 then Some(Weak)
    else if n == 2 then Some(Fair)
    else if n == 3 then Some(Good)
    else if n == 4 then Some(Strong)
    else None
  }

  function StrengthLabel(s: PasswordStrength): string {
    match s
    case VeryWeak => "Very Weak"
    case Weak => "Weak"
    case Fair => "Fair"
    case Good => "Good"
    case Strong => "Strong"
  }

  /** `PASSWORD_STRENGTH_LABELS[n]`: undefined for a number outside the enum. */
  function LabelLookup(n: int): Option<string> {
    match StrengthOf(n)
    case Some(s) => Some(StrengthLabel(s))
    case None => None
  }

  /** As written, a password meeting all five criteria scores 5, which is no
      member of the enum and has no label. */
  lemma ScoreFiveHasNoLabel()
    ensures PasswordScore("Abcdefg1!") == 5
    ensures StrengthOf(5) == None && LabelLookup(5) == None
  {
    var p := "Abcdefg1!";
    assert IsAsciiUpper(p[0]) && IsAsciiLower(p[1]) && IsAsciiDigit(p[7]) && IsSpecial(p[8]);
    var c := Criteria(p);
    assert forall i :: 0 <= i < 5 ==> c[i];
    CountTrueBounds(c);
  }

  /** The strength level with the scale capped at STRONG: the enum's five
      levels, with every password meeting four or five criteria "Strong". */
  function StrengthLevel(p: string): (s: PasswordStrength)
    ensures StrengthValue(s) == if PasswordScore(p) >= 4 then 4 else PasswordScore(p)
  {
    var n := PasswordScore(p);
    StrengthOf(if n >= 4 then 4 else n).value
  }

  /** Every capped level has a label, and the empty password is "Very Weak". */
  lemma StrengthLevelLabelled(p: string)
    ensures LabelLookup(StrengthValue(StrengthLevel(p))) == Some(StrengthLabel(StrengthLevel(p)))
    ensures p == "" ==> StrengthLevel(p) == VeryWeak
  {
    if p == "" { EmptyPasswordScoresZero(); }
  }

  // ---------------------------------------------------------------------------
  // The form schemas

  /** The password rules shared by registration and reset, in check order. */
  function PasswordIssues(p: string): seq<Issue> {
    (if |p| < MinPasswordLength then [Issue("password", "Password must be at least 8 characters")] else []) +
    (if !HasUpper(p) then [Issue("password", "Password must contain at least one uppercase letter")] else []) +
    (if !HasLower(p) then [Issue("password", "Password must contain at least one lowercase letter")] else []) +
    (if !HasDigit(p) then [Issue("password", "Password must contain at least one number")] else []) +
    (if !HasSpecial(p) then [Issue("password", "Password must contain at least one special character")] else [])
  }

  predicate PasswordPolicy(p: string) {
    |p| >= MinPasswordLength && HasUpper(p) && HasLower(p) && HasDigit(p) && HasSpecial(p)
  }

  /** The object-level refinement: mismatch is reported on confirmPassword. */
  function ConfirmIssues(password: string, confirmPassword: string): seq<Issue> {
    if password != confirmPassword then [Issue("confirmPassword", "Passwords don't match")] else []
  }

  datatype RegisterForm = RegisterForm(fullName: string, email: string, password: string, confirmPassword: string, acceptTerms: bool)
  datatype ResetPasswordForm = ResetPasswordForm(password: string, confirmPassword: string)
  datatype LoginForm = LoginForm(email: string, password: string, rememberMe: Option<bool>)

  /** The e-mail check's issue; whether the address is well-formed is an input. */
  function EmailIssues(emailValid: bool): seq<Issue> {
    if emailValid then [] else [Issue("email", "Please enter a valid email address")]
  }

  /** `registerSchema`: every failing rule is reported, field by field, then the mismatch. */
  function RegisterIssues(f: RegisterForm, emailValid: bool): seq<Issue> {
    (if |f.fullName| < MinFullNameLength then [Issue("fullName", "Name must be at least 2 characters")] else []) +
    EmailIssues(emailValid) +
    PasswordIssues(f.password) +
    (if !f.acceptTerms then [Issue("acceptTerms", "You must accept the terms and conditions")] else []) +
    ConfirmIssues(f.password, f.confirmPassword)
  }

  /** `resetPasswordSchema` */
  function ResetPasswordIssues(f: ResetPasswordForm): seq<Issue> {
    PasswordIssues(f.password) + ConfirmIssues(f.password, f.confirmPassword)
  }

  /** `loginSchema` */
  function LoginIssues(f: LoginForm, emailValid: bool): seq<Issue> {
    EmailIssues(emailValid) +
    (if |f.password| < 1 then [Issue("password", "Password is required")] else [])
  }

  /** The password rules pass exactly for the policy, and only ever blame the password. */
  lemma PasswordIssuesIff(p: string)
    ensures PasswordIssues(p) == [] <==> PasswordPolicy(p)
    ensures forall i :: i in PasswordIssues(p) ==> i.field == "password"
  {
  }

  /** A password passes the policy exactly when it scores the maximum, 5. */
  lemma PolicyIffScoreFive(p: string)
    ensures PasswordPolicy(p) <==> PasswordScore(p) == 5
  {
    CountTrueFive(Criteria(p));
  }

  /** Registration passes exactly when the name has two characters, the
      e-mail is valid, the password meets the policy, the terms are accepted
      and the confirmation matches. */
  lemma RegisterAcceptsIff(f: RegisterForm, emailValid: bool)
    ensures RegisterIssues(f, emailValid) == [] <==>
      |f.fullName| >= MinFullNameLength && emailValid && PasswordPolicy(f.password) &&
      f.acceptTerms && f.password == f.confirmPassword
  {
    PasswordIssuesIff(f.password);
  }

  /** A registration whose confirmation differs is rejected with the error on
      confirmPassword, and confirmPassword is blamed for nothing else. */
  lemma RegisterMismatchBlamesConfirm(f: RegisterForm, emailValid: bool)
    ensures f.password != f.confirmPassword ==>
      Issue("confirmPassword", "Passwords don't match") in RegisterIssues(f, emailValid)
    ensures (exists i :: i in RegisterIssues(f, emailValid) && i.field == "confirmPassword") <==>
      f.password != f.confirmPassword
  {
    PasswordIssuesIff(f.password);
    var all := RegisterIssues(f, emailValid);
    var tail := ConfirmIssues(f.password, f.confirmPassword);
    assert all[|all| - |tail|..] == tail;
    if f.password != f.confirmPassword {
      assert all[|all| - 1] == Issue("confirmPassword", "Passwords don't match");
    }
  }

  /** The reset form passes exactly for a policy password confirmed exactly. */
  lemma ResetAcceptsIff(f: ResetPasswordForm)
    ensures ResetPasswordIssues(f) == [] <==> PasswordPolicy(f.password) && f.password == f.confirmPassword
    ensures f.password != f.confirmPassword ==>
      Issue("confirmPassword", "Passwords don't match") in ResetPasswordIssues(f)
  {
    PasswordIssuesIff(f.password);
    if f.password != f.confirmPassword {
      var all := ResetPasswordIssues(f);
      assert all[|all| - 1] == Issue("confirmPassword", "Passwords don't match");
    }
  }

  /** Every password that registration or reset accepts scores 5. */
  lemma AcceptedPasswordsScoreFive(f: RegisterForm, emailValid: bool, g: ResetPasswordForm)
    ensures RegisterIssues(f, emailValid) == [] ==> PasswordScore(f.password) == 5
    ensures ResetPasswordIssues(g) == [] ==> PasswordScore(g.password) == 5
  {
    RegisterAcceptsIff(f, emailValid);
    ResetAcceptsIff(g);
    PolicyIffScoreFive(f.password);
    PolicyIffScoreFive(g.password);
  }

  /** Login asks only for a valid e-mail and a non-empty password. */
  lemma LoginAcceptsIff(f: LoginForm, emailValid: bool)
    ensures LoginIssues(f, emailValid) == [] <==> emailValid && |f.password| >= 1
  {
  }
}
