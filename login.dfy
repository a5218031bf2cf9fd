/** The sign-in / registration page: the five password rules, the per-rule
    validation list, the checks `handleSubmit` runs before calling the auth
    service, the mapping of the service's error messages to what the page
    shows, and the submit button's disabled state. */
module Login {
  import opened Utils

  // ----- strings as JavaScript sees them -----

  /** The UTF-16 code units of one character: two for a character outside the
      Basic Multilingual Plane, one otherwise. */
  function CodeUnits(c: char): nat {
    if c as int > 0xFFFF then 2 else 1
  }

  /** `password.length`: JavaScript counts UTF-16 code units, not characters. */
  function JsLength(s: string): (r: nat)
    ensures |s| <= r <= 2 * |s|
  {
    if |s| == 0 then 0 else JsLength(s[..|s| - 1]) + CodeUnits(s[|s| - 1])
  }

  /** A one-character-class regular expression tested with `.test`. */
  function Any(s: string, p: char -> bool): (r: bool)
    ensures r <==> exists i :: 0 <= i < |s| && p(s[i])
  {
    FirstWhere(s, p, 0).Some?
  }

  predicate IsUpper(c: char) { 'A' <= c <= 'Z' }
  predicate IsLower(c: char) { 'a' <= c <= 'z' }
  /** `\d` in a JavaScript pattern is the ASCII digits only. */
  predicate IsAsciiDigit(c: char) { '0' <= c <= '9' }
  /** `[^A-Za-z0-9]`. */
  predicate IsSpecial(c: char) { !IsUpper(c) && !IsLower(c) && !IsAsciiDigit(c) }

  // ----- the rules -----

  datatype PasswordRule = MinLength | Uppercase | Lowercase | Digit | Special

  /** The rules in the order the page lists and checks them. */
  const PasswordRules: seq<PasswordRule> := [MinLength, Uppercase, Lowercase, Digit, Special]

  function RuleName(r: PasswordRule): string {
    match r
    case MinLength => "At least 6 characters"
    case Uppercase => "At least one uppercase letter"
    case Lowercase => "At least one lowercase letter"
    case Digit => "At least one digit"
    case Special => "At least one special character"
  }

  /** `rule.test(password)`. */
  predicate Holds(r: PasswordRule, password: string) {
    match r
    case MinLength => JsLength(password) >= 6
    case Uppercase => Any(password, IsUpper)
    case Lowercase => Any(password, IsLower)
    case Digit => Any(password, IsAsciiDigit)
    case Special => Any(password, IsSpecial)
  }

  /** One entry of `getPasswordValidation`: the rule, its name and whether the
      password passes it. */
  datatype RuleCheck = RuleCheck(rule: PasswordRule, name: string, isValid: bool)

  /** `rules.map(rule => ({...rule, isValid: rule.test(password)}))`. */
  function Validate(rules: seq<PasswordRule>, password: string): (r: seq<RuleCheck>)
    ensures |r| == |rules|
    ensures forall i :: 0 <= i < |rules| ==>
      r[i].rule == rules[i] && r[i].name == RuleName(rules[i]) && (r[i].isValid <==> Holds(rules[i], password))
  {
    if |rules| == 0 then []
    else Validate(rules[..|rules| - 1], password) + [RuleCheck(rules[|rules| - 1], RuleName(rules[|rules| - 1]), Holds(rules[|rules| - 1], password))]
  }

  function GetPasswordValidation(password: string): (r: seq<RuleCheck>)
    ensures |r| == 5
    ensures forall i :: 0 <= i < 5 ==>
      r[i].rule == PasswordRules[i] && r[i].name == RuleName(PasswordRules[i])
      && (r[i].isValid <==> Holds(PasswordRules[i], password))
  {
    Validate(PasswordRules, password)
  }

  /** `validation.filter(rule => !rule.isValid).map(rule => rule.rule)`: the
      names of the failed entries, in order. */
  function FailedNames(v: seq<RuleCheck>): (r: seq<string>)
    ensures |r| <= |v|
    ensures forall n :: n in r ==> exists i :: 0 <= i < |v| && !v[i].isValid && v[i].name == n
    ensures forall i :: 0 <= i < |v| && !v[i].isValid ==> v[i].name in r
  {
    if |v| == 0 then []
    else
      var init := FailedNames(v[..|v| - 1]);
      var last := v[|v| - 1];
      var r := if last.isValid then init else init + [last.name];
      assert forall i :: 0 <= i < |v| - 1 ==> v[..|v| - 1][i] == v[i];
      r
  }

  /** `validation.every(rule => rule.isValid)`. */
  function AllValid(v: seq<RuleCheck>): (r: bool)
    ensures r <==> forall i :: 0 <= i < |v| ==> v[i].isValid
  {
    if |v| == 0 then true
    else
      assert forall i :: 0 <= i < |v| - 1 ==> v[..|v| - 1][i] == v[i];
      AllValid(v[..|v| - 1]) && v[|v| - 1].isValid
  }

  function IsPasswordValid(password: string): bool {
    AllValid(GetPasswordValidation(password))
  }

  function PasswordsMatch(password: string, confirmPassword: string): bool {
    password == confirmPassword
  }

  /** The password is valid exactly when it passes all five rules. */
  lemma PasswordValidIff(password: string)
    ensures IsPasswordValid(password) <==>
      JsLength(password) >= 6 && Any(password, IsUpper) && Any(password, IsLower)
      && Any(password, IsAsciiDigit) && Any(password, IsSpecial)
  {
    var v := GetPasswordValidation(password);
    assert v[0].isValid <==> Holds(MinLength, password);
    assert v[1].isValid <==> Holds(Uppercase, password);
    assert v[2].isValid <==> Holds(Lowercase, password);
    assert v[3].isValid <==> Holds(Digit, password);
    assert v[4].isValid <==> Holds(Special, password);
  }

  /** A password is valid exactly when no rule fails. */
  lemma ValidIffNoFailures(password: string)
    ensures IsPasswordValid(password) <==> FailedNames(GetPasswordValidation(password)) == []
  {
    var v := GetPasswordValidation(password);
    if !IsPasswordValid(password) {
      var i :| 0 <= i < |v| && !v[i].isValid;
      assert v[i].name in FailedNames(v);
    }
    if FailedNames(v) != [] {
      assert FailedNames(v)[0] in FailedNames(v);
    }
  }

  function NameIfFails(r: PasswordRule, password: string): seq<string> {
    if Holds(r, password) then [] else [RuleName(r)]
  }

  /** The names of the rules in `rules` that `password` fails, in rule order. */
  function FailedRuleNames(rules: seq<PasswordRule>, password: string): seq<string> {
    if |rules| == 0 then []
    else FailedRuleNames(rules[..|rules| - 1], password) + NameIfFails(rules[|rules| - 1], password)
  }

  /** The failure list names exactly the failed rules, in rule order. */
  lemma {:induction false} FailedNamesInRuleOrder(rules: seq<PasswordRule>, password: string)
    ensures FailedNames(Validate(rules, password)) == FailedRuleNames(rules, password)
    decreases |rules|
  {
    if |rules| > 0 {
      var v := Validate(rules, password);
      var init := rules[..|rules| - 1];
      assert v == Validate(init, password) + [v[|v| - 1]];
      assert v[..|v| - 1] == Validate(init, password);
      FailedNamesInRuleOrder(init, password);
    }
  }

  // ----- the checks before the auth call -----

  const MismatchMessage := "Passwords do not match"
  const RequirementsPrefix := "Password requirements not met: "

  /** The error `handleSubmit` sets before any call, or `None` when it goes on
      to call the auth service. */
  function PreCheck(isRegistering: bool, password: string, confirmPassword: string): (r: Option<string>)
    ensures r.None? <==> !isRegistering || (PasswordsMatch(password, confirmPassword) && IsPasswordValid(password))
  {
    ValidIffNoFailures(password);
    if !isRegistering then None
    else if password != confirmPassword then Some(MismatchMessage)
    else
      var failed := FailedNames(GetPasswordValidation(password));
      if |failed| > 0 then Some(RequirementsPrefix + Join(failed, ", ")) else None
  }

  /** Signing in runs no password check. */
  lemma SignInRunsNoChecks(password: string, confirmPassword: string)
    ensures PreCheck(false, password, confirmPassword) == None
  {
  }

  /** When registering, a mismatch is reported whatever the rules say. */
  lemma MismatchReportedFirst(password: string, confirmPassword: string)
    requires password != confirmPassword
    ensures PreCheck(true, password, confirmPassword) == Some(MismatchMessage)
  {
  }

  /** When registering with matching passwords, an invalid password is reported
      with the failed rule names, in rule order, joined by ", ". */
  lemma RuleFailuresReported(password: string)
    requires !IsPasswordValid(password)
    ensures PreCheck(true, password, password) == Some(RequirementsPrefix + Join(FailedRuleNames(PasswordRules, password), ", "))
  {
    ValidIffNoFailures(password);
    FailedNamesInRuleOrder(PasswordRules, password);
  }

  /** A short lower-case password is refused with four rule names, in rule order. */
  lemma ShortLowercaseMessage()
    ensures PreCheck(true, "abc", "abc") == Some(RequirementsPrefix + Join(
      ["At least 6 characters", "At least one uppercase letter", "At least one digit", "At least one special character"], ", "))
  {
    ShortLowercaseRules();
    assert !IsPasswordValid("abc") by { PasswordValidIff("abc"); }
    RuleFailuresReported("abc");
    ShortLowercaseFailures();
  }

  lemma ShortLowercaseRules()
    ensures !Holds(MinLength, "abc") && !Holds(Uppercase, "abc") && Holds(Lowercase, "abc")
    ensures !Holds(Digit, "abc") && !Holds(Special, "abc")
  {
    var pw := "abc";
    assert IsLower(pw[0]);
    assert pw[..2][..1][..0] == [];
  }

  lemma ShortLowercaseFailures()
    ensures FailedRuleNames(PasswordRules, "abc")
      == ["At least 6 characters", "At least one uppercase letter", "At least one digit", "At least one special character"]
  {
    ShortLowercaseRules();
    var pw := "abc";
    var r1: seq<PasswordRule> := [MinLength];
    var r2 := r1 + [Uppercase];
    var r3 := r2 + [Lowercase];
    var r4 := r3 + [Digit];
    assert r1[..0] == [] && r2[..1] == r1 && r3[..2] == r2 && r4[..3] == r3;
    assert PasswordRules[..4] == r4;
    assert FailedRuleNames(r1, pw) == [RuleName(MinLength)];
    assert FailedRuleNames(r2, pw) == [RuleName(MinLength), RuleName(Uppercase)];
    assert FailedRuleNames(r3, pw) == FailedRuleNames(r2, pw);
    assert FailedRuleNames(r4, pw) == [RuleName(MinLength), RuleName(Uppercase), RuleName(Digit)];
  }

  /** `password.length` counts a character outside the Basic Multilingual Plane
      twice, so three emoji meet the length rule. */
  lemma AstralCharactersCountTwice()
    ensures Holds(MinLength, "\U{1F600}\U{1F600}\U{1F600}")
  {
    var pw := "\U{1F600}\U{1F600}\U{1F600}";
    assert pw[..2][..1][..0] == [];
    assert JsLength(pw) == 6;
  }

  /** `disabled={isRegistering && (!isPasswordValid || !passwordsMatch)}`. */
  predicate SubmitDisabled(isRegistering: bool, password: string, confirmPassword: string) {
    isRegistering && (!IsPasswordValid(password) || !PasswordsMatch(password, confirmPassword))
  }

  /** The button is disabled exactly when pressing it would stop at a pre-check. */
  lemma DisabledIffPreCheckRejects(isRegistering: bool, password: string, confirmPassword: string)
    ensures SubmitDisabled(isRegistering, password, confirmPassword) <==> PreCheck(isRegistering, password, confirmPassword).Some?
  {
  }

  // ----- error mapping -----

  const EmailMessage := "Please enter a valid email address"
  const PasswordMessage := "Password does not meet requirements"
  const TakenMessage := "An account with this email already exists"
  const InvalidLoginMessage := "Invalid email or password"
  const FallbackMessage := "An error occurred"

  /** The `catch` branch: the first marker, in this order, that the service's
      message contains picks the text shown (`includes` is case-sensitive);
      otherwise the message itself, or a fallback when it is empty. */
  function MapError(message: string): (r: string)
    ensures r != ""
    ensures r == message || r in {EmailMessage, PasswordMessage, TakenMessage, InvalidLoginMessage, FallbackMessage}
  {
    if Includes(message, "Email") then EmailMessage
    else if Includes(message, "Password") then PasswordMessage
    else if Includes(message, "already taken") then TakenMessage
    else if Includes(message, "Invalid login") then InvalidLoginMessage
    else if message != "" then message
    else FallbackMessage
  }

  /** The markers with the text each one selects, in the order they are tried. */
  const ErrorMarkers: seq<(string, string)> := [
    ("Email", EmailMessage), ("Password", PasswordMessage),
    ("already taken", TakenMessage), ("Invalid login", InvalidLoginMessage)]

  /** An independent reading of the cascade as a first-match table lookup. */
  function MapErrorByTable(message: string): string {
    match FirstWhere(ErrorMarkers, (m: (string, string)) => Includes(message, m.0), 0)
    case Some(i) => ErrorMarkers[i].1
    case None => if message != "" then message else FallbackMessage
  }

  lemma MapErrorIsFirstMarker(message: string)
    ensures MapError(message) == MapErrorByTable(message)
  {
    var holds := (m: (string, string)) => Includes(message, m.0);
    var f := FirstWhere(ErrorMarkers, holds, 0);
    assert holds(ErrorMarkers[0]) <==> Contains(message, "Email");
    assert holds(ErrorMarkers[1]) <==> Contains(message, "Password");
    assert holds(ErrorMarkers[2]) <==> Contains(message, "already taken");
    assert holds(ErrorMarkers[3]) <==> Contains(message, "Invalid login");
    if f.Some? {
      assert f.value < 4;
    }
  }

  /** The cascade order matters: a message naming the email and saying it is
      already taken shows the email text, not the duplicate-account text. */
  lemma EmailMarkerShadowsTaken()
    ensures MapError("Email 'a@b.c' is already taken.") == EmailMessage
  {
    assert OccursAt("Email 'a@b.c' is already taken.", "Email", 0);
  }

  // ----- submitting -----

  datatype AuthRequest = Register(email: string, password: string) | SignIn(email: string, password: string)

  /** The error the page shows once `handleSubmit` finishes, given the auth
      service's outcome (`None` for success, the thrown message otherwise). */
  function SubmitError(isRegistering: bool, password: string, confirmPassword: string, failure: Option<string>): (r: string)
    ensures PreCheck(isRegistering, password, confirmPassword).None? && failure.None? ==> r == ""
    ensures PreCheck(isRegistering, password, confirmPassword).Some? ==> r == PreCheck(isRegistering, password, confirmPassword).value
    ensures PreCheck(isRegistering, password, confirmPassword).None? && failure.Some? ==> r == MapError(failure.value)
  {
    match PreCheck(isRegistering, password, confirmPassword)
    case Some(e) => e
    case None => if failure.Some? then MapError(failure.value) else ""
  }

  /** The page state `handleSubmit` reads and writes. */
  class LoginForm {
    var isRegistering: bool
    var email: string
    var password: string
    var confirmPassword: string
    var error: string

    constructor ()
      ensures !isRegistering && email == "" && password == "" && confirmPassword == "" && error == ""
    {
      isRegistering := false;
      email := "";
      password := "";
      confirmPassword := "";
      error := "";
    }

    /** `handleSubmit`. The auth service is a parameter: `failure` is what the
        call would throw, `None` when it succeeds. Returns the call made, if
        any; only `error` changes. */
    method HandleSubmit(failure: Option<string>) returns (call: Option<AuthRequest>)
      modifies this`error
      ensures call.Some? <==> PreCheck(isRegistering, password, confirmPassword).None?
      ensures call.Some? ==> call.value == if isRegistering then Register(email, password) else SignIn(email, password)
      ensures error == SubmitError(isRegistering, password, confirmPassword, failure)
    {
      error := "";
      if isRegistering {
        if password != confirmPassword {
          error := MismatchMessage;
          return None;
        }
        var validation := GetPasswordValidation(password);
        var failedRules := FailedNames(validation);
        if |failedRules| > 0 {
          error := RequirementsPrefix + Join(failedRules, ", ");
          return None;
        }
      }
      if isRegistering {
        call := Some(Register(email, password));
      } else {
        call := Some(SignIn(email, password));
      }
      if failure.Some? {
        error := MapError(failure.value);
      }
    }
  }
}
