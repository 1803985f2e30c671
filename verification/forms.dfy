/** The sign-up and sign-in forms: the email pattern both use, the error map
    each form's check builds, the request a form sends only when its map is
    empty, and how the sign-up check compares with the server's schema. */
module Forms {
  import opened Common
  import opened Text
  import opened JsonValues
  import opened Users
  import opened Validations

  // ---- the email pattern /\S+@\S+\.\S+/ ----

  /** An occurrence of the pattern with its '@' at `at` and its '.' at `dot`:
      a non-blank before the '@', a non-empty run of non-blanks between the
      two, and a non-blank after the '.'.  The pattern is unanchored, so
      anything may surround the occurrence. */
  predicate Witness(s: string, at: int, dot: int) {
    && 0 < at && at + 1 < dot && dot + 1 < |s|
    && s[at] == '@' && s[dot] == '.'
    && !IsSpace(s[at - 1]) && !IsSpace(s[dot + 1])
    && forall m :: at < m < dot ==> !IsSpace(s[m])
  }

  /** `/\S+@\S+\.\S+/.test(s)`. */
  predicate EmailPattern(s: string) {
    exists at, dot | 0 < at < |s| && 0 < dot < |s| :: Witness(s, at, dot)
  }

  /** A left-to-right search for an occurrence: for each '@' with a non-blank
      before it, walk the run of non-blanks after it looking for a '.' that
      closes an occurrence. */
  method EmailPatternTest(s: string) returns (b: bool)
    ensures b <==> EmailPattern(s)
  {
    var at := 1;
    while at < |s|
      invariant 1 <= at
      invariant forall a, d :: a < at ==> !Witness(s, a, d)
    {
      if s[at] == '@' && !IsSpace(s[at - 1]) {
        var dot := at + 1;
        while dot + 1 < |s| && !IsSpace(s[dot])
          invariant at + 1 <= dot <= |s|
          invariant forall m :: at < m < dot ==> !IsSpace(s[m])
          invariant forall d :: d < dot ==> !Witness(s, at, d)
        {
          if s[dot] == '.' && dot > at + 1 && !IsSpace(s[dot + 1]) {
            assert Witness(s, at, dot);
            return true;
          }
          dot := dot + 1;
        }
        RunEnds(s, at, dot);
      }
      at := at + 1;
    }
    return false;
  }

  /** Once the run of non-blanks after an '@' stops at `dot` (a blank, or too
      close to the end for a '.' and one more character), no occurrence has
      its '.' at or past `dot`. */
  lemma RunEnds(s: string, at: int, dot: int)
    requires 0 <= at < dot <= |s|
    requires dot + 1 >= |s| || IsSpace(s[dot])
    ensures forall d :: dot <= d ==> !Witness(s, at, d)
  {
    forall d | dot <= d && at + 1 < d && d + 1 < |s|
      ensures !Witness(s, at, d)
    {
      assert IsSpace(s[dot]);
      if dot < d {
        assert at < dot < d;
      } else {
        assert s[d] != '.';
      }
    }
  }

  /** Every address of the shape local@domain.tld with non-empty, blank-free
      parts matches. */
  lemma {:induction false} EmailShapeMatches(local: string, domain: string, tld: string)
    requires local != [] && domain != [] && tld != []
    requires forall i :: 0 <= i < |local| ==> !IsSpace(local[i])
    requires forall i :: 0 <= i < |domain| ==> !IsSpace(domain[i])
    requires forall i :: 0 <= i < |tld| ==> !IsSpace(tld[i])
    ensures EmailPattern(local + "@" + domain + "." + tld)
  {
    var s := local + "@" + domain + "." + tld;
    var at := |local|;
    var dot := |local| + 1 + |domain|;
    assert s[at - 1] == local[|local| - 1];
    assert s[at] == '@' && s[dot] == '.';
    assert s[dot + 1] == tld[0];
    forall m | at < m < dot ensures !IsSpace(s[m]) {
      assert s[m] == domain[m - at - 1];
    }
    assert Witness(s, at, dot);
  }

  /** Without an '@' or without a '.' nothing matches. */
  lemma MissingSymbolFails(s: string)
    requires '@' !in s || '.' !in s
    ensures !EmailPattern(s)
  {
    forall at, dot | 0 < at < |s| && 0 < dot < |s| ensures !Witness(s, at, dot) {
      assert s[at] in s && s[dot] in s;
    }
  }

  // ---- the error messages ----

  const EMAIL_REQUIRED: string := "Email is required"
  const EMAIL_INVALID: string := "Email is invalid"
  const PASSWORD_REQUIRED: string := "Password is required"
  const PASSWORD_SHORT: string := "Password must be at least 8 characters"
  const CONFIRM_REQUIRED: string := "Please confirm your password"
  const CONFIRM_MISMATCH: string := "Passwords do not match"
  const NAME_REQUIRED: string := "Full name is required"
  const ROLE_REQUIRED: string := "Please select your role"

  const MIN_PASSWORD: int := 8

  /** The email check both forms share: required first, then the pattern. */
  function EmailError(email: string): (r: Option<string>)
    ensures r == None <==> email != "" && EmailPattern(email)
    ensures email == "" ==> r == Some(EMAIL_REQUIRED)
    ensures email != "" && !EmailPattern(email) ==> r == Some(EMAIL_INVALID)
  {
    if email == "" then Some(EMAIL_REQUIRED)
    else if !EmailPattern(email) then Some(EMAIL_INVALID)
    else None
  }

  /** The error map of a form: the fields whose check reports a message. */
  function ErrorMap(fields: set<string>, check: string -> Option<string>): (m: map<string, string>)
    ensures m.Keys <= fields
    ensures forall field :: field in m <==> field in fields && check(field).Some?
    ensures forall field :: field in m ==> m[field] == check(field).value
  {
    map field | field in fields && check(field).Some? :: check(field).value
  }

  // ---- the sign-up form ----

  /** The sign-up form; `userType` is None while no role is selected. */
  datatype RegisterForm = RegisterForm(
    email: string,
    password: string,
    confirmPassword: string,
    fullName: string,
    userType: Option<UserType>,
    anonymityLevel: int)

  const REGISTER_FIELDS: set<string> := {"email", "password", "confirmPassword", "fullName", "userType"}

  /** The message the sign-up check gives for one field, if any. */
  function RegisterFieldError(f: RegisterForm, field: string): Option<string> {
    match field
    case "email" => EmailError(f.email)
    case "password" =>
      if f.password == "" then Some(PASSWORD_REQUIRED)
      else if |f.password| < MIN_PASSWORD then Some(PASSWORD_SHORT) else None
    case "confirmPassword" =>
      if f.confirmPassword == "" then Some(CONFIRM_REQUIRED)
      else if f.password != f.confirmPassword then Some(CONFIRM_MISMATCH) else None
    case "fullName" => if f.fullName == "" then Some(NAME_REQUIRED) else None
    case "userType" => if f.userType.None? then Some(ROLE_REQUIRED) else None
    case _ => None
  }

  /** `validateForm` of the sign-up page: one message per failing field. */
  function RegisterErrors(f: RegisterForm): (e: map<string, string>)
    ensures e.Keys <= REGISTER_FIELDS
    ensures ("email" in e <==> EmailError(f.email).Some?) && ("email" in e ==> Some(e["email"]) == EmailError(f.email))
    ensures "password" in e <==> |f.password| < MIN_PASSWORD
    ensures "password" in e ==> e["password"] == if f.password == "" then PASSWORD_REQUIRED else PASSWORD_SHORT
    ensures "confirmPassword" in e <==> f.confirmPassword == "" || f.password != f.confirmPassword
    ensures "confirmPassword" in e ==> e["confirmPassword"] == if f.confirmPassword == "" then CONFIRM_REQUIRED else CONFIRM_MISMATCH
    ensures "fullName" in e <==> f.fullName == ""
    ensures "fullName" in e ==> e["fullName"] == NAME_REQUIRED
    ensures "userType" in e <==> f.userType.None?
    ensures "userType" in e ==> e["userType"] == ROLE_REQUIRED
  {
    ErrorMap(REGISTER_FIELDS, (field: string) => RegisterFieldError(f, field))
  }

  /** The sign-up form passes exactly when the email matches the pattern, the
      password has at least eight characters and is repeated, a name is
      typed and a role is chosen; the two "required" checks of the password
      fields are implied by the others. */
  lemma RegisterFormValidIff(f: RegisterForm)
    ensures RegisterErrors(f) == map[] <==>
      && f.email != "" && EmailPattern(f.email)
      && |f.password| >= MIN_PASSWORD && f.confirmPassword == f.password
      && f.fullName != "" && f.userType.Some?
  {
    var e := RegisterErrors(f);
    if e == map[] {
      assert "email" !in e && "password" !in e && "confirmPassword" !in e && "fullName" !in e && "userType" !in e;
    }
  }

  /** `handleSubmit`: the registration request, sent only for a form without
      errors, with the slider's level. */
  function SubmitRegistration(f: RegisterForm): (r: Option<Json>)
    ensures r.Some? <==> RegisterErrors(f) == map[]
    ensures r.Some? ==> f.userType.Some?
    ensures r.Some? ==> r.value == RegisterBody(RegisterInput(f.email, f.password, f.fullName, f.userType.value, f.anonymityLevel))
  {
    if RegisterErrors(f) != map[] then None
    else
      RegisterFormValidIff(f);
      Some(RegisterBody(RegisterInput(f.email, f.password, f.fullName, f.userType.value, f.anonymityLevel)))
  }

  /** A submitted sign-up is accepted by the server's schema whenever its
      email also passes the schema's format, its name has two or more
      characters and its level is in range: it parses to the form's fields. */
  lemma SubmittedRegistrationParses(f: RegisterForm, formats: Formats)
    requires SubmitRegistration(f).Some?
    requires formats.isEmail(f.email) && |f.fullName| >= 2 && 0 <= f.anonymityLevel <= 100
    ensures ParseRegister(SubmitRegistration(f).value, formats)
         == Some(RegisterInput(f.email, f.password, f.fullName, f.userType.value, f.anonymityLevel))
  {
    RegisterFormValidIff(f);
    RegisterRoundTrip(RegisterInput(f.email, f.password, f.fullName, f.userType.value, f.anonymityLevel), formats);
  }

  /** The page asks only for a non-empty name while the schema wants two
      characters: a one-character name passes the page and is refused by
      the server. */
  lemma OneLetterNamePassesPageOnly(f: RegisterForm, formats: Formats)
    requires RegisterErrors(f) == map[] && |f.fullName| == 1
    ensures SubmitRegistration(f).Some?
    ensures ParseRegister(SubmitRegistration(f).value, formats).None?
  {
    var b := SubmitRegistration(f).value;
    assert Get(b, "fullName") == Some(JStr(f.fullName));
  }

  // ---- the privacy slider ----

  /** The slider runs from 0 to 100 in steps of 25. */
  const SLIDER_STEP: int := 25

  predicate SliderLevel(level: int) {
    0 <= level <= 100 && level % SLIDER_STEP == 0
  }

  /** `anonymityLabels[level]`: a caption for each slider stop. */
  function AnonymityLabel(level: int): (r: Option<string>)
    ensures r.Some? <==> level in {0, 25, 50, 75, 100}
  {
    match level
    case 0 => Some("Public Profile")
    case 25 => Some("Minimal Privacy")
    case 50 => Some("Balanced Privacy")
    case 75 => Some("High Privacy")
    case 100 => Some("Anonymous")
    case _ => None
  }

  /** Every stop of the slider has a caption and is a level the server's
      schema accepts, the starting level 50 included. */
  lemma SliderStopsLabelled(level: int)
    requires SliderLevel(level)
    ensures AnonymityLabel(level).Some?
    ensures 0 <= level <= 100
  {
  }

  // ---- the sign-in form ----

  const LOGIN_FIELDS: set<string> := {"email", "password"}

  function LoginFieldError(email: string, password: string, field: string): Option<string> {
    match field
    case "email" => EmailError(email)
    case "password" => if password == "" then Some(PASSWORD_REQUIRED) else None
    case _ => None
  }

  /** `validateForm` of the sign-in page: the shared email check and a
      required password, with no length rule. */
  function LoginErrors(email: string, password: string): (e: map<string, string>)
    ensures e.Keys <= LOGIN_FIELDS
    ensures ("email" in e <==> EmailError(email).Some?) && ("email" in e ==> Some(e["email"]) == EmailError(email))
    ensures "password" in e <==> password == ""
    ensures "password" in e ==> e["password"] == PASSWORD_REQUIRED
  {
    ErrorMap(LOGIN_FIELDS, (field: string) => LoginFieldError(email, password, field))
  }

  /** The sign-in body `{ email, password }`. */
  function LoginBody(email: string, password: string): (b: Json)
    ensures b.JObj? && b.fields.Keys == {"email", "password"}
    ensures Get(b, "email") == Some(JStr(email)) && Get(b, "password") == Some(JStr(password))
  {
    JObj(map["email" := JStr(email), "password" := JStr(password)])
  }

  /** `handleSubmit`: `login` is called only for a form without errors. */
  function SubmitLogin(email: string, password: string): (r: Option<Json>)
    ensures r.Some? <==> email != "" && EmailPattern(email) && password != ""
    ensures r.Some? ==> r.value == LoginBody(email, password)
  {
    var e := LoginErrors(email, password);
    if e != map[] then None
    else
      assert "email" !in e && "password" !in e;
      Some(LoginBody(email, password))
  }

  /** The page's password rule is the schema's: for an email both accept,
      the page sends the form exactly when the server would parse it. */
  lemma LoginGuardMatchesSchema(email: string, password: string, formats: Formats)
    requires EmailPattern(email) && formats.isEmail(email)
    ensures SubmitLogin(email, password).Some? <==> ParseLogin(LoginBody(email, password), formats).Some?
    ensures SubmitLogin(email, password).Some? ==> ParseLogin(LoginBody(email, password), formats) == Some(LoginInput(email, password))
  {
    assert 0 < |email| by {
      var at, dot :| 0 < at < |email| && 0 < dot < |email| && Witness(email, at, dot);
    }
  }
}
