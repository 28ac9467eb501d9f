/** server/lib/api/auth.ts, the useSignupForm and useLoginForm hooks: the form data and the per-field
    error map each hook keeps, the client-side validation that fills the map, and the request a valid
    form is submitted as. The state a hook keeps with useState is the fields of an object. */
module ClientForms {
  import opened Common
  import opened Text
  import opened EmailFormat
  import HelpersGo
  import HelpersTs
  import ClientApi

  /** A value typed into a form: the text of an input or the state of a checkbox. */
  datatype FieldValue = Text(text: string) | Flag(flag: bool)

  /** handleInputChange's treatment of the error map: a truthy error of the edited field is blanked
      (set to "", not removed); every other entry is left alone. */
  function ClearError(errors: map<string, string>, field: string): (cleared: map<string, string>)
    ensures cleared.Keys == errors.Keys
    ensures field in cleared ==> cleared[field] == ""
    ensures forall k | k in errors && k != field :: cleared[k] == errors[k]
  {
    if field in errors && errors[field] != "" then errors[field := ""] else errors
  }

  /** Editing a field twice blanks its error once. */
  lemma ClearErrorIdempotent(errors: map<string, string>, field: string)
    ensures ClearError(ClearError(errors, field), field) == ClearError(errors, field)
  {
  }

  /** The email rule of both forms: "Email is required" for a blank address, the pattern message for
      one that does not match. */
  function EmailError(email: string): (err: Option<string>)
    ensures err.None? <==> Trim(email) != "" && ClientEmailOk(email)
    ensures Trim(email) == "" ==> err == Some("Email is required")
    ensures Trim(email) != "" && !ClientEmailOk(email) ==> err == Some("Please enter a valid email address")
  {
    if Trim(email) == "" then Some("Email is required")
    else if !ClientEmailOk(email) then Some("Please enter a valid email address")
    else None
  }

  // ---------------------------------------------------------------- signup

  datatype SignupData = SignupData(firstName: string, lastName: string, email: string, grade: string,
                                   password: string, confirmPassword: string, agreeTerms: bool)

  const EmptySignup := SignupData("", "", "", "", "", "", false)

  /** What the signup form accepts: names not blank, an email that is not blank and matches the
      forms' pattern, a grade chosen, a password of at least 8 characters equal to its confirmation,
      and the terms agreed. */
  predicate SignupAcceptable(d: SignupData) {
    Trim(d.firstName) != "" && Trim(d.lastName) != "" && EmailError(d.email).None? &&
    d.grade != "" && |d.password| >= 8 && d.password == d.confirmPassword && d.agreeTerms
  }

  /** The password rule of the signup form. */
  function PasswordError(password: string): (err: Option<string>)
    ensures err.None? <==> |password| >= 8
    ensures password == "" ==> err == Some("Password is required")
    ensures password != "" && |password| < 8 ==> err == Some("Password must be at least 8 characters long")
  {
    if password == "" then Some("Password is required")
    else if |password| < 8 then Some("Password must be at least 8 characters long")
    else None
  }

  /** The fields of the signup form, in the order validateForm checks them. */
  datatype SignupField =
    | FirstNameField | LastNameField | EmailField | GradeField | PasswordField | ConfirmPasswordField
    | AgreeTermsField

  /** The key of a field in the form data and in the error map. */
  function FieldName(f: SignupField): string {
    match f
    case FirstNameField => "firstName"
    case LastNameField => "lastName"
    case EmailField => "email"
    case GradeField => "grade"
    case PasswordField => "password"
    case ConfirmPasswordField => "confirmPassword"
    case AgreeTermsField => "agreeTerms"
  }

  /** Different fields have different keys. */
  lemma FieldNameInjective()
    ensures forall f, g | FieldName(f) == FieldName(g) :: f == g
  {
  }

  /** The rule validateForm checks for one field, once the email rule has given `emailError`: the
      message it records, or None when the field passes. */
  function SignupRule(d: SignupData, emailError: Option<string>, f: SignupField): Option<string> {
    match f
    case FirstNameField => if Trim(d.firstName) == "" then Some("First name is required") else None
    case LastNameField => if Trim(d.lastName) == "" then Some("Last name is required") else None
    case EmailField => emailError
    case GradeField => if d.grade == "" then Some("Please select your grade level") else None
    case PasswordField => PasswordError(d.password)
    case ConfirmPasswordField => if d.password != d.confirmPassword then Some("Passwords do not match") else None
    case AgreeTermsField =>
      if !d.agreeTerms then Some("You must agree to the Terms of Service and Privacy Policy") else None
  }

  /** One step of validateForm: a failing rule records its message under its field. */
  function Note(errors: map<string, string>, field: string, err: Option<string>): (noted: map<string, string>)
    ensures field in noted <==> field in errors || err.Some?
    ensures err.Some? ==> noted[field] == err.value
    ensures forall k | k != field :: k in noted <==> k in errors
    ensures forall k | k != field && k in errors :: noted[k] == errors[k]
  {
    if err.Some? then errors[field := err.value] else errors
  }

  /** The order in which validateForm checks the fields. */
  const SignupOrder := [FirstNameField, LastNameField, EmailField, GradeField, PasswordField,
                        ConfirmPasswordField, AgreeTermsField]

  /** validateForm checks every field. */
  lemma SignupOrderComplete()
    ensures forall f :: f in SignupOrder
  {
    forall f ensures f in SignupOrder {
      match f
      case FirstNameField => assert SignupOrder[0] == f;
      case LastNameField => assert SignupOrder[1] == f;
      case EmailField => assert SignupOrder[2] == f;
      case GradeField => assert SignupOrder[3] == f;
      case PasswordField => assert SignupOrder[4] == f;
      case ConfirmPasswordField => assert SignupOrder[5] == f;
      case AgreeTermsField => assert SignupOrder[6] == f;
    }
  }

  /** The error map after validateForm has checked `fields` in order, `rule` giving the message of a
      failing field: an entry exactly for each checked field whose rule fails, keyed by the field and
      holding the rule's message, and no other entry. */
  function ErrorsOver(rule: SignupField -> Option<string>, fields: seq<SignupField>): (errors: map<string, string>)
    ensures forall f :: FieldName(f) in errors <==> f in fields && rule(f).Some?
    ensures forall f | FieldName(f) in errors :: errors[FieldName(f)] == rule(f).value
    ensures forall k | k in errors :: exists f :: k == FieldName(f)
    decreases |fields|
  {
    if fields == [] then map[]
    else
      var f := fields[|fields| - 1];
      FieldNameInjective();
      assert fields == fields[..|fields| - 1] + [f];
      Note(ErrorsOver(rule, fields[..|fields| - 1]), FieldName(f), rule(f))
  }

  /** The error map of the signup form once the email rule has given `emailError`: an entry exactly
      for each failing rule, keyed by its field and holding that rule's message, and no other entry. */
  function SignupErrorsWith(d: SignupData, emailError: Option<string>): (errors: map<string, string>)
    ensures forall f :: FieldName(f) in errors <==> SignupRule(d, emailError, f).Some?
    ensures forall f | FieldName(f) in errors :: errors[FieldName(f)] == SignupRule(d, emailError, f).value
    ensures forall k | k in errors :: exists f :: k == FieldName(f)
  {
    SignupOrderComplete();
    ErrorsOver(f => SignupRule(d, emailError, f), SignupOrder)
  }

  /** The error map validateForm of the signup form builds. Unlike the server, every rule is checked
      and reported. */
  function SignupErrors(d: SignupData): map<string, string> {
    SignupErrorsWith(d, EmailError(d.email))
  }

  /** The email entry of the signup error map is the email rule's message, and a blank address is
      reported as missing. */
  lemma SignupEmailEntry(d: SignupData)
    ensures "email" in SignupErrors(d) <==> Trim(d.email) == "" || !ClientEmailOk(d.email)
    ensures "email" in SignupErrors(d) ==> SignupErrors(d)["email"] == EmailError(d.email).value
    ensures Trim(d.email) == "" ==> SignupErrors(d)["email"] == "Email is required"
  {
    assert FieldName(EmailField) == "email";
  }

  /** The form is acceptable exactly when the error map would be empty, whatever the email rule
      said. */
  lemma SignupErrorsWithEmptyIff(d: SignupData, emailError: Option<string>)
    ensures |SignupErrorsWith(d, emailError)| == 0 <==>
      Trim(d.firstName) != "" && Trim(d.lastName) != "" && emailError.None? && d.grade != "" &&
      |d.password| >= 8 && d.password == d.confirmPassword && d.agreeTerms
  {
    var errors := SignupErrorsWith(d, emailError);
    var failing :=
      if Trim(d.firstName) == "" then Some(FirstNameField)
      else if Trim(d.lastName) == "" then Some(LastNameField)
      else if emailError.Some? then Some(EmailField)
      else if d.grade == "" then Some(GradeField)
      else if |d.password| < 8 then Some(PasswordField)
      else if d.password != d.confirmPassword then Some(ConfirmPasswordField)
      else if !d.agreeTerms then Some(AgreeTermsField)
      else None;
    if failing.Some? {
      assert FieldName(failing.value) in errors;
    } else {
      forall f ensures SignupRule(d, emailError, f).None? {
        match f
        case FirstNameField =>
        case LastNameField =>
        case EmailField =>
        case GradeField =>
        case PasswordField =>
        case ConfirmPasswordField =>
        case AgreeTermsField =>
      }
      assert errors.Keys == {};
    }
  }

  /** validateForm answers true exactly when the form is acceptable. */
  lemma SignupErrorsEmptyIff(d: SignupData)
    ensures |SignupErrors(d)| == 0 <==> SignupAcceptable(d)
  {
    SignupErrorsWithEmptyIff(d, EmailError(d.email));
  }

  /** One entry of gradeOptions in handleSubmit. */
  datatype GradeOption = GradeOption(value: string, title: string, category: string, tier: string)

  const GradeOptions := [
    GradeOption("grade-4", "Grade 4", "primary", "Primary CBC"),
    GradeOption("grade-5", "Grade 5", "primary", "Primary CBC"),
    GradeOption("grade-6", "Grade 6", "primary", "Primary CBC"),
    GradeOption("grade-7", "Grade 7", "junior", "Junior Secondary"),
    GradeOption("grade-8", "Grade 8", "junior", "Junior Secondary"),
    GradeOption("grade-9", "Grade 9", "junior", "Junior Secondary"),
    GradeOption("grade-10", "Grade 10", "senior", "Senior Secondary"),
    GradeOption("grade-11", "Grade 11", "senior", "Senior Secondary"),
    GradeOption("grade-12", "Grade 12", "senior", "Senior Secondary")
  ]

  /** `options.find(g => g.value === value)`: the first option with that value. */
  function FindGrade(options: seq<GradeOption>, value: string): (found: Option<GradeOption>)
    ensures found.Some? <==> exists i | 0 <= i < |options| :: options[i].value == value
    ensures found.Some? ==> found.value in options && found.value.value == value
    ensures found.Some? ==>
      exists i | 0 <= i < |options| :: options[i] == found.value && forall j | 0 <= j < i :: options[j].value != value
  {
    if options == [] then None
    else if options[0].value == value then Some(options[0])
    else
      var rest := FindGrade(options[1..], value);
      assert forall i | 1 <= i < |options| :: options[i] == options[1..][i - 1];
      assert rest.Some? ==>
        exists i | 0 <= i < |options| :: options[i] == rest.value && forall j | 0 <= j < i :: options[j].value != value
      by {
        if rest.Some? {
          var k :| 0 <= k < |options[1..]| && options[1..][k] == rest.value &&
                   forall j | 0 <= j < k :: options[1..][j].value != value;
          assert options[k + 1] == rest.value;
        }
      }
      rest
  }

  /** Each grade option is an entry of the server's grade table, with the same category and tier. */
  lemma GradeOptionAgrees(i: int)
    requires 0 <= i < |GradeOptions|
    ensures GradeOptions[i].value in HelpersTs.TsGradeConfig
    ensures HelpersTs.TsGradeConfig[GradeOptions[i].value].category == GradeOptions[i].category
    ensures HelpersTs.TsGradeConfig[GradeOptions[i].value].tier == GradeOptions[i].tier
  {
  }

  /** Each entry of the server's grade table is offered by the form. */
  lemma ServerGradeOffered(value: string)
    requires value in HelpersTs.TsGradeConfig
    ensures exists i | 0 <= i < |GradeOptions| :: GradeOptions[i].value == value
  {
    var values := ["grade-4", "grade-5", "grade-6", "grade-7", "grade-8", "grade-9", "grade-10", "grade-11", "grade-12"];
    assert value == "grade-4" || value == "grade-5" || value == "grade-6" || value == "grade-7" || value == "grade-8" ||
           value == "grade-9" || value == "grade-10" || value == "grade-11" || value == "grade-12";
    assert value in values;
    var i :| 0 <= i < 9 && values[i] == value;
    assert GradeOptions[i].value == values[i];
  }

  /** The form's grade list is the server's grade table: the same keys, each with the same category
      and tier. */
  lemma GradeOptionsMatchServer(value: string)
    ensures FindGrade(GradeOptions, value).Some? <==> value in HelpersTs.TsGradeConfig
    ensures FindGrade(GradeOptions, value).Some? ==>
      FindGrade(GradeOptions, value).value.category == HelpersTs.TsGradeConfig[value].category &&
      FindGrade(GradeOptions, value).value.tier == HelpersTs.TsGradeConfig[value].tier
  {
    var found := FindGrade(GradeOptions, value);
    if found.Some? {
      var i :| 0 <= i < |GradeOptions| && GradeOptions[i] == found.value;
      GradeOptionAgrees(i);
    } else if value in HelpersTs.TsGradeConfig {
      ServerGradeOffered(value);
    }
  }

  /** The request handleSubmit sends for a form and its grade option: names trimmed, the email trimmed
      and lower-cased, and the option's value, tier and category. */
  function SignupRequest(d: SignupData, option: GradeOption): (req: HelpersGo.RegisterRequest)
    ensures req.firstName == Trim(d.firstName) && req.lastName == Trim(d.lastName)
    ensures req.email == ToLower(Trim(d.email)) && req.grade == d.grade
    ensures req.gradeLevel == option.value && req.gradeTier == option.tier && req.gradeCategory == option.category
    ensures req.password == d.password && req.confirmPassword == d.confirmPassword && req.agreeTerms == d.agreeTerms
  {
    HelpersGo.RegisterRequest(Trim(d.firstName), Trim(d.lastName), ToLower(Trim(d.email)), d.grade, option.value,
                              option.tier, option.category, d.password, d.confirmPassword, d.agreeTerms)
  }

  /** The form lets through names the server refuses: a one-letter first name. */
  lemma SignupLooserThanServer(d: SignupData, option: GradeOption)
    requires SignupAcceptable(d) && Trim(d.firstName) == "A"
    ensures HelpersTs.ValidateRegistration(SignupRequest(d, option)).Some?
  {
  }

  /** The state of useSignupForm. */
  class SignupForm {
    var data: SignupData
    var fieldErrors: map<string, string>

    constructor ()
      ensures data == EmptySignup && fieldErrors == map[]
    {
      data := EmptySignup;
      fieldErrors := map[];
    }

    /** handleInputChange: the named field takes the value (a value of the other kind, or an unknown
        field, leaves the data as it was) and that field's error is blanked. */
    method HandleInputChange(field: string, value: FieldValue)
      modifies this
      ensures fieldErrors == ClearError(old(fieldErrors), field)
      ensures field == "firstName" && value.Text? ==> data == old(data).(firstName := value.text)
      ensures field == "lastName" && value.Text? ==> data == old(data).(lastName := value.text)
      ensures field == "email" && value.Text? ==> data == old(data).(email := value.text)
      ensures field == "grade" && value.Text? ==> data == old(data).(grade := value.text)
      ensures field == "password" && value.Text? ==> data == old(data).(password := value.text)
      ensures field == "confirmPassword" && value.Text? ==> data == old(data).(confirmPassword := value.text)
      ensures field == "agreeTerms" && value.Flag? ==> data == old(data).(agreeTerms := value.flag)
      ensures field !in {"firstName", "lastName", "email", "grade", "password", "confirmPassword", "agreeTerms"} ==>
        data == old(data)
    {
      match value {
        case Text(t) =>
          if field == "firstName" { data := data.(firstName := t); }
          else if field == "lastName" { data := data.(lastName := t); }
          else if field == "email" { data := data.(email := t); }
          else if field == "grade" { data := data.(grade := t); }
          else if field == "password" { data := data.(password := t); }
          else if field == "confirmPassword" { data := data.(confirmPassword := t); }
        case Flag(b) =>
          if field == "agreeTerms" { data := data.(agreeTerms := b); }
      }
      fieldErrors := ClearError(fieldErrors, field);
    }

    /** validateForm: the error map is replaced by SignupErrors of the data, and the answer is whether
        it is empty, which SignupErrorsEmptyIff ties to SignupAcceptable. */
    method ValidateForm() returns (valid: bool)
      modifies this`fieldErrors
      ensures data == old(data)
      ensures fieldErrors == SignupErrors(old(data))
      ensures valid <==> |fieldErrors| == 0
    {
      fieldErrors := SignupErrors(data);
      valid := |fieldErrors| == 0;
    }

    /** handleSubmit: nothing is sent for an invalid form or a grade outside gradeOptions ("Invalid
        grade selection" then becomes the only error); otherwise the request sent is SignupRequest,
        whose grade the server knows. */
    method HandleSubmit() returns (sent: Option<HelpersGo.RegisterRequest>)
      modifies this`fieldErrors
      ensures !SignupAcceptable(data) ==> sent.None? && fieldErrors == SignupErrors(data)
      ensures SignupAcceptable(data) && FindGrade(GradeOptions, data.grade).None? ==>
        sent.None? && fieldErrors == map["grade" := "Invalid grade selection"]
      ensures sent.Some? <==> SignupAcceptable(data) && data.grade in HelpersTs.TsGradeConfig
      ensures sent.Some? ==>
        sent.value == SignupRequest(data, FindGrade(GradeOptions, data.grade).value) &&
        HelpersTs.TsKnownGrade(sent.value.gradeLevel) &&
        fieldErrors == map[]
    {
      SignupErrorsEmptyIff(data);
      GradeOptionsMatchServer(data.grade);
      var valid := ValidateForm();
      if !valid {
        return None;
      }
      var selected := FindGrade(GradeOptions, data.grade);
      if selected.None? {
        fieldErrors := map["grade" := "Invalid grade selection"];
        return None;
      }
      sent := Some(SignupRequest(data, selected.value));
    }

    /** The catch of handleSubmit: an error the server ties to a field becomes the only error shown,
        on that field; any other error leaves the map alone. */
    method ShowServerError(err: ClientApi.ClientError)
      modifies this`fieldErrors
      ensures Truthy(err.field) ==> fieldErrors == map[err.field.value := err.message]
      ensures !Truthy(err.field) ==> fieldErrors == old(fieldErrors)
    {
      if Truthy(err.field) {
        fieldErrors := map[err.field.value := err.message];
      }
    }
  }

  // ---------------------------------------------------------------- login

  datatype LoginData = LoginData(email: string, password: string, rememberMe: bool)

  /** What the login form accepts: an email that is not blank and matches the forms' pattern, and a
      password. */
  predicate LoginAcceptable(d: LoginData) {
    EmailError(d.email).None? && d.password != ""
  }

  /** The message validateForm of the login form records for a field, None when its rule holds;
      `emailError` is the outcome of the email rule. */
  function LoginRule(d: LoginData, emailError: Option<string>, field: string): Option<string> {
    if field == "email" then emailError
    else if field == "password" then (if d.password == "" then Some("Password is required") else None)
    else None
  }

  /** The error map of the login form once the email rule has given `emailError`. */
  function LoginErrorsWith(d: LoginData, emailError: Option<string>): (errors: map<string, string>)
    ensures "email" in errors <==> emailError.Some?
    ensures "password" in errors <==> d.password == ""
    ensures errors.Keys <= {"email", "password"}
    ensures "email" in errors ==> errors["email"] == emailError.value
    ensures "password" in errors ==> errors["password"] == "Password is required"
    ensures |errors| == 0 <==> emailError.None? && d.password != ""
  {
    var errors := map field | field in {"email", "password"} && LoginRule(d, emailError, field).Some? ::
      LoginRule(d, emailError, field).value;
    assert emailError.None? && d.password != "" ==> errors.Keys == {};
    errors
  }

  /** The error map validateForm of the login form builds. */
  function LoginErrors(d: LoginData): (errors: map<string, string>)
    ensures "email" in errors <==> EmailError(d.email).Some?
    ensures "email" in errors ==> errors["email"] == EmailError(d.email).value
    ensures Trim(d.email) == "" ==> errors["email"] == "Email is required"
    ensures "password" in errors <==> d.password == ""
    ensures "password" in errors ==> errors["password"] == "Password is required"
    ensures |errors| == 0 <==> LoginAcceptable(d)
  {
    LoginErrorsWith(d, EmailError(d.email))
  }

  /** The request the login form sends: the email trimmed and lower-cased. */
  function LoginRequestOf(d: LoginData): (req: HelpersGo.LoginRequest)
    ensures req.email == ToLower(Trim(d.email)) && req.password == d.password
  {
    HelpersGo.LoginRequest(ToLower(Trim(d.email)), d.password)
  }

  /** The state of useLoginForm. */
  class LoginForm {
    var data: LoginData
    var fieldErrors: map<string, string>

    constructor ()
      ensures data == LoginData("", "", false) && fieldErrors == map[]
    {
      data := LoginData("", "", false);
      fieldErrors := map[];
    }

    /** handleInputChange of the login form. */
    method HandleInputChange(field: string, value: FieldValue)
      modifies this
      ensures fieldErrors == ClearError(old(fieldErrors), field)
      ensures field == "email" && value.Text? ==> data == old(data).(email := value.text)
      ensures field == "password" && value.Text? ==> data == old(data).(password := value.text)
      ensures field == "rememberMe" && value.Flag? ==> data == old(data).(rememberMe := value.flag)
      ensures field !in {"email", "password", "rememberMe"} ==> data == old(data)
    {
      match value {
        case Text(t) =>
          if field == "email" { data := data.(email := t); }
          else if field == "password" { data := data.(password := t); }
        case Flag(b) =>
          if field == "rememberMe" { data := data.(rememberMe := b); }
      }
      fieldErrors := ClearError(fieldErrors, field);
    }

    /** handleSubmit of the login form: the error map becomes LoginErrors and, when it is empty,
        LoginRequestOf the data is sent. */
    method HandleSubmit() returns (sent: Option<HelpersGo.LoginRequest>)
      modifies this`fieldErrors
      ensures fieldErrors == LoginErrors(data)
      ensures sent.Some? <==> LoginAcceptable(data)
      ensures sent.Some? ==> sent.value == LoginRequestOf(data)
    {
      fieldErrors := LoginErrors(data);
      if |fieldErrors| != 0 {
        assert !LoginAcceptable(data);
        return None;
      }
      assert LoginAcceptable(data);
      sent := Some(LoginRequestOf(data));
    }

    /** The catch of handleSubmit of the login form, the same as the signup form's. */
    method ShowServerError(err: ClientApi.ClientError)
      modifies this`fieldErrors
      ensures Truthy(err.field) ==> fieldErrors == map[err.field.value := err.message]
      ensures !Truthy(err.field) ==> fieldErrors == old(fieldErrors)
    {
      if Truthy(err.field) {
        fieldErrors := map[err.field.value := err.message];
      }
    }
  }

  /** Typing into a field after a failed submit hides that field's message and keeps the others. */
  method RetypeAfterFailedSubmit(form: SignupForm, field: string, value: FieldValue)
    modifies form
    ensures form.fieldErrors.Keys == SignupErrors(old(form.data)).Keys
    ensures field in form.fieldErrors ==> form.fieldErrors[field] == ""
    ensures forall k | k in form.fieldErrors && k != field :: form.fieldErrors[k] == SignupErrors(old(form.data))[k]
  {
    var _ := form.ValidateForm();
    form.HandleInputChange(field, value);
  }
}
