/** server/auth/helpers.go: request validation, the grade table the Go package shares, token
    generation, client-address extraction and the per-tier subject lists. */
module HelpersGo {
  import opened Common
  import opened Text
  import opened Crypto
  import opened EmailFormat
  import opened Store

  /** An error as the Go handlers return it: an `auth.Error` with a code, or a plain Go error. */
  datatype GoError = AuthError(code: string, message: string) | PlainError(message: string)

  datatype RegisterRequest = RegisterRequest(
    firstName: string,
    lastName: string,
    email: string,
    grade: string,
    gradeLevel: string,
    gradeTier: string,
    gradeCategory: string,
    password: string,
    confirmPassword: string,
    agreeTerms: bool)

  datatype LoginRequest = LoginRequest(email: string, password: string)

  datatype GradeInfo = GradeInfo(category: string, tier: string, price: string)

  /** gradeConfig of auth.go: grades 4 to 6 are primary, 7 to 9 junior, 10 to 12 senior. */
  const GradeConfig: map<string, GradeInfo> := map[
    "grade-4" := GradeInfo("primary", "Primary CBC", "KSh 499/month"),
    "grade-5" := GradeInfo("primary", "Primary CBC", "KSh 499/month"),
    "grade-6" := GradeInfo("primary", "Primary CBC", "KSh 499/month"),
    "grade-7" := GradeInfo("junior", "Junior Secondary", "KSh 899/month"),
    "grade-8" := GradeInfo("junior", "Junior Secondary", "KSh 899/month"),
    "grade-9" := GradeInfo("junior", "Junior Secondary", "KSh 899/month"),
    "grade-10" := GradeInfo("senior", "Senior Secondary", "KSh 1,499/month"),
    "grade-11" := GradeInfo("senior", "Senior Secondary", "KSh 1,499/month"),
    "grade-12" := GradeInfo("senior", "Senior Secondary", "KSh 1,499/month")
  ]

  /** The key of grade n. */
  function GradeKey(n: nat): string {
    "grade-" + NatToString(n)
  }

  /** The category the table gives grade n: the three bands of the Kenyan curriculum. */
  function Band(n: int): string {
    if 4 <= n <= 6 then "primary" else if 7 <= n <= 9 then "junior" else "senior"
  }

  /** The table's tier name always matches its category. */
  function TierName(category: string): string {
    if category == "primary" then "Primary CBC"
    else if category == "junior" then "Junior Secondary"
    else "Senior Secondary"
  }

  lemma {:induction false} GradeKeyLiteral(n: nat)
    requires 4 <= n <= 12
    ensures GradeKey(n) == ["grade-4", "grade-5", "grade-6", "grade-7", "grade-8", "grade-9", "grade-10", "grade-11", "grade-12"][n - 4]
  {
    if n >= 10 {
      assert NatToString(n) == NatToString(1) + [DigitChar(n % 10)];
    }
  }

  /** Grade n (4 to 12) is in the table with the category of its band, and every tier name matches
      its category. */
  lemma GradeConfigBands(n: nat)
    requires 4 <= n <= 12
    ensures GradeKey(n) in GradeConfig && GradeConfig[GradeKey(n)].category == Band(n)
    ensures GradeConfig[GradeKey(n)].tier == TierName(Band(n))
  {
    GradeKeyLiteral(n);
  }

  /** The grade keys the table knows. */
  predicate KnownGrade(g: string) {
    g in GradeConfig
  }

  /** Everything validateRegistration demands, as one conjunction. */
  predicate RegistrationAcceptable(req: RegisterRequest) {
    2 <= |Trim(req.firstName)| <= 50 &&
    2 <= |Trim(req.lastName)| <= 50 &&
    ServerEmailOk(req.email) &&
    |req.password| >= 8 &&
    req.password == req.confirmPassword &&
    req.agreeTerms &&
    req.grade != "" &&
    KnownGrade(req.gradeLevel)
  }

  function Invalid(message: string): GoError {
    AuthError("VALIDATION_ERROR", message)
  }

  /** The rules of validateRegistration, in the order they are checked. The TypeScript copy checks
      the same rules in the same order with the same messages. */
  datatype RegistrationRule =
    | FirstNameRequired | LastNameRequired | EmailRequired | PasswordRequired | GradeRequired
    | FirstNameLength | LastNameLength | EmailWellFormed | PasswordLength | PasswordsMatch | TermsAccepted
    | GradeKnown

  /** The message each rule reports. */
  function RuleMessage(rule: RegistrationRule): string {
    match rule
    case FirstNameRequired => "First name is required"
    case LastNameRequired => "Last name is required"
    case EmailRequired => "Email is required"
    case PasswordRequired => "Password is required"
    case GradeRequired => "Grade level is required"
    case FirstNameLength => "First name must be between 2 and 50 characters"
    case LastNameLength => "Last name must be between 2 and 50 characters"
    case EmailWellFormed => "Invalid email format"
    case PasswordLength => "Password must be at least 8 characters long"
    case PasswordsMatch => "Password and confirmation do not match"
    case TermsAccepted => "You must agree to the Terms of Service and Privacy Policy"
    case GradeKnown => "Invalid grade level selected"
  }

  /** The position of a rule in the order validateRegistration checks them. */
  function RuleRank(rule: RegistrationRule): nat {
    match rule
    case FirstNameRequired => 0
    case LastNameRequired => 1
    case EmailRequired => 2
    case PasswordRequired => 3
    case GradeRequired => 4
    case FirstNameLength => 5
    case LastNameLength => 6
    case EmailWellFormed => 7
    case PasswordLength => 8
    case PasswordsMatch => 9
    case TermsAccepted => 10
    case GradeKnown => 11
  }

  /** Different rules have different positions. */
  lemma RuleRankInjective()
    ensures forall a, b | RuleRank(a) == RuleRank(b) :: a == b
  {
  }

  /** What the tests of validateRegistration look at: the trimmed names, whether the trimmed email is
      non-blank, whether the email has the server's format, the two passwords, the terms flag, the
      grade field the emptiness test reads and the outcome of the table lookup. */
  datatype RegistrationFacts = RegistrationFacts(
    first: string, last: string, emailGiven: bool, emailOk: bool, password: string,
    confirmPassword: string, agreeTerms: bool, gradeGiven: string, gradeKnown: bool)

  /** The facts of a registration, `gradeGiven` being the field the emptiness rule reads and
      `gradeKnown` the outcome of the table lookup. */
  function FactsOf(req: RegisterRequest, gradeGiven: string, gradeKnown: bool): RegistrationFacts {
    RegistrationFacts(Trim(req.firstName), Trim(req.lastName), Trim(req.email) != "", ServerEmailOk(req.email),
                      req.password, req.confirmPassword, req.agreeTerms, gradeGiven, gradeKnown)
  }

  /** What each rule demands of the facts. */
  predicate Holds(f: RegistrationFacts, rule: RegistrationRule) {
    match rule
    case FirstNameRequired => f.first != ""
    case LastNameRequired => f.last != ""
    case EmailRequired => f.emailGiven
    case PasswordRequired => f.password != ""
    case GradeRequired => f.gradeGiven != ""
    case FirstNameLength => 2 <= |f.first| <= 50
    case LastNameLength => 2 <= |f.last| <= 50
    case EmailWellFormed => f.emailOk
    case PasswordLength => |f.password| >= 8
    case PasswordsMatch => f.password == f.confirmPassword
    case TermsAccepted => f.agreeTerms
    case GradeKnown => f.gradeKnown
  }

  /** What each rule demands of a registration. */
  predicate RuleHolds(req: RegisterRequest, gradeGiven: string, gradeKnown: bool, rule: RegistrationRule) {
    Holds(FactsOf(req, gradeGiven, gradeKnown), rule)
  }

  /** `rule` is broken and every rule checked before it holds. */
  predicate IsFirstFailure(req: RegisterRequest, gradeGiven: string, gradeKnown: bool, rule: RegistrationRule) {
    !RuleHolds(req, gradeGiven, gradeKnown, rule) &&
    forall r | RuleRank(r) < RuleRank(rule) :: RuleHolds(req, gradeGiven, gradeKnown, r)
  }

  /** A registration has at most one first failure. */
  lemma FirstFailureUnique(req: RegisterRequest, gradeGiven: string, gradeKnown: bool)
    ensures forall a, b | IsFirstFailure(req, gradeGiven, gradeKnown, a) && IsFirstFailure(req, gradeGiven, gradeKnown, b) ::
      a == b
  {
    RuleRankInjective();
  }

  /** The tests of validateRegistration in their order: the first one that fails, or None. */
  function FirstFailure(f: RegistrationFacts): (rule: Option<RegistrationRule>)
    ensures rule.None? <==>
      2 <= |f.first| <= 50 && 2 <= |f.last| <= 50 && f.emailGiven && f.emailOk && |f.password| >= 8 &&
      f.password == f.confirmPassword && f.agreeTerms && f.gradeGiven != "" && f.gradeKnown
  {
    if f.first == "" then Some(FirstNameRequired)
    else if f.last == "" then Some(LastNameRequired)
    else if !f.emailGiven then Some(EmailRequired)
    else if f.password == "" then Some(PasswordRequired)
    else if f.gradeGiven == "" then Some(GradeRequired)
    else if |f.first| < 2 || |f.first| > 50 then Some(FirstNameLength)
    else if |f.last| < 2 || |f.last| > 50 then Some(LastNameLength)
    else if !f.emailOk then Some(EmailWellFormed)
    else if |f.password| < 8 then Some(PasswordLength)
    else if f.password != f.confirmPassword then Some(PasswordsMatch)
    else if !f.agreeTerms then Some(TermsAccepted)
    else if !f.gradeKnown then Some(GradeKnown)
    else None
  }

  /** The first rule a registration breaks. `gradeGiven` is the field the emptiness rule reads and
      `gradeKnown` the outcome of the table lookup, which is where the two services differ. */
  function FirstFailedRule(req: RegisterRequest, gradeGiven: string, gradeKnown: bool): (rule: Option<RegistrationRule>)
    ensures rule.None? <==>
      2 <= |Trim(req.firstName)| <= 50 && 2 <= |Trim(req.lastName)| <= 50 && ServerEmailOk(req.email) &&
      |req.password| >= 8 && req.password == req.confirmPassword && req.agreeTerms && gradeGiven != "" && gradeKnown
    ensures (gradeGiven == "" && Trim(req.firstName) != "" && Trim(req.lastName) != "" &&
             Trim(req.email) != "" && req.password != "") ==> rule == Some(GradeRequired)
  {
    var f := FactsOf(req, gradeGiven, gradeKnown);
    assert f.emailOk ==> f.emailGiven by {
      if ServerEmailOk(req.email) { ServerEmailNoSpace(req.email); }
    }
    assert f.first == Trim(req.firstName) && f.last == Trim(req.lastName) && f.emailOk == ServerEmailOk(req.email);
    FirstFailure(f)
  }

  /** When FirstFailure finds nothing, every rule holds. */
  lemma NoFailureAllHold(f: RegistrationFacts)
    requires FirstFailure(f).None?
    ensures forall r :: Holds(f, r)
  {
    forall r ensures Holds(f, r) {
        match r
        case FirstNameRequired =>
        case LastNameRequired =>
        case EmailRequired =>
        case PasswordRequired =>
        case GradeRequired =>
        case FirstNameLength =>
        case LastNameLength =>
        case EmailWellFormed =>
        case PasswordLength =>
        case PasswordsMatch =>
        case TermsAccepted =>
        case GradeKnown =>
    }
  }

  /** The rule FirstFailure reports is broken, and every rule checked before it holds. */
  lemma ReportedFailureIsFirst(f: RegistrationFacts)
    requires FirstFailure(f).Some?
    ensures !Holds(f, FirstFailure(f).value)
    ensures forall r | RuleRank(r) < RuleRank(FirstFailure(f).value) :: Holds(f, r)
  {
    var rule := FirstFailure(f).value;
    forall r | RuleRank(r) < RuleRank(rule) ensures Holds(f, r) {
        match r
        case FirstNameRequired =>
        case LastNameRequired =>
        case EmailRequired =>
        case PasswordRequired =>
        case GradeRequired =>
        case FirstNameLength =>
        case LastNameLength =>
        case EmailWellFormed =>
        case PasswordLength =>
        case PasswordsMatch =>
        case TermsAccepted =>
        case GradeKnown =>
    }
  }

  /** FirstFailedRule reports the first broken rule in the checking order, and None exactly when every
      rule holds. */
  lemma FirstFailedRuleIsFirst(req: RegisterRequest, gradeGiven: string, gradeKnown: bool)
    ensures FirstFailedRule(req, gradeGiven, gradeKnown).None? <==> forall r :: RuleHolds(req, gradeGiven, gradeKnown, r)
    ensures FirstFailedRule(req, gradeGiven, gradeKnown).Some? ==>
      IsFirstFailure(req, gradeGiven, gradeKnown, FirstFailedRule(req, gradeGiven, gradeKnown).value)
  {
    var f := FactsOf(req, gradeGiven, gradeKnown);
    if FirstFailure(f).None? {
      NoFailureAllHold(f);
    } else {
      ReportedFailureIsFirst(f);
      assert !RuleHolds(req, gradeGiven, gradeKnown, FirstFailure(f).value);
    }
  }

  /** validateRegistration: the first rule that fails, as a VALIDATION_ERROR; None when all hold. The
      emptiness check reads `Grade` but the table check reads `GradeLevel`. */
  function ValidateRegistration(req: RegisterRequest): (err: Option<GoError>)
    ensures err.None? <==> RegistrationAcceptable(req)
    ensures err.Some? ==> err.value.AuthError? && err.value.code == "VALIDATION_ERROR"
    ensures req.grade == "" && Trim(req.firstName) != "" && Trim(req.lastName) != "" &&
            Trim(req.email) != "" && req.password != "" ==>
            err == Some(Invalid(RuleMessage(GradeRequired)))
    ensures forall rule | IsFirstFailure(req, req.grade, KnownGrade(req.gradeLevel), rule) ::
      err == Some(Invalid(RuleMessage(rule)))
  {
    FirstFailedRuleIsFirst(req, req.grade, KnownGrade(req.gradeLevel));
    FirstFailureUnique(req, req.grade, KnownGrade(req.gradeLevel));
    match FirstFailedRule(req, req.grade, KnownGrade(req.gradeLevel))
    case None => None
    case Some(rule) => Some(Invalid(RuleMessage(rule)))
  }

  /** validateLogin: None exactly when the email is not blank, the password is not empty and the
      email has the server's format. */
  function ValidateLogin(req: LoginRequest): (err: Option<GoError>)
    ensures err.None? <==> req.password != "" && ServerEmailOk(req.email)
    ensures err.Some? ==> err.value.AuthError? && err.value.code == "VALIDATION_ERROR"
    ensures Trim(req.email) == "" ==> err == Some(Invalid("Email is required"))
    ensures Trim(req.email) != "" && req.password == "" ==> err == Some(Invalid("Password is required"))
    ensures Trim(req.email) != "" && req.password != "" && !ServerEmailOk(req.email) ==>
      err == Some(Invalid("Invalid email format"))
  {
    if Trim(req.email) == "" then Some(Invalid("Email is required"))
    else if req.password == "" then Some(Invalid("Password is required"))
    else if !ServerEmailOk(req.email) then
      Some(Invalid("Invalid email format"))
    else
      assert ServerEmailOk(req.email) ==> Trim(req.email) != "" by {
        if ServerEmailOk(req.email) { ServerEmailNoSpace(req.email); }
      }
      None
  }

  /** The claims of the Go HS256 token; times in whole seconds. */
  datatype GoClaims = GoClaims(
    userId: string, email: string, grade: string, tier: string,
    expiresAt: int, issuedAt: int, notBefore: int, issuer: string, subject: string)

  /** The HS256 signer (golang-jwt with the package secret), treated as an opaque function. */
  type Signer = GoClaims -> string

  datatype Tokens = Tokens(token: string, refreshToken: string, expiresIn: int)

  /** The claims generateTokens signs for a user at time `now` (milliseconds): issued and valid from
      now, expiring 24 hours later, issued by "tusome" to the user's id. */
  function TokenClaims(u: UserRow, now: int): (c: GoClaims)
    ensures c.expiresAt - c.issuedAt == 24 * 60 * 60 && c.notBefore == c.issuedAt
    ensures c.issuedAt * 1000 <= now < c.issuedAt * 1000 + 1000
    ensures c.userId == u.id == c.subject && c.issuer == "tusome"
    ensures c.email == u.email && c.grade == u.grade && c.tier == u.gradeTier
  {
    var iat := now / 1000;
    GoClaims(u.id, u.email, u.grade, u.gradeTier, iat + 24 * 60 * 60, iat, iat, "tusome", u.id)
  }

  /** generateTokens: a signed token for the stored user, a fresh refresh token of 64 hex digits made
      from the 32 random bytes, and an expiry of 86400 seconds; the lookup's "user not found" error
      when the user is not stored. */
  function GenerateTokens(users: map<string, UserRow>, userId: string, now: int, sign: Signer, refreshBytes: seq<Byte>)
    : (r: Result<Tokens, GoError>)
    requires |refreshBytes| == 32
    ensures r.Ok? <==> userId in users
    ensures r.Err? ==> r.error == PlainError("user not found")
    ensures r.Ok? ==> r.value.token == sign(TokenClaims(users[userId], now))
    ensures r.Ok? ==> r.value.expiresIn == 86400 && r.value.refreshToken == GenerateResetToken(refreshBytes)
    ensures r.Ok? ==> |r.value.refreshToken| == 64 && IsLowerHex(r.value.refreshToken)
  {
    if userId !in users then Err(PlainError("user not found"))
    else Ok(Tokens(sign(TokenClaims(users[userId], now)), HexEncode(refreshBytes), 86400))
  }

  /** The parts of an HTTP request getClientIP looks at. Header names are canonical. */
  datatype HttpRequest = HttpRequest(headers: map<string, string>, remoteAddr: string)

  /** `Header.Get`: the empty string for an absent header. */
  function HeaderValue(req: HttpRequest, name: string): string {
    if name in req.headers then req.headers[name] else ""
  }

  /** The first comma-separated entry of `s` is the text before the first comma. */
  lemma {:induction false} SplitFirstPiece(s: string, sep: char)
    ensures exists k | 0 <= k <= |s| :: Split(s, sep)[0] == s[..k] && sep !in s[..k] && (k == |s| || s[k] == sep)
  {
    if |s| > 0 && s[0] != sep {
      SplitFirstPiece(s[1..], sep);
      var k :| 0 <= k <= |s[1..]| && Split(s[1..], sep)[0] == s[1..][..k] && sep !in s[1..][..k] &&
               (k == |s[1..]| || s[1..][k] == sep);
      assert Split(s, sep)[0] == [s[0]] + s[1..][..k] == s[..k + 1];
    } else {
      assert Split(s, sep)[0] == s[..0];
    }
  }

  /** getClientIP: the first X-Forwarded-For entry (up to the first comma) trimmed; else X-Real-IP;
      else the remote address; "unknown" when there is no request. */
  function GetClientIP(req: Option<HttpRequest>): (ip: string)
    ensures req.None? ==> ip == "unknown"
    ensures req.Some? && HeaderValue(req.value, "X-Forwarded-For") != "" ==>
      var xff := HeaderValue(req.value, "X-Forwarded-For");
      ',' !in ip && exists k | 0 <= k <= |xff| :: ip == Trim(xff[..k]) && ',' !in xff[..k] && (k == |xff| || xff[k] == ',')
    ensures req.Some? && HeaderValue(req.value, "X-Forwarded-For") == "" ==>
      ip == (if HeaderValue(req.value, "X-Real-IP") != "" then HeaderValue(req.value, "X-Real-IP") else req.value.remoteAddr)
  {
    match req
    case None => "unknown"
    case Some(r) =>
      var xff := HeaderValue(r, "X-Forwarded-For");
      if xff != "" then
        var ips := Split(xff, ',');
        SplitFirstPiece(xff, ',');
        var first := Trim(ips[0]);
        assert first == TrimEnd(TrimStart(ips[0]));
        assert ',' !in first by {
          var t := TrimStart(ips[0]);
          assert forall i | 0 <= i < |t| :: t[i] == ips[0][|ips[0]| - |t| + i];
        }
        first
      else
        var xri := HeaderValue(r, "X-Real-IP");
        if xri != "" then xri else r.remoteAddr
  }

  /** The subjects initializeUserProgress sets up for a tier; no subjects for any other category. */
  function ProgressSubjects(category: string): (subjects: seq<string>)
    ensures category == "primary" ==> |subjects| == 5
    ensures category == "junior" ==> |subjects| == 6
    ensures category == "senior" ==> |subjects| == 8
    ensures category !in {"primary", "junior", "senior"} ==> subjects == []
  {
    match category
    case "primary" => ["mathematics", "english", "kiswahili", "environmental-studies", "creative-arts"]
    case "junior" => ["mathematics", "english", "kiswahili", "integrated-science", "social-studies", "creative-arts"]
    case "senior" => ["mathematics", "english", "kiswahili", "physics", "chemistry", "biology", "geography", "history"]
    case _ => []
  }

  /** Every tier studies the three core subjects first. */
  lemma CoreSubjectsFirst(category: string)
    requires category in {"primary", "junior", "senior"}
    ensures ProgressSubjects(category)[..3] == ["mathematics", "english", "kiswahili"]
  {
  }
}
