/** server/auth/helpers.ts: the hand-rolled JWT codec, request validation, the grade table of the
    TypeScript service, password and email checks against the database, and token generation.

    base64 and JSON are not modelled: a ClaimsCodec is any pair (encode, decode) whose only assumed
    law is Lawful, which base64-of-JSON satisfies. The refresh-token helpers and
    cleanupExpiredTokens are the methods of Store.Database; getSubjectsForGrade returns the same
    lists as HelpersGo.ProgressSubjects. */
module HelpersTs {
  import opened Common
  import opened Text
  import opened Crypto
  import opened EmailFormat
  import opened Store
  import HelpersGo

  /** An error as the TypeScript code raises it: an `Error` whose message the code fixes, or one
      raised inside a library (argon2, the database driver) whose message the code does not fix. */
  datatype TsError = Thrown(message: string) | Escaped(origin: string)

  /** The JWT payload (JWTClaims); `iat` and `exp` are absent until createJWT adds them. Times are
      whole seconds. */
  datatype Claims = Claims(
    userID: string, email: string, grade: string, tier: string, iss: string, sub: string,
    iat: Option<int>, exp: Option<int>)

  /** `Buffer.from(JSON.stringify(c)).toString('base64')` and its inverse, `JSON.parse` of the
      base64-decoded text (None when parsing fails). */
  datatype ClaimsCodec = ClaimsCodec(encode: Claims -> string, decode: string -> Option<Claims>)

  /** What the JWT code relies on: decoding an encoding gives the claims back, and the base64
      alphabet has no '.'. */
  ghost predicate Lawful(codec: ClaimsCodec) {
    forall c :: codec.decode(codec.encode(c)) == Some(c) && '.' !in codec.encode(c)
  }

  /** The base64 text of `{"alg":"HS256","typ":"JWT"}`. */
  const Header := "eyJhbGciOiJIUzI1NiIsInR5cCI6IkpXVCJ9"

  const TokenLifetimeSeconds := 24 * 60 * 60

  /** The signature of a header and payload: the first 32 hex digits of the SHA-256 of
      `header.payload.secret`. */
  function Signature(sha: Sha256, header: string, payload: string, secret: string): (sig: string)
    ensures |sig| == 32 && IsLowerHex(sig) && '.' !in sig
  {
    var full := HashToken(sha, header + "." + payload + "." + secret);
    assert forall i | 0 <= i < 32 :: full[..32][i] == full[i];
    full[..32]
  }

  /** The payload createJWT encodes: the given claims with `iat` set to the current second and `exp`
      24 hours later. */
  function Stamp(payload: Claims, now: int): (c: Claims)
    ensures c.iat == Some(now / 1000) && c.exp == Some(now / 1000 + TokenLifetimeSeconds)
    ensures c.(iat := payload.iat, exp := payload.exp) == payload
  {
    payload.(iat := Some(now / 1000), exp := Some(now / 1000 + TokenLifetimeSeconds))
  }

  /** createJWT: header, encoded payload and signature, joined by '.'. For a lawful codec the token
      splits back into exactly those three parts. */
  function CreateJWT(codec: ClaimsCodec, sha: Sha256, payload: Claims, secret: string, now: int): (token: string)
    ensures Lawful(codec) ==>
      var body := codec.encode(Stamp(payload, now));
      Split(token, '.') == [Header, body, Signature(sha, Header, body, secret)]
  {
    var body := codec.encode(Stamp(payload, now));
    var sig := Signature(sha, Header, body, secret);
    assert Lawful(codec) ==> Split(Header + "." + body + "." + sig, '.') == [Header, body, sig] by {
      if Lawful(codec) {
        assert '.' !in body;
        SplitThree(Header, body, sig, '.');
      }
    }
    Header + "." + body + "." + sig
  }

  /** The ways validateJWT throws, in the order it checks them. */
  datatype JwtError = InvalidFormat | InvalidSignature | UnparsablePayload | TokenExpired

  /** `decoded.exp && decoded.exp < Math.floor(Date.now() / 1000)`: a missing or zero `exp` never
      expires. */
  predicate Expired(c: Claims, now: int) {
    c.exp.Some? && c.exp.value != 0 && c.exp.value < now / 1000
  }

  /** validateJWT: the decoded payload of a token with three parts, the right signature and a payload
      that parses and has not expired. */
  function ValidateJWT(codec: ClaimsCodec, sha: Sha256, token: string, secret: string, now: int)
    : (r: Result<Claims, JwtError>)
    ensures |Split(token, '.')| != 3 ==> r == Err(InvalidFormat)
    ensures r.Ok? <==>
      var parts := Split(token, '.');
      |parts| == 3 && parts[2] == Signature(sha, parts[0], parts[1], secret) &&
      codec.decode(parts[1]).Some? && !Expired(codec.decode(parts[1]).value, now)
    ensures r.Ok? ==> codec.decode(Split(token, '.')[1]) == Some(r.value)
    ensures r == Err(TokenExpired) ==> codec.decode(Split(token, '.')[1]).Some? && Expired(codec.decode(Split(token, '.')[1]).value, now)
  {
    var parts := Split(token, '.');
    if |parts| != 3 then Err(InvalidFormat)
    else if parts[2] != Signature(sha, parts[0], parts[1], secret) then Err(InvalidSignature)
    else match codec.decode(parts[1])
      case None => Err(UnparsablePayload)
      case Some(c) => if Expired(c, now) then Err(TokenExpired) else Ok(c)
  }

  /** The round trip: a token createJWT made is accepted, up to and including the second in which it
      expires, and yields the payload with `iat` and `exp` filled in. */
  lemma JwtRoundTrip(codec: ClaimsCodec, sha: Sha256, payload: Claims, secret: string, now: int, later: int)
    requires Lawful(codec)
    requires later / 1000 <= now / 1000 + TokenLifetimeSeconds
    ensures ValidateJWT(codec, sha, CreateJWT(codec, sha, payload, secret, now), secret, later) == Ok(Stamp(payload, now))
  {
    var body := codec.encode(Stamp(payload, now));
    assert codec.decode(body) == Some(Stamp(payload, now));
  }

  /** Once its second has passed, the same token is refused as expired. */
  lemma JwtExpires(codec: ClaimsCodec, sha: Sha256, payload: Claims, secret: string, now: int, later: int)
    requires Lawful(codec)
    requires now / 1000 + TokenLifetimeSeconds != 0 && later / 1000 > now / 1000 + TokenLifetimeSeconds
    ensures ValidateJWT(codec, sha, CreateJWT(codec, sha, payload, secret, now), secret, later) == Err(TokenExpired)
  {
    var body := codec.encode(Stamp(payload, now));
    assert codec.decode(body) == Some(Stamp(payload, now));
  }

  /** Tamper rejection: a token is accepted only if its third part is the signature of its first two
      under the secret, so a payload cannot be changed without recomputing the signature. */
  lemma JwtAcceptedIsSigned(codec: ClaimsCodec, sha: Sha256, token: string, secret: string, now: int)
    requires ValidateJWT(codec, sha, token, secret, now).Ok?
    ensures exists h, p | '.' !in h && '.' !in p ::
      token == h + "." + p + "." + Signature(sha, h, p, secret) &&
      codec.decode(p) == Some(ValidateJWT(codec, sha, token, secret, now).value)
  {
    var parts := Split(token, '.');
    JoinSplit(token, '.');
    assert Join(parts, '.') == parts[0] + "." + Join(parts[1..], '.');
    assert Join(parts[1..], '.') == parts[1] + "." + parts[2];
    assert '.' !in parts[0] && '.' !in parts[1];
    assert token == parts[0] + "." + parts[1] + "." + Signature(sha, parts[0], parts[1], secret);
  }

  /** verifyJWT: the claims of a valid token; every failure becomes "Invalid or expired token". */
  function VerifyJWT(codec: ClaimsCodec, sha: Sha256, token: string, secret: string, now: int)
    : (r: Result<Claims, TsError>)
    ensures r.Ok? <==> ValidateJWT(codec, sha, token, secret, now).Ok?
    ensures r.Ok? ==> r.value == ValidateJWT(codec, sha, token, secret, now).value
    ensures r.Err? ==> r.error == Thrown("Invalid or expired token")
  {
    match ValidateJWT(codec, sha, token, secret, now)
    case Ok(c) => Ok(c)
    case Err(_) => Err(Thrown("Invalid or expired token"))
  }

  /** One entry of the TypeScript gradeConfig. */
  datatype TsGradeInfo = TsGradeInfo(category: string, tier: string, priceKsh: int, subjects: seq<string>)

  const PrimarySubjects := ["Mathematics", "English", "Kiswahili", "Environmental Studies", "Creative Arts"]
  const JuniorSubjects := ["Mathematics", "English", "Kiswahili", "Integrated Science", "Social Studies", "Creative Arts"]
  const SeniorSubjects := ["Mathematics", "English", "Kiswahili", "Physics", "Chemistry", "Biology", "Geography", "History"]

  const TsGradeConfig: map<string, TsGradeInfo> := map[
    "grade-4" := TsGradeInfo("primary", "Primary CBC", 499, PrimarySubjects),
    "grade-5" := TsGradeInfo("primary", "Primary CBC", 499, PrimarySubjects),
    "grade-6" := TsGradeInfo("primary", "Primary CBC", 499, PrimarySubjects),
    "grade-7" := TsGradeInfo("junior", "Junior Secondary", 899, JuniorSubjects),
    "grade-8" := TsGradeInfo("junior", "Junior Secondary", 899, JuniorSubjects),
    "grade-9" := TsGradeInfo("junior", "Junior Secondary", 899, JuniorSubjects),
    "grade-10" := TsGradeInfo("senior", "Senior Secondary", 1499, SeniorSubjects),
    "grade-11" := TsGradeInfo("senior", "Senior Secondary", 1499, SeniorSubjects),
    "grade-12" := TsGradeInfo("senior", "Senior Secondary", 1499, SeniorSubjects)
  ]

  /** The two services agree on the grade table: grade n (4 to 12) has the same category and tier in
      both, and as many display subjects as getSubjectsForGrade gives its category. */
  lemma TsGradeConfigAgrees(n: nat)
    requires 4 <= n <= 12
    ensures HelpersGo.GradeKey(n) in TsGradeConfig && HelpersGo.GradeKey(n) in HelpersGo.GradeConfig
    ensures var ts := TsGradeConfig[HelpersGo.GradeKey(n)];
      ts.category == HelpersGo.GradeConfig[HelpersGo.GradeKey(n)].category == HelpersGo.Band(n) &&
      ts.tier == HelpersGo.GradeConfig[HelpersGo.GradeKey(n)].tier &&
      |ts.subjects| == |HelpersGo.ProgressSubjects(ts.category)|
  {
    HelpersGo.GradeKeyLiteral(n);
    HelpersGo.GradeConfigBands(n);
  }

  /** The grade keys of the TypeScript table. */
  predicate TsKnownGrade(g: string) {
    g in TsGradeConfig
  }

  /** Every key of the table is a non-empty string. */
  lemma EmptyGradeUnknown()
    ensures !TsKnownGrade("")
  {
  }

  /** The two tables have the same keys. */
  lemma KnownGradesAgree(g: string)
    ensures HelpersGo.KnownGrade(g) <==> TsKnownGrade(g)
  {
  }

  /** The rules of validateRegistration, all of which must hold. Unlike the Go copy, the emptiness
      rule reads `gradeLevel`, the same field as the table rule. */
  predicate TsRegistrationAcceptable(req: HelpersGo.RegisterRequest) {
    2 <= |Trim(req.firstName)| <= 50 &&
    2 <= |Trim(req.lastName)| <= 50 &&
    ServerEmailOk(req.email) &&
    |req.password| >= 8 &&
    req.password == req.confirmPassword &&
    req.agreeTerms &&
    TsKnownGrade(req.gradeLevel)
  }

  /** validateRegistration: the message of the first rule that fails, None when all hold. Its rules,
      their order and their messages are the Go validator's, with `gradeLevel` in both grade rules. */
  function ValidateRegistration(req: HelpersGo.RegisterRequest): (err: Option<string>)
    ensures err.None? <==> TsRegistrationAcceptable(req)
    ensures req.gradeLevel == "" && Trim(req.firstName) != "" && Trim(req.lastName) != "" &&
            Trim(req.email) != "" && req.password != "" ==>
            err == Some(HelpersGo.RuleMessage(HelpersGo.GradeRequired))
    ensures forall rule | HelpersGo.IsFirstFailure(req, req.gradeLevel, TsKnownGrade(req.gradeLevel), rule) ::
      err == Some(HelpersGo.RuleMessage(rule))
  {
    EmptyGradeUnknown();
    HelpersGo.FirstFailedRuleIsFirst(req, req.gradeLevel, TsKnownGrade(req.gradeLevel));
    HelpersGo.FirstFailureUnique(req, req.gradeLevel, TsKnownGrade(req.gradeLevel));
    match HelpersGo.FirstFailedRule(req, req.gradeLevel, TsKnownGrade(req.gradeLevel))
    case None => None
    case Some(rule) => Some(HelpersGo.RuleMessage(rule))
  }

  /** The TypeScript error as the Go validator reports it. */
  function AsGoValidation(err: Option<string>): Option<HelpersGo.GoError> {
    match err
    case None => None
    case Some(m) => Some(HelpersGo.Invalid(m))
  }

  /** When `grade` and `gradeLevel` carry the same value, the two validators make the same decision
      with the same message. */
  lemma ValidatorsAgree(req: HelpersGo.RegisterRequest)
    requires req.grade == req.gradeLevel
    ensures HelpersGo.ValidateRegistration(req) == AsGoValidation(ValidateRegistration(req))
  {
    KnownGradesAgree(req.gradeLevel);
  }

  /** Every request the Go validator accepts, the TypeScript one accepts too. */
  lemma GoAcceptsImpliesTsAccepts(req: HelpersGo.RegisterRequest)
    requires HelpersGo.ValidateRegistration(req).None?
    ensures ValidateRegistration(req).None?
  {
    KnownGradesAgree(req.gradeLevel);
  }

  lemma SampleEmailOk()
    ensures ServerEmailOk("a@b.co")
  {
    var e := "a@b.co";
    assert IndexOf(e, '@') == 1;
    assert LastIndexOf(e, '.') == 3;
  }

  lemma SampleNamesTrimmed()
    ensures Trim("Amina") == "Amina" && Trim("Otieno") == "Otieno"
  {
    TrimNoSpace("Amina");
    TrimNoSpace("Otieno");
  }

  /** The converse fails: with `grade` empty and `gradeLevel` set, Go refuses a request that
      TypeScript accepts. */
  lemma ValidatorsDiverge()
    ensures var req := HelpersGo.RegisterRequest("Amina", "Otieno", "a@b.co", "", "grade-7", "", "",
                                                  "secret123", "secret123", true);
      HelpersGo.ValidateRegistration(req) == Some(HelpersGo.Invalid(HelpersGo.RuleMessage(HelpersGo.GradeRequired))) &&
      ValidateRegistration(req).None?
  {
    var req := HelpersGo.RegisterRequest("Amina", "Otieno", "a@b.co", "", "grade-7", "", "",
                                         "secret123", "secret123", true);
    SampleEmailOk();
    SampleNamesTrimmed();
    assert Trim(req.email) != "" by { ServerEmailNoSpace(req.email); }
    assert HelpersGo.ValidateRegistration(req) == Some(HelpersGo.Invalid(HelpersGo.RuleMessage(HelpersGo.GradeRequired)));
    assert TsKnownGrade(req.gradeLevel);
    assert TsRegistrationAcceptable(req);
  }

  /** validateLogin: the message of the first rule that fails, None exactly when the email is not
      blank, the password is not empty and the email has the server's format. */
  function ValidateLogin(req: HelpersGo.LoginRequest): (err: Option<string>)
    ensures err.None? <==> req.password != "" && ServerEmailOk(req.email)
    ensures Trim(req.email) == "" ==> err == Some("Email is required")
    ensures Trim(req.email) != "" && req.password == "" ==> err == Some("Password is required")
    ensures Trim(req.email) != "" && req.password != "" && !ServerEmailOk(req.email) ==>
      err == Some("Invalid email format")
  {
    if Trim(req.email) == "" then Some("Email is required")
    else if req.password == "" then Some("Password is required")
    else if !ServerEmailOk(req.email) then Some("Invalid email format")
    else None
  }

  /** The two login validators are the same function, message for message. */
  lemma LoginValidatorsAgree(req: HelpersGo.LoginRequest)
    ensures HelpersGo.ValidateLogin(req) == AsGoValidation(ValidateLogin(req))
  {
    if ServerEmailOk(req.email) {
      ServerEmailNoSpace(req.email);
    }
  }

  /** verifyPassword: argon2's verdict on the stored hash; false, rather than an error, when the user
      has no row. */
  function VerifyPassword(db: Database, scheme: PasswordScheme, userID: string, password: string): (ok: bool)
    reads db
    ensures userID !in db.passwordHashes ==> !ok
    ensures userID in db.passwordHashes ==> (ok <==> scheme.verify(db.passwordHashes[userID], password))
  {
    userID in db.passwordHashes && scheme.verify(db.passwordHashes[userID], password)
  }

  /** With a sound scheme, the password a hash was made from verifies against it. */
  lemma OwnPasswordVerifies(db: Database, scheme: PasswordScheme, userID: string, password: string)
    requires Sound(scheme) && scheme.hash(password).Some?
    requires userID in db.passwordHashes && db.passwordHashes[userID] == scheme.hash(password).value
    ensures VerifyPassword(db, scheme, userID, password)
  {
  }

  /** checkUserExists: whether some user is stored under the lower-cased email. */
  function CheckUserExists(users: map<string, UserRow>, email: string): (taken: bool)
    ensures taken <==> exists id | id in users :: users[id].email == ToLower(email)
  {
    EmailTaken(users, ToLower(email))
  }

  /** Once register has stored a user under the trimmed, lower-cased form of an address the validator
      accepted, checkUserExists reports that address (in any letter case) as taken. */
  lemma RegisteredEmailIsTaken(users: map<string, UserRow>, u: UserRow, email: string, other: string)
    requires ServerEmailOk(email) && u.email == ToLower(Trim(email)) && ToLower(other) == ToLower(email)
    ensures CheckUserExists(users[u.id := u], other)
  {
    ServerEmailNoSpace(email);
    assert users[u.id := u][u.id].email == ToLower(other);
  }

  /** The payload generateTokens signs for a stored user: id, email, grade and tier, issued by
      "tusome" to the user's id. */
  function TokenPayload(u: UserRow, userID: string): (c: Claims)
    ensures c.userID == userID == c.sub && c.iss == "tusome"
    ensures c.email == u.email && c.grade == u.grade && c.tier == u.gradeTier
    ensures c.iat.None? && c.exp.None?
  {
    Claims(userID, u.email, u.grade, u.gradeTier, "tusome", userID, None, None)
  }

  /** generateTokens: a JWT for the stored user, a refresh token of 64 hex digits from the 32 random
      bytes and an expiry of 86400 seconds; "Failed to generate tokens" when the user is not stored. */
  function GenerateTokens(codec: ClaimsCodec, sha: Sha256, users: map<string, UserRow>, userID: string,
                          secret: string, now: int, refreshBytes: seq<Byte>)
    : (r: Result<HelpersGo.Tokens, TsError>)
    requires |refreshBytes| == 32
    ensures r.Ok? <==> userID in users
    ensures r.Err? ==> r.error == Thrown("Failed to generate tokens")
    ensures r.Ok? ==>
      r.value.expiresIn == TokenLifetimeSeconds && r.value.refreshToken == GenerateResetToken(refreshBytes) &&
      r.value.token == CreateJWT(codec, sha, TokenPayload(users[userID], userID), secret, now)
  {
    if userID !in users then Err(Thrown("Failed to generate tokens"))
    else Ok(HelpersGo.Tokens(CreateJWT(codec, sha, TokenPayload(users[userID], userID), secret, now),
                             GenerateResetToken(refreshBytes), TokenLifetimeSeconds))
  }

  /** A token generateTokens issued verifies, until it expires, to claims naming the user as subject,
      issued by "tusome", with exp 86400 seconds after iat. */
  lemma GeneratedTokenVerifies(codec: ClaimsCodec, sha: Sha256, users: map<string, UserRow>, userID: string,
                               secret: string, now: int, refreshBytes: seq<Byte>, later: int)
    requires Lawful(codec) && |refreshBytes| == 32 && userID in users
    requires later / 1000 <= now / 1000 + TokenLifetimeSeconds
    ensures var r := VerifyJWT(codec, sha, GenerateTokens(codec, sha, users, userID, secret, now, refreshBytes).value.token,
                               secret, later);
      r.Ok? && r.value.userID == userID && r.value.sub == userID && r.value.iss == "tusome" &&
      r.value.iat == Some(now / 1000) && r.value.exp == Some(now / 1000 + TokenLifetimeSeconds)
  {
    JwtRoundTrip(codec, sha, TokenPayload(users[userID], userID), secret, now, later);
  }
}
