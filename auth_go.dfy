/** server/auth/auth.go: the Go account flows over the auth database. Each handler is a method that
    takes the database, the current time in milliseconds, the cryptographic primitives and the random
    bytes it would draw; background goroutines are run in place. */
module AuthGo {
  import opened Common
  import opened Text
  import opened Crypto
  import opened EmailFormat
  import opened Store
  import opened HelpersGo

  datatype AuthResponse = AuthResponse(user: UserRow, token: string, refreshToken: string, expiresIn: int, message: string)

  const InvalidCredentials: GoError := AuthError("INVALID_CREDENTIALS", "Invalid email or password")
  const UserExists: GoError := AuthError("USER_EXISTS", "A user with this email address already exists")
  const AccountInactive: GoError := AuthError("ACCOUNT_INACTIVE", "Your account has been deactivated. Please contact support.")
  const SubscriptionExpired: GoError :=
    AuthError("SUBSCRIPTION_EXPIRED", "Your subscription has expired. Please renew to continue learning.")

  const TrialMs: int := 7 * DayMs
  const RefreshLifetimeMs: int := 30 * DayMs
  const VerificationLifetimeMs: int := 24 * HourMs
  const ResetLifetimeMs: int := HourMs

  /** The checks Login makes once the user has been looked up, in order: unknown email and wrong
      password give the same error, then an inactive account, then an expired subscription. */
  function LoginGate(found: Option<UserRow>, passwordOk: bool): (err: Option<GoError>)
    ensures found.None? || !passwordOk ==> err == Some(InvalidCredentials)
    ensures found.Some? && passwordOk ==> (err.None? <==> found.value.isActive && found.value.status != Expired)
    ensures err == Some(SubscriptionExpired) ==> found.Some? && found.value.isActive && found.value.status == Expired
    ensures err == Some(AccountInactive) ==> found.Some? && passwordOk && !found.value.isActive
    ensures found.Some? && passwordOk && !found.value.isActive ==> err == Some(AccountInactive)
    ensures found.Some? && passwordOk && found.value.isActive && found.value.status == Expired ==>
      err == Some(SubscriptionExpired)
  {
    if found.None? || !passwordOk then Some(InvalidCredentials)
    else if !found.value.isActive then Some(AccountInactive)
    else if found.value.status == Expired then Some(SubscriptionExpired)
    else None
  }

  /** An unknown email and a wrong password are indistinguishable to the caller. */
  lemma UniformCredentialsError(u: UserRow)
    ensures LoginGate(None, true) == LoginGate(None, false) == LoginGate(Some(u), false)
  {
  }

  /** A cancelled (or trial, or active) subscription does not stop an active user from logging in. */
  lemma CancelledMayLogIn(u: UserRow)
    requires u.isActive && u.status == Cancelled
    ensures LoginGate(Some(u), true).None?
  {
  }

  /** `int(time.Until(end).Hours() / 24)`: whole days left, truncated toward zero. */
  function DaysLeft(diff: int): (days: int)
    ensures days > 0 <==> diff >= DayMs
    ensures diff >= 0 ==> days * DayMs <= diff < (days + 1) * DayMs
  {
    TruncDiv(diff, DayMs)
  }

  const WelcomeBack: string := "Welcome back to Tusome!"
  const TrialOver: string := "Welcome back! Your trial has expired. Please subscribe to continue."

  function DaysLeftMessage(days: nat): string {
    "Welcome back! You have " + NatToString(days) + " days left in your free trial."
  }

  /** The Login welcome message: days left while at least one whole day of the trial remains, the
      expired wording once less than a day remains (the login itself still succeeds), and a plain
      welcome for any other status or a trial without an end date. */
  function WelcomeMessage(status: Status, trialEnd: Option<int>, now: int): (m: string)
    ensures status != Trial || trialEnd.None? ==> m == WelcomeBack
    ensures status == Trial && trialEnd.Some? && trialEnd.value - now < DayMs ==> m == TrialOver
    ensures status == Trial && trialEnd.Some? && trialEnd.value - now >= DayMs ==>
      exists d: nat | d * DayMs <= trialEnd.value - now < (d + 1) * DayMs :: d > 0 && m == DaysLeftMessage(d)
  {
    if status == Trial && trialEnd.Some? then
      var daysLeft := DaysLeft(trialEnd.value - now);
      if daysLeft > 0 then DaysLeftMessage(daysLeft) else TrialOver
    else WelcomeBack
  }

  /** Half a day before the trial ends the Go service already calls the trial expired. */
  lemma HalfDayLeftIsExpired(end: int)
    ensures WelcomeMessage(Trial, Some(end), end - DayMs / 2) == TrialOver
  {
  }

  /** The row Register builds: names trimmed, email trimmed and lower-cased, the grade's category and
      tier from the table, active, unverified, on a trial that ends exactly seven days after it
      starts. */
  function NewUser(req: RegisterRequest, id: string, category: string, tier: string, now: int): (u: UserRow)
    ensures u.id == id && u.email == ToLower(Trim(req.email))
    ensures u.firstName == Trim(req.firstName) && u.lastName == Trim(req.lastName)
    ensures u.grade == req.gradeLevel && u.gradeCategory == category && u.gradeTier == tier
    ensures u.isActive && !u.emailVerified && u.status == Trial
    ensures u.trialStart == Some(now) && u.trialEnd == Some(u.trialStart.value + 7 * DayMs)
    ensures u.profileImage.None? && u.lastLoginAt.None? && u.createdAt == u.updatedAt == now
  {
    var end := now + TrialMs;
    assert end == now + 7 * DayMs;
    UserRow(id, Trim(req.firstName), Trim(req.lastName), ToLower(Trim(req.email)), req.gradeLevel,
            category, tier, None, true, false, Some(now), Some(end), Trial, now, now, None)
  }

  /** For an address the validator accepts, the stored email is the lower-cased address itself, and
      lower-casing it again changes nothing. */
  lemma NewUserEmail(req: RegisterRequest, id: string, category: string, tier: string, now: int)
    requires ServerEmailOk(req.email)
    ensures var email := NewUser(req, id, category, tier, now).email;
      email == ToLower(req.email) && ToLower(email) == email
  {
    ServerEmailNoSpace(req.email);
    ToLowerIdempotent(req.email);
  }

  /** Adding a user whose id is new and whose lower-case email is not taken keeps the database
      valid. */
  lemma InsertKeepsValid(users: map<string, UserRow>, hashes: map<string, string>, u: UserRow, hashed: string,
                         users': map<string, UserRow>, hashes': map<string, string>)
    requires (forall id | id in users :: users[id].id == id && ToLower(users[id].email) == users[id].email)
    requires EmailsUnique(users) && hashes.Keys == users.Keys
    requires u.id !in users && !EmailTaken(users, u.email) && ToLower(u.email) == u.email
    requires users' == users[u.id := u] && hashes' == hashes[u.id := hashed]
    ensures (forall id | id in users' :: users'[id].id == id && ToLower(users'[id].email) == users'[id].email)
    ensures EmailsUnique(users') && hashes'.Keys == users'.Keys
  {
  }

  /** The INSERT into users, with the password hash stored beside the row. */
  method InsertUser(db: Database, u: UserRow, hashed: string)
    requires db.Valid()
    requires u.id !in db.users && !EmailTaken(db.users, u.email) && ToLower(u.email) == u.email
    modifies db`users, db`passwordHashes
    ensures db.Valid()
    ensures db.users == old(db.users)[u.id := u] && db.passwordHashes == old(db.passwordHashes)[u.id := hashed]
  {
    InsertKeepsValid(db.users, db.passwordHashes, u, hashed, db.users[u.id := u], db.passwordHashes[u.id := hashed]);
    db.users := db.users[u.id := u];
    db.passwordHashes := db.passwordHashes[u.id := hashed];
  }

  /** The grade's entry in the table, if it has one. */
  function LookupGrade(g: string): (info: Option<GradeInfo>)
    ensures info.Some? <==> KnownGrade(g)
  {
    if g in GradeConfig then Some(GradeConfig[g]) else None
  }

  /** The checks Register makes before it writes anything, in order: validation, the uniqueness of
      the lower-cased email, the grade table, password hashing and the primary key. On success, the
      row to insert and the password hash to store beside it. */
  method CheckRegistration(users: map<string, UserRow>, scheme: PasswordScheme, req: RegisterRequest, now: int,
                           idBytes: seq<Byte>) returns (r: Result<(UserRow, string), GoError>)
    requires |idBytes| == 16
    ensures ValidateRegistration(req).Some? ==> r == Err(ValidateRegistration(req).value)
    ensures ValidateRegistration(req).None? && EmailTaken(users, ToLower(req.email)) ==> r == Err(UserExists)
    ensures r.Ok? <==>
      RegistrationAcceptable(req) && !EmailTaken(users, ToLower(req.email)) &&
      scheme.hash(req.password).Some? && GenerateUserID(idBytes) !in users
    ensures r.Ok? ==>
      LookupGrade(req.gradeLevel).Some? && scheme.hash(req.password) == Some(r.value.1) &&
      r.value.0 == NewUser(req, GenerateUserID(idBytes), LookupGrade(req.gradeLevel).value.category,
                            LookupGrade(req.gradeLevel).value.tier, now)
  {
    var invalid := ValidateRegistration(req);
    if invalid.Some? {
      return Err(invalid.value);
    }
    if EmailTaken(users, ToLower(req.email)) {
      return Err(UserExists);
    }
    r := BuildUser(users, scheme, req, now, idBytes);
  }

  /** The steps of Register after validation and the email check, in order: the grade table,
      password hashing and the primary key. On success, the row to insert and the password hash. */
  method BuildUser(users: map<string, UserRow>, scheme: PasswordScheme, req: RegisterRequest, now: int,
                   idBytes: seq<Byte>) returns (r: Result<(UserRow, string), GoError>)
    requires |idBytes| == 16
    ensures !KnownGrade(req.gradeLevel) ==> r == Err(AuthError("INVALID_GRADE", "Invalid grade level selected"))
    ensures KnownGrade(req.gradeLevel) && scheme.hash(req.password).None? ==>
      r == Err(AuthError("PASSWORD_HASH_ERROR", "Failed to secure password"))
    ensures KnownGrade(req.gradeLevel) && scheme.hash(req.password).Some? && GenerateUserID(idBytes) in users ==>
      r == Err(AuthError("DATABASE_ERROR", "Failed to create user account"))
    ensures r.Ok? <==>
      KnownGrade(req.gradeLevel) && scheme.hash(req.password).Some? && GenerateUserID(idBytes) !in users
    ensures r.Ok? ==>
      LookupGrade(req.gradeLevel).Some? && scheme.hash(req.password) == Some(r.value.1) &&
      r.value.0 == NewUser(req, GenerateUserID(idBytes), LookupGrade(req.gradeLevel).value.category,
                            LookupGrade(req.gradeLevel).value.tier, now)
  {
    var gradeInfo := LookupGrade(req.gradeLevel);
    if gradeInfo.None? {
      return Err(AuthError("INVALID_GRADE", "Invalid grade level selected"));
    }
    var hashed := scheme.hash(req.password);
    if hashed.None? {
      return Err(AuthError("PASSWORD_HASH_ERROR", "Failed to secure password"));
    }
    var userId := GenerateUserID(idBytes);
    var user := NewUser(req, userId, gradeInfo.value.category, gradeInfo.value.tier, now);
    if userId in users {
      // The primary key is already taken: the INSERT fails.
      return Err(AuthError("DATABASE_ERROR", "Failed to create user account"));
    }
    r := Ok((user, hashed.value));
  }

  /** Register: CheckRegistration, then the insert; a refresh token (30 days) and an email-verification
      token (24 hours) are stored and the new user's 7-day trial starts. Every error leaves the
      database unchanged. */
  method Register(db: Database, sha: Sha256, scheme: PasswordScheme, sign: Signer, req: RegisterRequest, now: int,
                  idBytes: seq<Byte>, refreshBytes: seq<Byte>, verifyBytes: seq<Byte>)
    returns (r: Result<AuthResponse, GoError>)
    requires db.Valid()
    requires |idBytes| == 16 && |refreshBytes| == 32 && |verifyBytes| == 32
    modifies db
    ensures db.Valid()
    ensures r.Err? ==> unchanged(db)
    ensures ValidateRegistration(req).Some? ==> r == Err(ValidateRegistration(req).value)
    ensures ValidateRegistration(req).None? && EmailTaken(old(db.users), ToLower(req.email)) ==> r == Err(UserExists)
    ensures r.Ok? <==>
      RegistrationAcceptable(req) && !EmailTaken(old(db.users), ToLower(req.email)) &&
      scheme.hash(req.password).Some? && GenerateUserID(idBytes) !in old(db.users)
    ensures r.Ok? ==>
      var u := r.value.user;
      LookupGrade(req.gradeLevel).Some? &&
      u == NewUser(req, GenerateUserID(idBytes), LookupGrade(req.gradeLevel).value.category,
                            LookupGrade(req.gradeLevel).value.tier, now) &&
      u.email == ToLower(req.email) &&
      db.users == old(db.users)[u.id := u] &&
      db.passwordHashes == old(db.passwordHashes)[u.id := scheme.hash(req.password).value] &&
      r.value.token == sign(TokenClaims(u, now)) &&
      r.value.refreshToken == GenerateResetToken(refreshBytes) && r.value.expiresIn == 86400 &&
      db.refreshTokens == old(db.refreshTokens) + {TokenRow(u.id, HashToken(sha, r.value.refreshToken), now + RefreshLifetimeMs)} &&
      db.verificationTokens ==
        old(db.verificationTokens) + {VerificationRow(u.id, HashToken(sha, GenerateResetToken(verifyBytes)), now + VerificationLifetimeMs, None)} &&
      db.resetTokens == old(db.resetTokens) && db.sessions == old(db.sessions) &&
      r.value.message == "Account created successfully! Your 7-day free trial has started."
  {
    var checked := CheckRegistration(db.users, scheme, req, now, idBytes);
    if checked.Err? {
      return Err(checked.error);
    }
    var grade := LookupGrade(req.gradeLevel).value;
    NewUserEmail(req, GenerateUserID(idBytes), grade.category, grade.tier, now);
    var response := CreateAccount(db, sha, sign, checked.value.0, checked.value.1, now, refreshBytes, verifyBytes);
    r := Ok(response);
  }

  /** The writes of a successful Register: the insert, the refresh token and (sendWelcomeEmail) the
      hash of a fresh email-verification token. */
  method CreateAccount(db: Database, sha: Sha256, sign: Signer, user: UserRow, hashed: string, now: int,
                       refreshBytes: seq<Byte>, verifyBytes: seq<Byte>) returns (resp: AuthResponse)
    requires db.Valid()
    requires |refreshBytes| == 32 && |verifyBytes| == 32
    requires user.id !in db.users && !EmailTaken(db.users, user.email) && ToLower(user.email) == user.email
    modifies db
    ensures db.Valid()
    ensures db.users == old(db.users)[user.id := user] && db.passwordHashes == old(db.passwordHashes)[user.id := hashed]
    ensures resp.user == user && resp.token == sign(TokenClaims(user, now))
    ensures resp.refreshToken == GenerateResetToken(refreshBytes) && resp.expiresIn == 86400
    ensures db.refreshTokens == old(db.refreshTokens) + {TokenRow(user.id, HashToken(sha, resp.refreshToken), now + RefreshLifetimeMs)}
    ensures db.verificationTokens ==
      old(db.verificationTokens) + {VerificationRow(user.id, HashToken(sha, GenerateResetToken(verifyBytes)), now + VerificationLifetimeMs, None)}
    ensures db.resetTokens == old(db.resetTokens) && db.sessions == old(db.sessions)
    ensures resp.message == "Account created successfully! Your 7-day free trial has started."
  {
    InsertUser(db, user, hashed);
    var tokens := GenerateTokens(db.users, user.id, now, sign, refreshBytes);
    db.StoreRefreshToken(sha, user.id, tokens.value.refreshToken, now + RefreshLifetimeMs);
    var verificationToken := GenerateResetToken(verifyBytes);
    db.verificationTokens := db.verificationTokens +
      {VerificationRow(user.id, HashToken(sha, verificationToken), now + VerificationLifetimeMs, None)};
    resp := AuthResponse(user, tokens.value.token, tokens.value.refreshToken, tokens.value.expiresIn,
                         "Account created successfully! Your 7-day free trial has started.");
  }

  /** The checks Login makes before it writes anything: validation, the lookup by lower-cased email,
      the password check and LoginGate. On success, the user's stored row. */
  method CheckLogin(db: Database, scheme: PasswordScheme, req: LoginRequest) returns (r: Result<UserRow, GoError>)
    requires db.Valid()
    ensures ValidateLogin(req).Some? ==> r == Err(ValidateLogin(req).value)
    ensures ValidateLogin(req).None? && !EmailTaken(db.users, ToLower(req.email)) ==> r == Err(InvalidCredentials)
    ensures ValidateLogin(req).None? ==>
      forall id | id in db.users && db.users[id].email == ToLower(req.email) ::
        var gate := LoginGate(Some(db.users[id]), scheme.verify(db.passwordHashes[id], req.password));
        (gate.Some? ==> r == Err(gate.value)) && (gate.None? ==> r == Ok(db.users[id]))
    ensures r.Ok? ==>
      IsUserWithEmail(db.users, ToLower(req.email), r.value) && r.value.isActive && r.value.status != Expired &&
      scheme.verify(db.passwordHashes[r.value.id], req.password)
  {
    var invalid := ValidateLogin(req);
    if invalid.Some? {
      return Err(invalid.value);
    }
    var found := db.UserByEmail(req.email);
    var passwordOk := found.Some? && scheme.verify(db.passwordHashes[found.value.id], req.password);
    var gate := LoginGate(found, passwordOk);
    if gate.Some? {
      return Err(gate.value);
    }
    r := Ok(found.value);
  }

  /** Replacing a user's row by one with the same id and email keeps the database valid. */
  lemma ReplaceKeepsValid(users: map<string, UserRow>, hashes: map<string, string>, u: UserRow)
    requires ValidTables(users, hashes)
    requires u.id in users && users[u.id].email == u.email
    ensures ValidTables(users[u.id := u], hashes)
  {
  }

  /** The writes of a successful Login: a refresh token is stored and last_login_at and updated_at
      are set. The tokens are signed from the row as read, before the update. */
  method CompleteLogin(db: Database, sha: Sha256, sign: Signer, user: UserRow, now: int, refreshBytes: seq<Byte>)
    returns (resp: AuthResponse)
    requires db.Valid()
    requires |refreshBytes| == 32
    requires user.id in db.users && db.users[user.id] == user
    modifies db`users, db`refreshTokens
    ensures db.Valid()
    ensures db.users == old(db.users)[user.id := user.(lastLoginAt := Some(now), updatedAt := now)]
    ensures resp.user == user.(lastLoginAt := Some(now)) && resp.token == sign(TokenClaims(user, now))
    ensures resp.refreshToken == GenerateResetToken(refreshBytes) && resp.expiresIn == 86400
    ensures db.refreshTokens == old(db.refreshTokens) + {TokenRow(user.id, HashToken(sha, resp.refreshToken), now + RefreshLifetimeMs)}
    ensures resp.message == WelcomeMessage(user.status, user.trialEnd, now)
  {
    var tokens := GenerateTokens(db.users, user.id, now, sign, refreshBytes);
    db.StoreRefreshToken(sha, user.id, tokens.value.refreshToken, now + RefreshLifetimeMs);
    ReplaceKeepsValid(db.users, db.passwordHashes, user.(lastLoginAt := Some(now), updatedAt := now));
    db.users := db.users[user.id := user.(lastLoginAt := Some(now), updatedAt := now)];
    resp := AuthResponse(user.(lastLoginAt := Some(now)), tokens.value.token, tokens.value.refreshToken,
                         tokens.value.expiresIn, WelcomeMessage(user.status, user.trialEnd, now));
  }

  /** Login: CheckLogin, then CompleteLogin. Every error leaves the database unchanged; an unknown
      email and a wrong password give the same INVALID_CREDENTIALS. */
  method Login(db: Database, sha: Sha256, scheme: PasswordScheme, sign: Signer, req: LoginRequest, now: int,
               refreshBytes: seq<Byte>)
    returns (r: Result<AuthResponse, GoError>)
    requires db.Valid()
    requires |refreshBytes| == 32
    modifies db`users, db`refreshTokens
    ensures db.Valid()
    ensures r.Err? ==> unchanged(db)
    ensures ValidateLogin(req).Some? ==> r == Err(ValidateLogin(req).value)
    ensures ValidateLogin(req).None? && !EmailTaken(old(db.users), ToLower(req.email)) ==> r == Err(InvalidCredentials)
    ensures ValidateLogin(req).None? ==>
      forall id | id in old(db.users) && old(db.users)[id].email == ToLower(req.email) ::
        var gate := LoginGate(Some(old(db.users)[id]), scheme.verify(old(db.passwordHashes)[id], req.password));
        (gate.Some? ==> r == Err(gate.value)) && (gate.None? ==> r.Ok? && r.value.user.id == id)
    ensures r.Ok? ==>
      var u := r.value.user;
      u.id in old(db.users) && u == old(db.users)[u.id].(lastLoginAt := Some(now)) &&
      u.email == ToLower(req.email) && u.isActive && u.status != Expired &&
      scheme.verify(db.passwordHashes[u.id], req.password) &&
      db.users == old(db.users)[u.id := u.(updatedAt := now)] &&
      r.value.token == sign(TokenClaims(old(db.users)[u.id], now)) &&
      r.value.refreshToken == GenerateResetToken(refreshBytes) && r.value.expiresIn == 86400 &&
      db.refreshTokens == old(db.refreshTokens) + {TokenRow(u.id, HashToken(sha, r.value.refreshToken), now + RefreshLifetimeMs)} &&
      r.value.message == WelcomeMessage(u.status, u.trialEnd, now)
  {
    var checked := CheckLogin(db, scheme, req);
    if checked.Err? {
      return Err(checked.error);
    }
    var user := checked.value;
    OnlyUserWithEmail(db.users, db.passwordHashes, ToLower(req.email), user);
    var response := CompleteLogin(db, sha, sign, user, now, refreshBytes);
    r := Ok(response);
  }

  /** GetProfile: the stored row of the authenticated user, or USER_NOT_FOUND. */
  function GetProfile(users: map<string, UserRow>, userId: string): (r: Result<UserRow, GoError>)
    ensures r.Ok? <==> userId in users
    ensures r.Ok? ==> r.value == users[userId]
    ensures r.Err? ==> r.error == AuthError("USER_NOT_FOUND", "User profile not found")
  {
    if userId in users then Ok(users[userId]) else Err(AuthError("USER_NOT_FOUND", "User profile not found"))
  }

  /** The profile fields of the request body; a field the client leaves out arrives empty (or nil). */
  datatype ProfileUpdate = ProfileUpdate(firstName: string, lastName: string, profileImage: Option<string>)

  /** UpdateProfile: writes first name, last name and profile image exactly as sent (an omitted
      field is blanked) and updated_at, and nothing else; then reads the row back. */
  method UpdateProfile(db: Database, userId: string, updates: ProfileUpdate, now: int) returns (r: Result<UserRow, GoError>)
    requires db.Valid()
    modifies db`users
    ensures db.Valid()
    ensures userId !in old(db.users) ==> unchanged(db) && r == Err(PlainError("user not found"))
    ensures userId in old(db.users) ==>
      r.Ok? && OnlyProfileFieldsDiffer(old(db.users)[userId], r.value) &&
      r.value.firstName == updates.firstName && r.value.lastName == updates.lastName &&
      r.value.profileImage == updates.profileImage && r.value.updatedAt == now &&
      db.users == old(db.users)[userId := r.value]
  {
    if userId in db.users {
      var row := db.users[userId];
      db.users := db.users[userId := row.(firstName := updates.firstName, lastName := updates.lastName,
                                          profileImage := updates.profileImage, updatedAt := now)];
    }
    if userId in db.users {
      r := Ok(db.users[userId]);
    } else {
      r := Err(PlainError("user not found"));
    }
  }

  /** Every live row with the hash belongs to a stored, active user. */
  predicate LiveOwnersActive(rows: set<TokenRow>, hash: string, now: int, users: map<string, UserRow>) {
    forall row | row in rows && row.tokenHash == hash && row.expiresAt > now ::
      row.userId in users && users[row.userId].isActive
  }

  /** No live row with the hash belongs to a stored user. */
  predicate LiveOwnersMissing(rows: set<TokenRow>, hash: string, now: int, users: map<string, UserRow>) {
    forall row | row in rows && row.tokenHash == hash && row.expiresAt > now :: row.userId !in users
  }

  /** Every live row with the hash belongs to a stored user who has been deactivated. */
  predicate LiveOwnersInactive(rows: set<TokenRow>, hash: string, now: int, users: map<string, UserRow>) {
    forall row | row in rows && row.tokenHash == hash && row.expiresAt > now ::
      row.userId in users && !users[row.userId].isActive
  }

  /** RefreshToken: MISSING_TOKEN, then INVALID_TOKEN unless a live row has the token's hash, then
      USER_NOT_FOUND, then ACCOUNT_INACTIVE (an expired subscription is not checked); on success the
      new token's hash is stored for 30 days and then every row with the old token's hash is
      deleted. */
  method RefreshToken(db: Database, sha: Sha256, sign: Signer, token: string, now: int, refreshBytes: seq<Byte>)
    returns (r: Result<AuthResponse, GoError>)
    requires db.Valid()
    requires |refreshBytes| == 32
    modifies db`refreshTokens
    ensures r.Err? ==> unchanged(db)
    ensures token == "" ==> r == Err(AuthError("MISSING_TOKEN", "Refresh token is required"))
    ensures token != "" && !LiveRefresh(old(db.refreshTokens), HashToken(sha, token), now) ==>
      r == Err(AuthError("INVALID_TOKEN", "Invalid or expired refresh token"))
    ensures r == Err(AuthError("USER_NOT_FOUND", "User not found")) ==>
      exists row | row in db.refreshTokens ::
        row.tokenHash == HashToken(sha, token) && row.expiresAt > now && row.userId !in db.users
    ensures r == Err(AuthError("ACCOUNT_INACTIVE", "Account has been deactivated")) ==>
      exists row | row in db.refreshTokens ::
        row.tokenHash == HashToken(sha, token) && row.expiresAt > now && row.userId in db.users && !db.users[row.userId].isActive
    ensures token != "" && LiveRefresh(old(db.refreshTokens), HashToken(sha, token), now) ==>
      (LiveOwnersActive(old(db.refreshTokens), HashToken(sha, token), now, db.users) ==> r.Ok?) &&
      (LiveOwnersMissing(old(db.refreshTokens), HashToken(sha, token), now, db.users) ==>
         r == Err(AuthError("USER_NOT_FOUND", "User not found"))) &&
      (LiveOwnersInactive(old(db.refreshTokens), HashToken(sha, token), now, db.users) ==>
         r == Err(AuthError("ACCOUNT_INACTIVE", "Account has been deactivated")))
    ensures r.Ok? ==>
      var u := r.value.user;
      token != "" && u.id in db.users && db.users[u.id] == u && u.isActive &&
      (exists row | row in old(db.refreshTokens) :: row.tokenHash == HashToken(sha, token) && row.expiresAt > now && row.userId == u.id) &&
      r.value.token == sign(TokenClaims(u, now)) &&
      r.value.refreshToken == GenerateResetToken(refreshBytes) && r.value.expiresIn == 86400 &&
      db.refreshTokens == WithoutHash(old(db.refreshTokens) + {TokenRow(u.id, HashToken(sha, r.value.refreshToken), now + RefreshLifetimeMs)},
                                      HashToken(sha, token)) &&
      r.value.message == "Tokens refreshed successfully"
  {
    if token == "" {
      return Err(AuthError("MISSING_TOKEN", "Refresh token is required"));
    }
    var owner := db.ValidateRefreshToken(sha, token, now);
    if owner.None? {
      return Err(AuthError("INVALID_TOKEN", "Invalid or expired refresh token"));
    }
    var userId := owner.value;
    if userId !in db.users {
      return Err(AuthError("USER_NOT_FOUND", "User not found"));
    }
    var user := db.users[userId];
    if !user.isActive {
      return Err(AuthError("ACCOUNT_INACTIVE", "Account has been deactivated"));
    }
    var tokens := GenerateTokens(db.users, userId, now, sign, refreshBytes);
    db.StoreRefreshToken(sha, userId, tokens.value.refreshToken, now + RefreshLifetimeMs);
    db.InvalidateRefreshToken(sha, token);
    r := Ok(AuthResponse(user, tokens.value.token, tokens.value.refreshToken, tokens.value.expiresIn,
                         "Tokens refreshed successfully"));
  }

  /** After a rotation whose new token hashes differently from the old one, the new token is live
      until its expiry and the old one is live at no time. When the two digests coincide, the
      deletion also removes the new row. */
  lemma RotationOutcome(rows: set<TokenRow>, sha: Sha256, oldToken: string, newToken: string, owner: string, expiresAt: int, t: int)
    ensures var after := WithoutHash(rows + {TokenRow(owner, HashToken(sha, newToken), expiresAt)}, HashToken(sha, oldToken));
      !LiveRefresh(after, HashToken(sha, oldToken), t) &&
      (sha(newToken) != sha(oldToken) ==> TokenRow(owner, HashToken(sha, newToken), expiresAt) in after) &&
      (sha(newToken) == sha(oldToken) ==> !LiveRefresh(after, HashToken(sha, newToken), t))
  {
    HashTokenEqualIff(sha, newToken, oldToken);
  }

  /** Logout: deletes the refresh token's rows when one is given, and always succeeds. */
  method Logout(db: Database, sha: Sha256, refreshToken: string) returns (err: Option<GoError>)
    modifies db`refreshTokens
    ensures err.None?
    ensures refreshToken == "" ==> db.refreshTokens == old(db.refreshTokens)
    ensures refreshToken != "" ==> db.refreshTokens == WithoutHash(old(db.refreshTokens), HashToken(sha, refreshToken))
  {
    if refreshToken != "" {
      db.InvalidateRefreshToken(sha, refreshToken);
    }
    err := None;
  }

  /** ForgotPassword: MISSING_EMAIL for an empty email and success otherwise, whether or not the
      address is known; for a known address a reset token's hash is stored for one hour. */
  method ForgotPassword(db: Database, sha: Sha256, email: string, now: int, resetBytes: seq<Byte>) returns (err: Option<GoError>)
    requires db.Valid()
    requires |resetBytes| == 32
    modifies db`resetTokens
    ensures err == (if email == "" then Some(AuthError("MISSING_EMAIL", "Email address is required")) else None)
    ensures email == "" || !EmailTaken(db.users, ToLower(email)) ==> db.resetTokens == old(db.resetTokens)
    ensures email != "" && EmailTaken(db.users, ToLower(email)) ==>
      exists id | id in db.users && db.users[id].email == ToLower(email) ::
        db.resetTokens == old(db.resetTokens) + {TokenRow(id, HashToken(sha, GenerateResetToken(resetBytes)), now + ResetLifetimeMs)}
  {
    if email == "" {
      return Some(AuthError("MISSING_EMAIL", "Email address is required"));
    }
    var user := db.UserByEmail(email);
    if user.Some? {
      var resetToken := GenerateResetToken(resetBytes);
      db.resetTokens := db.resetTokens + {TokenRow(user.value.id, HashToken(sha, resetToken), now + ResetLifetimeMs)};
    }
    err := None;
  }

  /** VerifyEmail: MISSING_TOKEN, then INVALID_TOKEN unless an unexpired, unused row has the
      token's hash; on success the owner (if still stored) is marked verified and every row with
      that hash is stamped as used. */
  method VerifyEmail(db: Database, sha: Sha256, token: string, now: int) returns (err: Option<GoError>)
    requires db.Valid()
    modifies db`users, db`verificationTokens
    ensures db.Valid()
    ensures err.Some? ==> unchanged(db)
    ensures token == "" ==> err == Some(AuthError("MISSING_TOKEN", "Verification token is required"))
    ensures token != "" ==>
      (err.None? <==> exists row | row in old(db.verificationTokens) :: Redeemable(row, HashToken(sha, token), now))
    ensures err.Some? && token != "" ==> err == Some(AuthError("INVALID_TOKEN", "Invalid or expired verification token"))
    ensures err.None? ==>
      db.verificationTokens == MarkAllUsed(old(db.verificationTokens), HashToken(sha, token), now) &&
      exists row | row in old(db.verificationTokens) && Redeemable(row, HashToken(sha, token), now) ::
        db.users == (if row.userId in old(db.users)
                     then old(db.users)[row.userId := old(db.users)[row.userId].(emailVerified := true, updatedAt := now)]
                     else old(db.users))
  {
    if token == "" {
      return Some(AuthError("MISSING_TOKEN", "Verification token is required"));
    }
    var hash := HashToken(sha, token);
    if !exists row | row in db.verificationTokens :: Redeemable(row, hash, now) {
      return Some(AuthError("INVALID_TOKEN", "Invalid or expired verification token"));
    }
    var row :| row in db.verificationTokens && Redeemable(row, hash, now);
    RedeemVerification(db, row, hash, now);
    err := None;
  }

  /** The writes of a successful VerifyEmail: the owner of `row` (if still stored) is marked verified
      and every row with the hash is stamped as used. */
  method RedeemVerification(db: Database, row: VerificationRow, hash: string, now: int)
    requires db.Valid()
    modifies db`users, db`verificationTokens
    ensures db.Valid()
    ensures db.verificationTokens == MarkAllUsed(old(db.verificationTokens), hash, now)
    ensures db.users == (if row.userId in old(db.users)
                         then old(db.users)[row.userId := old(db.users)[row.userId].(emailVerified := true, updatedAt := now)]
                         else old(db.users))
  {
    if row.userId in db.users {
      ReplaceKeepsValid(db.users, db.passwordHashes, db.users[row.userId].(emailVerified := true, updatedAt := now));
      db.users := db.users[row.userId := db.users[row.userId].(emailVerified := true, updatedAt := now)];
    }
    db.verificationTokens := MarkAllUsed(db.verificationTokens, hash, now);
  }

  /** Redeeming a verification token a second time fails with INVALID_TOKEN, however soon. */
  method VerifyEmailTwice(db: Database, sha: Sha256, token: string, now: int, later: int)
    returns (first: Option<GoError>, second: Option<GoError>)
    requires db.Valid()
    modifies db`users, db`verificationTokens
    ensures first.None? ==> second == Some(AuthError("INVALID_TOKEN", "Invalid or expired verification token"))
  {
    first := VerifyEmail(db, sha, token, now);
    if first.None? {
      MarkAllUsedSingleUse(old(db.verificationTokens), HashToken(sha, token), now, later);
    }
    second := VerifyEmail(db, sha, token, later);
  }
}
