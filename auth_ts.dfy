/** server/auth/auth.ts: the TypeScript account endpoints over the same database as the Go service.
    Each endpoint is a method (or, for getProfile, a function) that takes the database, the current
    time in milliseconds, the JWT secret, the primitives of HelpersTs and the random values it would
    draw; promises that are not awaited are run in place. */
module AuthTs {
  import opened Common
  import opened Text
  import opened Crypto
  import opened EmailFormat
  import opened Store
  import HelpersGo
  import AuthGo
  import opened HelpersTs

  datatype AuthResponse = AuthResponse(user: UserRow, token: string, refreshToken: string, expiresIn: int, message: string)

  const UserExistsMessage := "A user with this email address already exists"
  const InvalidCredentialsMessage := "Invalid email or password"
  const DeactivatedMessage := "Your account has been deactivated. Please contact support."
  const ExpiredMessage := "Your subscription has expired. Please renew to continue learning."
  const CreatedMessage := "Account created successfully! Your 7-day free trial has started."

  /** The checks register makes before it writes anything, in order: validation, the existence of the
      lower-cased email, the grade table, argon2 hashing and the primary key. On success, the row to
      insert and the password hash to store beside it. */
  method CheckRegistration(users: map<string, UserRow>, scheme: PasswordScheme, req: HelpersGo.RegisterRequest,
                           uuid: string, now: int) returns (r: Result<(UserRow, string), TsError>)
    ensures ValidateRegistration(req).Some? ==> r == Err(Thrown(ValidateRegistration(req).value))
    ensures ValidateRegistration(req).None? && CheckUserExists(users, req.email) ==> r == Err(Thrown(UserExistsMessage))
    ensures r.Ok? <==>
      TsRegistrationAcceptable(req) && !CheckUserExists(users, req.email) &&
      scheme.hash(req.password).Some? && uuid !in users
    ensures r.Ok? ==>
      req.gradeLevel in TsGradeConfig && scheme.hash(req.password) == Some(r.value.1) &&
      r.value.0 == AuthGo.NewUser(req, uuid, TsGradeConfig[req.gradeLevel].category, TsGradeConfig[req.gradeLevel].tier, now)
  {
    var invalid := ValidateRegistration(req);
    if invalid.Some? {
      return Err(Thrown(invalid.value));
    }
    if CheckUserExists(users, req.email) {
      return Err(Thrown(UserExistsMessage));
    }
    r := BuildUser(users, scheme, req, uuid, now);
  }

  /** The steps of register after validation and the existence check, in order: the grade table,
      argon2 hashing and the primary key. On success, the row to insert and the password hash. */
  method BuildUser(users: map<string, UserRow>, scheme: PasswordScheme, req: HelpersGo.RegisterRequest,
                   uuid: string, now: int) returns (r: Result<(UserRow, string), TsError>)
    ensures req.gradeLevel !in TsGradeConfig ==> r == Err(Thrown("Invalid grade level selected"))
    ensures req.gradeLevel in TsGradeConfig && scheme.hash(req.password).None? ==> r == Err(Escaped("argon2"))
    ensures req.gradeLevel in TsGradeConfig && scheme.hash(req.password).Some? && uuid in users ==>
      r == Err(Escaped("database"))
    ensures r.Ok? <==> req.gradeLevel in TsGradeConfig && scheme.hash(req.password).Some? && uuid !in users
    ensures r.Ok? ==>
      scheme.hash(req.password) == Some(r.value.1) &&
      r.value.0 == AuthGo.NewUser(req, uuid, TsGradeConfig[req.gradeLevel].category, TsGradeConfig[req.gradeLevel].tier, now)
  {
    if req.gradeLevel !in TsGradeConfig {
      return Err(Thrown("Invalid grade level selected"));
    }
    var info := TsGradeConfig[req.gradeLevel];
    var hashed := scheme.hash(req.password);
    if hashed.None? {
      return Err(Escaped("argon2"));
    }
    var user := AuthGo.NewUser(req, uuid, info.category, info.tier, now);
    if uuid in users {
      // The primary key is already taken: the INSERT fails inside the database driver.
      return Err(Escaped("database"));
    }
    r := Ok((user, hashed.value));
  }

  /** The writes of a successful register: the insert, the refresh token (30 days) and, from
      sendWelcomeEmail, the hash of a fresh email-verification token (24 hours). */
  method CreateAccount(db: Database, codec: ClaimsCodec, sha: Sha256, secret: string, user: UserRow, hashed: string,
                       now: int, refreshBytes: seq<Byte>, verifyBytes: seq<Byte>) returns (resp: AuthResponse)
    requires db.Valid()
    requires |refreshBytes| == 32 && |verifyBytes| == 32
    requires user.id !in db.users && !EmailTaken(db.users, user.email) && ToLower(user.email) == user.email
    modifies db
    ensures db.Valid()
    ensures db.users == old(db.users)[user.id := user] && db.passwordHashes == old(db.passwordHashes)[user.id := hashed]
    ensures resp.user == user && resp.token == CreateJWT(codec, sha, TokenPayload(user, user.id), secret, now)
    ensures resp.refreshToken == GenerateResetToken(refreshBytes) && resp.expiresIn == TokenLifetimeSeconds
    ensures db.refreshTokens ==
      old(db.refreshTokens) + {TokenRow(user.id, HashToken(sha, resp.refreshToken), now + AuthGo.RefreshLifetimeMs)}
    ensures db.verificationTokens == old(db.verificationTokens) +
      {VerificationRow(user.id, HashToken(sha, GenerateResetToken(verifyBytes)), now + AuthGo.VerificationLifetimeMs, None)}
    ensures db.resetTokens == old(db.resetTokens) && db.sessions == old(db.sessions)
    ensures resp.message == CreatedMessage
  {
    AuthGo.InsertUser(db, user, hashed);
    var tokens := GenerateTokens(codec, sha, db.users, user.id, secret, now, refreshBytes);
    db.StoreRefreshToken(sha, user.id, tokens.value.refreshToken, now + AuthGo.RefreshLifetimeMs);
    var verificationToken := GenerateResetToken(verifyBytes);
    db.verificationTokens := db.verificationTokens +
      {VerificationRow(user.id, HashToken(sha, verificationToken), now + AuthGo.VerificationLifetimeMs, None)};
    resp := AuthResponse(user, tokens.value.token, tokens.value.refreshToken, tokens.value.expiresIn, CreatedMessage);
  }

  /** register: CheckRegistration, then CreateAccount. Every error leaves the database unchanged; the
      new user is on a 7-day trial and holds a token that verifies. */
  method Register(db: Database, codec: ClaimsCodec, sha: Sha256, scheme: PasswordScheme, secret: string,
                  req: HelpersGo.RegisterRequest, now: int, uuid: string, refreshBytes: seq<Byte>, verifyBytes: seq<Byte>)
    returns (r: Result<AuthResponse, TsError>)
    requires db.Valid()
    requires |refreshBytes| == 32 && |verifyBytes| == 32
    modifies db
    ensures db.Valid()
    ensures r.Err? ==> unchanged(db)
    ensures ValidateRegistration(req).Some? ==> r == Err(Thrown(ValidateRegistration(req).value))
    ensures ValidateRegistration(req).None? && CheckUserExists(old(db.users), req.email) ==> r == Err(Thrown(UserExistsMessage))
    ensures r.Ok? <==>
      TsRegistrationAcceptable(req) && !CheckUserExists(old(db.users), req.email) &&
      scheme.hash(req.password).Some? && uuid !in old(db.users)
    ensures r.Ok? ==>
      var u := r.value.user;
      u.id == uuid && u.email == ToLower(req.email) && u.status == Trial && u.isActive && !u.emailVerified &&
      u.trialStart == Some(now) && u.trialEnd == Some(now + AuthGo.TrialMs) &&
      u.gradeCategory == TsGradeConfig[req.gradeLevel].category && u.gradeTier == TsGradeConfig[req.gradeLevel].tier &&
      db.users == old(db.users)[uuid := u] &&
      db.passwordHashes == old(db.passwordHashes)[uuid := scheme.hash(req.password).value] &&
      r.value.token == CreateJWT(codec, sha, TokenPayload(u, uuid), secret, now) &&
      r.value.refreshToken == GenerateResetToken(refreshBytes) && r.value.expiresIn == TokenLifetimeSeconds &&
      db.refreshTokens == old(db.refreshTokens) + {TokenRow(uuid, HashToken(sha, r.value.refreshToken), now + AuthGo.RefreshLifetimeMs)} &&
      db.verificationTokens == old(db.verificationTokens) +
        {VerificationRow(uuid, HashToken(sha, GenerateResetToken(verifyBytes)), now + AuthGo.VerificationLifetimeMs, None)} &&
      db.resetTokens == old(db.resetTokens) && db.sessions == old(db.sessions) &&
      r.value.message == CreatedMessage
  {
    var checked := CheckRegistration(db.users, scheme, req, uuid, now);
    if checked.Err? {
      return Err(checked.error);
    }
    var grade := TsGradeConfig[req.gradeLevel];
    AuthGo.NewUserEmail(req, uuid, grade.category, grade.tier, now);
    var response := CreateAccount(db, codec, sha, secret, checked.value.0, checked.value.1, now, refreshBytes, verifyBytes);
    r := Ok(response);
  }

  /** The checks login makes once the user has been looked up, in order, with the TypeScript
      messages. */
  function LoginGate(found: Option<UserRow>, passwordOk: bool): (err: Option<string>)
    ensures found.None? || !passwordOk ==> err == Some(InvalidCredentialsMessage)
    ensures found.Some? && passwordOk ==> (err.None? <==> found.value.isActive && found.value.status != Expired)
    ensures err == Some(ExpiredMessage) ==> found.Some? && found.value.isActive && found.value.status == Expired
    ensures found.Some? && passwordOk && !found.value.isActive ==> err == Some(DeactivatedMessage)
    ensures found.Some? && passwordOk && found.value.isActive && found.value.status == Expired ==>
      err == Some(ExpiredMessage)
  {
    if found.None? || !passwordOk then Some(InvalidCredentialsMessage)
    else if !found.value.isActive then Some(DeactivatedMessage)
    else if found.value.status == Expired then Some(ExpiredMessage)
    else None
  }

  /** The two services gate a login identically: the same decision, and the TypeScript message is the
      message of the Go error. */
  lemma LoginGatesAgree(found: Option<UserRow>, passwordOk: bool)
    ensures LoginGate(found, passwordOk).None? <==> AuthGo.LoginGate(found, passwordOk).None?
    ensures LoginGate(found, passwordOk).Some? ==>
      AuthGo.LoginGate(found, passwordOk).value.AuthError? &&
      LoginGate(found, passwordOk).value == AuthGo.LoginGate(found, passwordOk).value.message
  {
  }

  /** `Math.ceil(ms / 86400000)`: whole days left, rounded up. */
  function DaysLeft(diff: int): (days: int)
    ensures days > 0 <==> diff > 0
    ensures (days - 1) * DayMs < diff <= days * DayMs
  {
    CeilDiv(diff, DayMs)
  }

  /** The login welcome message: the days left while any part of the trial remains, the expired
      wording once it has ended, and a plain welcome for any other status or a trial without an end
      date. The wording is the Go service's. */
  function WelcomeMessage(status: Status, trialEnd: Option<int>, now: int): (m: string)
    ensures status != Trial || trialEnd.None? ==> m == AuthGo.WelcomeBack
    ensures status == Trial && trialEnd.Some? && trialEnd.value <= now ==> m == AuthGo.TrialOver
    ensures status == Trial && trialEnd.Some? && trialEnd.value > now ==>
      exists d: nat | (d - 1) * DayMs < trialEnd.value - now <= d * DayMs :: d > 0 && m == AuthGo.DaysLeftMessage(d)
  {
    if status == Trial && trialEnd.Some? then
      var daysLeft := DaysLeft(trialEnd.value - now);
      if daysLeft > 0 then AuthGo.DaysLeftMessage(daysLeft) else AuthGo.TrialOver
    else AuthGo.WelcomeBack
  }

  /** A day and a half before the end of the trial, TypeScript reports 2 days left. */
  lemma DaysLeftRoundsUp()
    ensures DaysLeft(DayMs + DayMs / 2) == 2
  {
  }

  /** With less than a day left the services disagree: Go reports the trial as expired, TypeScript
      reports one day left. */
  lemma WelcomeMessagesDiffer(end: int, now: int)
    requires 0 < end - now < DayMs
    ensures AuthGo.WelcomeMessage(Trial, Some(end), now) == AuthGo.TrialOver
    ensures WelcomeMessage(Trial, Some(end), now) == AuthGo.DaysLeftMessage(1)
  {
    assert DaysLeft(end - now) == 1;
  }

  /** When the time left is not positive, or is a whole number of days, the two messages coincide.
      Elsewhere Go rounds down and TypeScript rounds up: with a day and a half left, Go reports one
      day and TypeScript two. */
  lemma WelcomeMessagesAgree(status: Status, trialEnd: Option<int>, now: int)
    requires status == Trial && trialEnd.Some? ==> trialEnd.value - now <= 0 || (trialEnd.value - now) % DayMs == 0
    requires status == Trial && trialEnd.Some? ==> trialEnd.value - now <= 0 || trialEnd.value - now >= DayMs
    ensures AuthGo.WelcomeMessage(status, trialEnd, now) == WelcomeMessage(status, trialEnd, now)
  {
    if status == Trial && trialEnd.Some? {
      var diff := trialEnd.value - now;
      if diff > 0 {
        assert AuthGo.DaysLeft(diff) == diff / DayMs;
        assert DaysLeft(diff) == diff / DayMs;
      } else if diff < 0 {
        assert AuthGo.DaysLeft(diff) <= 0;
      }
    }
  }

  /** The checks login makes before it writes anything: validation, the lookup by lower-cased email,
      verifyPassword and LoginGate. On success, the user's stored row. */
  method CheckLogin(db: Database, scheme: PasswordScheme, req: HelpersGo.LoginRequest) returns (r: Result<UserRow, TsError>)
    requires db.Valid()
    ensures ValidateLogin(req).Some? ==> r == Err(Thrown(ValidateLogin(req).value))
    ensures ValidateLogin(req).None? && !EmailTaken(db.users, ToLower(req.email)) ==> r == Err(Thrown(InvalidCredentialsMessage))
    ensures ValidateLogin(req).None? ==>
      forall id | id in db.users && db.users[id].email == ToLower(req.email) ::
        var gate := LoginGate(Some(db.users[id]), VerifyPassword(db, scheme, id, req.password));
        (gate.Some? ==> r == Err(Thrown(gate.value))) && (gate.None? ==> r == Ok(db.users[id]))
    ensures r.Ok? ==>
      IsUserWithEmail(db.users, ToLower(req.email), r.value) && r.value.isActive && r.value.status != Expired &&
      VerifyPassword(db, scheme, r.value.id, req.password)
  {
    var invalid := ValidateLogin(req);
    if invalid.Some? {
      return Err(Thrown(invalid.value));
    }
    var found := db.UserByEmail(req.email);
    var passwordOk := found.Some? && VerifyPassword(db, scheme, found.value.id, req.password);
    var gate := LoginGate(found, passwordOk);
    if gate.Some? {
      return Err(Thrown(gate.value));
    }
    r := Ok(found.value);
  }

  /** The writes of a successful login: a 30-day refresh token is stored and last_login_at and
      updated_at are set; the response carries the row as read with last_login_at filled in. */
  method CompleteLogin(db: Database, codec: ClaimsCodec, sha: Sha256, secret: string, user: UserRow, now: int,
                       refreshBytes: seq<Byte>) returns (resp: AuthResponse)
    requires db.Valid()
    requires |refreshBytes| == 32
    requires user.id in db.users && db.users[user.id] == user
    modifies db`users, db`refreshTokens
    ensures db.Valid()
    ensures db.users == old(db.users)[user.id := user.(lastLoginAt := Some(now), updatedAt := now)]
    ensures resp.user == user.(lastLoginAt := Some(now))
    ensures resp.token == CreateJWT(codec, sha, TokenPayload(user, user.id), secret, now)
    ensures resp.refreshToken == GenerateResetToken(refreshBytes) && resp.expiresIn == TokenLifetimeSeconds
    ensures db.refreshTokens ==
      old(db.refreshTokens) + {TokenRow(user.id, HashToken(sha, resp.refreshToken), now + AuthGo.RefreshLifetimeMs)}
    ensures resp.message == WelcomeMessage(user.status, user.trialEnd, now)
  {
    var tokens := GenerateTokens(codec, sha, db.users, user.id, secret, now, refreshBytes);
    db.StoreRefreshToken(sha, user.id, tokens.value.refreshToken, now + AuthGo.RefreshLifetimeMs);
    AuthGo.ReplaceKeepsValid(db.users, db.passwordHashes, user.(lastLoginAt := Some(now), updatedAt := now));
    db.users := db.users[user.id := user.(lastLoginAt := Some(now), updatedAt := now)];
    resp := AuthResponse(user.(lastLoginAt := Some(now)), tokens.value.token, tokens.value.refreshToken,
                         tokens.value.expiresIn, WelcomeMessage(user.status, user.trialEnd, now));
  }

  /** login: CheckLogin, then CompleteLogin. Every error leaves the database unchanged; an unknown
      email and a wrong password give the same "Invalid email or password". */
  method Login(db: Database, codec: ClaimsCodec, sha: Sha256, scheme: PasswordScheme, secret: string,
               req: HelpersGo.LoginRequest, now: int, refreshBytes: seq<Byte>)
    returns (r: Result<AuthResponse, TsError>)
    requires db.Valid()
    requires |refreshBytes| == 32
    modifies db`users, db`refreshTokens
    ensures db.Valid()
    ensures r.Err? ==> unchanged(db)
    ensures ValidateLogin(req).Some? ==> r == Err(Thrown(ValidateLogin(req).value))
    ensures ValidateLogin(req).None? && !EmailTaken(old(db.users), ToLower(req.email)) ==> r == Err(Thrown(InvalidCredentialsMessage))
    ensures ValidateLogin(req).None? ==>
      forall id | id in old(db.users) && old(db.users)[id].email == ToLower(req.email) ::
        var gate := LoginGate(Some(old(db.users)[id]), old(VerifyPassword(db, scheme, id, req.password)));
        (gate.Some? ==> r == Err(Thrown(gate.value))) && (gate.None? ==> r.Ok? && r.value.user.id == id)
    ensures r.Ok? ==>
      var u := r.value.user;
      u.id in old(db.users) && u == old(db.users)[u.id].(lastLoginAt := Some(now)) &&
      u.email == ToLower(req.email) && u.isActive && u.status != Expired &&
      db.users == old(db.users)[u.id := u.(updatedAt := now)] &&
      r.value.token == CreateJWT(codec, sha, TokenPayload(old(db.users)[u.id], u.id), secret, now) &&
      r.value.refreshToken == GenerateResetToken(refreshBytes) && r.value.expiresIn == TokenLifetimeSeconds &&
      db.refreshTokens == old(db.refreshTokens) + {TokenRow(u.id, HashToken(sha, r.value.refreshToken), now + AuthGo.RefreshLifetimeMs)} &&
      r.value.message == WelcomeMessage(u.status, u.trialEnd, now)
  {
    var checked := CheckLogin(db, scheme, req);
    if checked.Err? {
      return Err(checked.error);
    }
    var response := CompleteLogin(db, codec, sha, secret, checked.value, now, refreshBytes);
    r := Ok(response);
  }

  /** The token of an Authorization header: what follows "Bearer ", or None when the header is
      missing or has another scheme. */
  function ExtractBearer(header: Option<string>): (token: Option<string>)
    ensures token.Some? <==> header.Some? && StartsWith(header.value, "Bearer ")
    ensures token.Some? ==> header.value == "Bearer " + token.value
  {
    if header.Some? && header.value != "" && StartsWith(header.value, "Bearer ") then
      assert header.value == header.value[..7] + header.value[7..];
      Some(header.value[7..])
    else None
  }

  /** A header built from a token gives that token back. */
  lemma BearerRoundTrip(token: string)
    ensures ExtractBearer(Some("Bearer " + token)) == Some(token)
  {
    assert ("Bearer " + token)[..7] == "Bearer ";
    assert ("Bearer " + token)[7..] == token;
  }

  /** The prologue getProfile, updateProfile and logout share: a Bearer header, a non-empty token, a
      token verifyJWT accepts and a payload naming a user. */
  function Authenticate(codec: ClaimsCodec, sha: Sha256, secret: string, header: Option<string>, now: int)
    : (r: Result<Claims, TsError>)
    ensures ExtractBearer(header).None? ==> r == Err(Thrown("Missing or invalid authorization header"))
    ensures ExtractBearer(header) == Some("") ==> r == Err(Thrown("No token provided"))
    ensures r.Ok? <==>
      ExtractBearer(header).Some? && ExtractBearer(header).value != "" &&
      VerifyJWT(codec, sha, ExtractBearer(header).value, secret, now).Ok? &&
      VerifyJWT(codec, sha, ExtractBearer(header).value, secret, now).value.userID != ""
    ensures r.Ok? ==> r.value == VerifyJWT(codec, sha, ExtractBearer(header).value, secret, now).value
    ensures r.Err? ==> r.error.Thrown?
    ensures ExtractBearer(header).Some? && ExtractBearer(header).value != "" &&
            VerifyJWT(codec, sha, ExtractBearer(header).value, secret, now).Err? ==>
      r == Err(VerifyJWT(codec, sha, ExtractBearer(header).value, secret, now).error)
    ensures ExtractBearer(header).Some? && ExtractBearer(header).value != "" &&
            VerifyJWT(codec, sha, ExtractBearer(header).value, secret, now).Ok? &&
            VerifyJWT(codec, sha, ExtractBearer(header).value, secret, now).value.userID == "" ==>
      r == Err(Thrown("Invalid token: missing user ID"))
  {
    match ExtractBearer(header)
    case None => Err(Thrown("Missing or invalid authorization header"))
    case Some(token) =>
      if token == "" then Err(Thrown("No token provided"))
      else match VerifyJWT(codec, sha, token, secret, now)
        case Err(e) => Err(e)
        case Ok(claims) => if claims.userID == "" then Err(Thrown("Invalid token: missing user ID")) else Ok(claims)
  }

  /** A token that generateTokens issued to a user with a non-empty id authenticates that user, sent
      as "Bearer <token>", until it expires. */
  lemma IssuedTokenAuthenticates(codec: ClaimsCodec, sha: Sha256, users: map<string, UserRow>, userID: string,
                                 secret: string, now: int, refreshBytes: seq<Byte>, later: int)
    requires Lawful(codec) && |refreshBytes| == 32 && userID in users && userID != ""
    requires later / 1000 <= now / 1000 + TokenLifetimeSeconds
    ensures var token := GenerateTokens(codec, sha, users, userID, secret, now, refreshBytes).value.token;
      var r := Authenticate(codec, sha, secret, Some("Bearer " + token), later);
      r.Ok? && r.value.userID == userID
  {
    var token := GenerateTokens(codec, sha, users, userID, secret, now, refreshBytes).value.token;
    BearerRoundTrip(token);
    GeneratedTokenVerifies(codec, sha, users, userID, secret, now, refreshBytes, later);
    assert token != "" by {
      assert Split(token, '.')[0] == Header;
    }
  }

  /** getProfile: the stored row of the authenticated user; "User not found" when there is none and
      "Account has been deactivated" when it is inactive. */
  function GetProfile(codec: ClaimsCodec, sha: Sha256, secret: string, users: map<string, UserRow>,
                      header: Option<string>, now: int) : (r: Result<UserRow, TsError>)
    ensures Authenticate(codec, sha, secret, header, now).Err? ==> r == Err(Authenticate(codec, sha, secret, header, now).error)
    ensures r.Ok? <==>
      Authenticate(codec, sha, secret, header, now).Ok? &&
      Authenticate(codec, sha, secret, header, now).value.userID in users &&
      users[Authenticate(codec, sha, secret, header, now).value.userID].isActive
    ensures r.Ok? ==> r.value == users[Authenticate(codec, sha, secret, header, now).value.userID]
    ensures Authenticate(codec, sha, secret, header, now).Ok? && Authenticate(codec, sha, secret, header, now).value.userID !in users ==> r == Err(Thrown("User not found"))
    ensures Authenticate(codec, sha, secret, header, now).Ok? && Authenticate(codec, sha, secret, header, now).value.userID in users && !users[Authenticate(codec, sha, secret, header, now).value.userID].isActive ==>
      r == Err(Thrown("Account has been deactivated"))
  {
    match Authenticate(codec, sha, secret, header, now)
    case Err(e) => Err(e)
    case Ok(claims) =>
      if claims.userID !in users then Err(Thrown("User not found"))
      else if !users[claims.userID].isActive then Err(Thrown("Account has been deactivated"))
      else Ok(users[claims.userID])
  }

  /** The optional fields of an updateProfile request. */
  datatype ProfileUpdate = ProfileUpdate(firstName: Option<string>, lastName: Option<string>, profileImage: Option<string>)

  /** The row updateProfile writes: each sent, non-empty field replaces the stored one, an omitted or
      empty field keeps it, and updated_at is set; no other column changes. */
  function ApplyUpdate(row: UserRow, update: ProfileUpdate, now: int): (r: UserRow)
    ensures OnlyProfileFieldsDiffer(row, r) && r.updatedAt == now
    ensures r.firstName == (if Truthy(update.firstName) then update.firstName.value else row.firstName)
    ensures r.lastName == (if Truthy(update.lastName) then update.lastName.value else row.lastName)
    ensures Truthy(update.profileImage) ==> r.profileImage == update.profileImage
    ensures !Truthy(update.profileImage) ==> r.profileImage == row.profileImage
  {
    row.(firstName := if Truthy(update.firstName) then update.firstName.value else row.firstName,
         lastName := if Truthy(update.lastName) then update.lastName.value else row.lastName,
         profileImage := if Truthy(update.profileImage) then update.profileImage else row.profileImage,
         updatedAt := now)
  }

  /** Sending the same update twice leaves the row as sending it once does. */
  lemma ApplyUpdateIdempotent(row: UserRow, update: ProfileUpdate, now: int)
    ensures ApplyUpdate(ApplyUpdate(row, update, now), update, now) == ApplyUpdate(row, update, now)
  {
  }

  /** An update with no usable field only touches updated_at. */
  lemma EmptyUpdateTouchesOnlyTimestamp(row: UserRow, now: int)
    ensures ApplyUpdate(row, ProfileUpdate(None, Some(""), None), now) == row.(updatedAt := now)
  {
  }

  /** updateProfile: after the shared prologue and the lookup ("User not found"), the row becomes
      ApplyUpdate of itself and is read back. Unlike getProfile it does not refuse an inactive user. */
  method UpdateProfile(db: Database, codec: ClaimsCodec, sha: Sha256, secret: string, header: Option<string>,
                       update: ProfileUpdate, now: int) returns (r: Result<UserRow, TsError>)
    requires db.Valid()
    modifies db`users
    ensures db.Valid()
    ensures r.Err? ==> unchanged(db)
    ensures Authenticate(codec, sha, secret, header, now).Err? ==> r == Err(Authenticate(codec, sha, secret, header, now).error)
    ensures r.Ok? <==>
      Authenticate(codec, sha, secret, header, now).Ok? && Authenticate(codec, sha, secret, header, now).value.userID in old(db.users)
    ensures r.Ok? ==>
      var id := Authenticate(codec, sha, secret, header, now).value.userID;
      r.value == ApplyUpdate(old(db.users)[id], update, now) && db.users == old(db.users)[id := r.value]
    ensures Authenticate(codec, sha, secret, header, now).Ok? && Authenticate(codec, sha, secret, header, now).value.userID !in old(db.users) ==> r == Err(Thrown("User not found"))
  {
    var claims := Authenticate(codec, sha, secret, header, now);
    if claims.Err? {
      return Err(claims.error);
    }
    var id := claims.value.userID;
    if id !in db.users {
      return Err(Thrown("User not found"));
    }
    var updated := ApplyUpdate(db.users[id], update, now);
    AuthGo.ReplaceKeepsValid(db.users, db.passwordHashes, updated);
    db.users := db.users[id := updated];
    r := Ok(db.users[id]);
  }

  /** logout: after the shared prologue, every row with the refresh token's hash is deleted when a
      non-empty refresh token is sent; the answer is always "Logged out successfully". */
  method Logout(db: Database, codec: ClaimsCodec, sha: Sha256, secret: string, header: Option<string>,
                refreshToken: Option<string>, now: int) returns (r: Result<string, TsError>)
    modifies db`refreshTokens
    ensures Authenticate(codec, sha, secret, header, now).Err? ==>
      unchanged(db) && r == Err(Authenticate(codec, sha, secret, header, now).error)
    ensures Authenticate(codec, sha, secret, header, now).Ok? ==> r == Ok("Logged out successfully")
    ensures Authenticate(codec, sha, secret, header, now).Ok? && Truthy(refreshToken) ==>
      db.refreshTokens == WithoutHash(old(db.refreshTokens), HashToken(sha, refreshToken.value))
    ensures !Truthy(refreshToken) ==> unchanged(db)
  {
    var claims := Authenticate(codec, sha, secret, header, now);
    if claims.Err? {
      return Err(claims.error);
    }
    if Truthy(refreshToken) {
      db.InvalidateRefreshToken(sha, refreshToken.value);
    }
    r := Ok("Logged out successfully");
  }
}
