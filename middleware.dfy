/** server/auth/middleware.ts: the authentication middlewares of the TypeScript service. The
    module-level currentUser and currentUserID become the fields of a RequestContext object; the
    handler a middleware wraps (`next`) is a function from the user it sees in that context to what
    it answers. */
module Middleware {
  import opened Common
  import opened Text
  import opened Crypto
  import opened Store
  import opened HelpersTs
  import AuthTs

  /** The two Encore error codes the middlewares raise. */
  datatype ErrCode = Unauthenticated | PermissionDenied

  /** What can be thrown through a middleware: an APIError, a plain Error with its message, or a value
      that is not an Error at all. */
  datatype Failure = ApiError(code: ErrCode, message: string) | PlainError(message: string) | NotAnError

  /** What a handler, and so a middleware, answers. */
  datatype Outcome = Completed(body: string) | Failed(failure: Failure)

  type Handler = Option<UserRow> -> Outcome

  const AuthenticationRequired := ApiError(Unauthenticated, "Authentication required")

  /** The catch block of authMiddleware: an APIError is rethrown as it is; an Error whose message
      mentions "expired" (checked first) or "invalid" becomes the matching Unauthenticated error, and
      anything else becomes "Authentication failed". */
  function MapError(f: Failure): (g: Failure)
    ensures g.ApiError?
    ensures f.ApiError? ==> g == f
    ensures !f.ApiError? ==> g.code == Unauthenticated
    ensures f.PlainError? && Contains(f.message, "expired") ==> g.message == "Token has expired"
    ensures f.PlainError? && !Contains(f.message, "expired") && Contains(f.message, "invalid") ==>
      g.message == "Invalid token"
    ensures f.NotAnError? ==> g.message == "Authentication failed"
    ensures f.PlainError? && !Contains(f.message, "expired") && !Contains(f.message, "invalid") ==>
      g.message == "Authentication failed"
  {
    match f
    case ApiError(_, _) => f
    case PlainError(m) =>
      if Contains(m, "expired") then ApiError(Unauthenticated, "Token has expired")
      else if Contains(m, "invalid") then ApiError(Unauthenticated, "Invalid token")
      else ApiError(Unauthenticated, "Authentication failed")
    case NotAnError => ApiError(Unauthenticated, "Authentication failed")
  }

  /** Mapping an already mapped error changes nothing. */
  lemma MapErrorIdempotent(f: Failure)
    ensures MapError(MapError(f)) == MapError(f)
  {
  }

  /** verifyJWT's one message mentions "expired", so every failed verification is reported as an
      expired token, even a forged one; the "Invalid token" branch is never taken for it. */
  lemma VerifyFailureReadsAsExpired()
    ensures MapError(PlainError("Invalid or expired token")) == ApiError(Unauthenticated, "Token has expired")
  {
    assert OccursAt("Invalid or expired token", "expired", 11);
  }

  /** The checks authMiddleware makes before it calls the handler, in order: a Bearer header with a
      non-empty token, verifyJWT, a user id in the claims, the user's row, an active account and a
      subscription that has not expired. On success, the user to put in the context. */
  function Admit(codec: ClaimsCodec, sha: Sha256, secret: string, users: map<string, UserRow>,
                 header: Option<string>, now: int): (r: Result<UserRow, Failure>)
    ensures AuthTs.ExtractBearer(header).None? || AuthTs.ExtractBearer(header) == Some("") ==>
      r == Err(ApiError(Unauthenticated, "Missing or invalid authorization header"))
    ensures r.Ok? <==>
      AuthTs.Authenticate(codec, sha, secret, header, now).Ok? &&
      AuthTs.Authenticate(codec, sha, secret, header, now).value.userID in users &&
      users[AuthTs.Authenticate(codec, sha, secret, header, now).value.userID].isActive &&
      users[AuthTs.Authenticate(codec, sha, secret, header, now).value.userID].status != Expired
    ensures r.Ok? ==> r.value == users[AuthTs.Authenticate(codec, sha, secret, header, now).value.userID]
    ensures r.Err? && r.error.ApiError? && r.error.code == PermissionDenied ==>
      r.error.message == "Subscription has expired"
    ensures AuthTs.Authenticate(codec, sha, secret, header, now).Ok? &&
            AuthTs.Authenticate(codec, sha, secret, header, now).value.userID !in users ==>
      r == Err(ApiError(Unauthenticated, "User not found"))
    ensures AuthTs.ExtractBearer(header).Some? && AuthTs.ExtractBearer(header).value != "" &&
            VerifyJWT(codec, sha, AuthTs.ExtractBearer(header).value, secret, now).Ok? &&
            VerifyJWT(codec, sha, AuthTs.ExtractBearer(header).value, secret, now).value.userID == "" ==>
      r == Err(ApiError(Unauthenticated, "Invalid token: missing user ID"))
    ensures AuthTs.ExtractBearer(header).Some? && AuthTs.ExtractBearer(header).value != "" &&
            VerifyJWT(codec, sha, AuthTs.ExtractBearer(header).value, secret, now).Err? ==>
      r == Err(PlainError(VerifyJWT(codec, sha, AuthTs.ExtractBearer(header).value, secret, now).error.message))
    ensures AuthTs.Authenticate(codec, sha, secret, header, now).Ok? &&
            AuthTs.Authenticate(codec, sha, secret, header, now).value.userID in users &&
            !users[AuthTs.Authenticate(codec, sha, secret, header, now).value.userID].isActive ==>
      r == Err(ApiError(Unauthenticated, "Account has been deactivated"))
  {
    match AuthTs.ExtractBearer(header)
    case None => Err(ApiError(Unauthenticated, "Missing or invalid authorization header"))
    case Some(token) =>
      if token == "" then Err(ApiError(Unauthenticated, "Missing or invalid authorization header"))
      else match VerifyJWT(codec, sha, token, secret, now)
        case Err(e) => Err(PlainError(e.message))
        case Ok(claims) =>
          if claims.userID == "" then Err(ApiError(Unauthenticated, "Invalid token: missing user ID"))
          else if claims.userID !in users then Err(ApiError(Unauthenticated, "User not found"))
          else if !users[claims.userID].isActive then Err(ApiError(Unauthenticated, "Account has been deactivated"))
          else if users[claims.userID].status == Expired then Err(ApiError(PermissionDenied, "Subscription has expired"))
          else Ok(users[claims.userID])
  }

  /** An inactive account is refused as unauthenticated, an expired subscription as a permission
      problem, and a cancelled one is let through. */
  lemma AdmitDecisions(codec: ClaimsCodec, sha: Sha256, secret: string, users: map<string, UserRow>,
                       header: Option<string>, now: int)
    requires AuthTs.Authenticate(codec, sha, secret, header, now).Ok?
    requires AuthTs.Authenticate(codec, sha, secret, header, now).value.userID in users
    ensures var u := users[AuthTs.Authenticate(codec, sha, secret, header, now).value.userID];
      var r := Admit(codec, sha, secret, users, header, now);
      (!u.isActive ==> r == Err(ApiError(Unauthenticated, "Account has been deactivated"))) &&
      (u.isActive && u.status == Expired ==> r == Err(ApiError(PermissionDenied, "Subscription has expired"))) &&
      (u.isActive && u.status == Cancelled ==> r == Ok(u))
  {
  }

  /** A token that cannot be verified is always answered with "Token has expired". */
  lemma UnverifiableTokenReadsAsExpired(codec: ClaimsCodec, sha: Sha256, secret: string, users: map<string, UserRow>,
                                        token: string, now: int)
    requires token != "" && VerifyJWT(codec, sha, token, secret, now).Err?
    ensures MapError(Admit(codec, sha, secret, users, Some("Bearer " + token), now).error) ==
      ApiError(Unauthenticated, "Token has expired")
  {
    AuthTs.BearerRoundTrip(token);
    VerifyFailureReadsAsExpired();
  }

  /** The module-level user context. */
  class RequestContext {
    var currentUser: Option<UserRow>
    var currentUserID: Option<string>

    /** No user is set: the state every middleware leaves behind. */
    predicate Cleared()
      reads this
    {
      currentUser.None? && currentUserID.None?
    }

    constructor ()
      ensures Cleared()
    {
      currentUser := None;
      currentUserID := None;
    }

    /** getCurrentUser. */
    function GetCurrentUser(): (u: Option<UserRow>)
      reads this
      ensures u == currentUser
    {
      currentUser
    }

    /** requireAuth: the current user, or "Authentication required" when there is none. */
    function RequireAuth(): (r: Result<UserRow, Failure>)
      reads this
      ensures r.Ok? <==> currentUser.Some?
      ensures r.Ok? ==> r.value == currentUser.value
      ensures r.Err? ==> r.error == AuthenticationRequired
    {
      if currentUser.None? then Err(AuthenticationRequired) else Ok(currentUser.value)
    }

    /** hasPermission: nobody holds a permission without a current user; staff emails are admins,
        teachers are emails mentioning "teacher" and admins, and every user is a student. */
    function HasPermission(p: Permission): (granted: bool)
      reads this
      ensures currentUser.None? ==> !granted
      ensures currentUser.Some? && p == Admin ==> (granted <==> IsAdminEmail(currentUser.value.email))
      ensures currentUser.Some? && p == Teacher ==>
        (granted <==> Contains(currentUser.value.email, "teacher") || IsAdminEmail(currentUser.value.email))
      ensures currentUser.Some? && p == Student ==> granted
      decreases if p == Teacher then 1 else 0
    {
      if currentUser.None? then false
      else match p
        case Admin => IsAdminEmail(currentUser.value.email)
        case Teacher => Contains(currentUser.value.email, "teacher") || HasPermission(Admin)
        case Student => true
    }
  }

  datatype Permission = Student | Teacher | Admin

  /** The admin test of hasPermission and adminMiddleware. */
  predicate IsAdminEmail(email: string) {
    EndsWith(email, "@tusome.ke") || email == "admin@tusome.com"
  }

  /** The permissions are ordered: an admin is a teacher and a teacher is a student. */
  lemma PermissionsNest(ctx: RequestContext)
    ensures ctx.HasPermission(Admin) ==> ctx.HasPermission(Teacher)
    ensures ctx.HasPermission(Teacher) ==> ctx.HasPermission(Student)
    ensures ctx.HasPermission(Student) <==> ctx.currentUser.Some?
  {
  }

  /** A staff address is an admin, and the reserved address is one too. */
  lemma StaffAreAdmins(ctx: RequestContext)
    requires ctx.currentUser.Some? && ctx.currentUser.value.email == "mwalimu@tusome.ke"
    ensures ctx.HasPermission(Admin)
  {
    assert "mwalimu@tusome.ke"[17 - 10..] == "@tusome.ke";
  }

  /** authMiddleware: on admission the user and its id are put in the context, the handler runs and
      its answer is passed on; any failure, the handler's own included, goes through MapError. Either
      way the context is cleared before the middleware returns. */
  method AuthMiddleware(ctx: RequestContext, codec: ClaimsCodec, sha: Sha256, secret: string,
                        users: map<string, UserRow>, header: Option<string>, now: int, next: Handler)
    returns (out: Outcome)
    modifies ctx
    ensures ctx.Cleared()
    ensures Admit(codec, sha, secret, users, header, now).Err? ==>
      out == Failed(MapError(Admit(codec, sha, secret, users, header, now).error))
    ensures Admit(codec, sha, secret, users, header, now).Ok? ==>
      var answer := next(Some(Admit(codec, sha, secret, users, header, now).value));
      out == (if answer.Completed? then answer else Failed(MapError(answer.failure)))
    ensures out.Failed? ==> out.failure.ApiError?
  {
    var admitted := Admit(codec, sha, secret, users, header, now);
    if admitted.Err? {
      ctx.currentUser, ctx.currentUserID := None, None;
      return Failed(MapError(admitted.error));
    }
    ctx.currentUser := Some(admitted.value);
    ctx.currentUserID := Some(admitted.value.id);
    var answer := next(ctx.GetCurrentUser());
    ctx.currentUser, ctx.currentUserID := None, None;
    if answer.Failed? {
      return Failed(MapError(answer.failure));
    }
    out := answer;
  }

  /** A message without some character of a word does not contain the word. */
  lemma MissingCharNotContained(s: string, word: string, k: nat)
    requires k < |word| && forall j | 0 <= j < |s| :: s[j] != word[k]
    ensures !Contains(s, word)
  {
    forall i | 0 <= i <= |s| - |word| ensures !OccursAt(s, word, i) {
      assert s[i..i + |word|][k] == s[i + k];
    }
  }

  /** A handler behind authMiddleware that throws a plain Error is reported as an authentication
      failure: here, one whose message says nothing of tokens. */
  lemma HandlerErrorsAreRemapped()
    ensures MapError(PlainError("Not found")) == ApiError(Unauthenticated, "Authentication failed")
  {
    MissingCharNotContained("Not found", "expired", 1);
    MissingCharNotContained("Not found", "invalid", 2);
  }

  /** The user optionalAuthMiddleware puts in the context: the active user a valid token names, or
      nothing; an unverifiable token is ignored. */
  function OptionalUser(codec: ClaimsCodec, sha: Sha256, secret: string, users: map<string, UserRow>,
                        header: Option<string>, now: int): (u: Option<UserRow>)
    ensures u.Some? <==>
      AuthTs.Authenticate(codec, sha, secret, header, now).Ok? &&
      AuthTs.Authenticate(codec, sha, secret, header, now).value.userID in users &&
      users[AuthTs.Authenticate(codec, sha, secret, header, now).value.userID].isActive
    ensures u.Some? ==> u.value.isActive
    ensures u.Some? ==> u.value == users[AuthTs.Authenticate(codec, sha, secret, header, now).value.userID]
  {
    match AuthTs.ExtractBearer(header)
    case None => None
    case Some(token) =>
      if token == "" then None
      else match VerifyJWT(codec, sha, token, secret, now)
        case Err(_) => None
        case Ok(claims) =>
          if claims.userID != "" && claims.userID in users && users[claims.userID].isActive
          then Some(users[claims.userID])
          else None
  }

  /** Optional authentication admits everyone authMiddleware admits, and more: a user whose
      subscription has expired is still identified. */
  lemma OptionalAdmitsMore(codec: ClaimsCodec, sha: Sha256, secret: string, users: map<string, UserRow>,
                           header: Option<string>, now: int)
    ensures Admit(codec, sha, secret, users, header, now).Ok? ==>
      OptionalUser(codec, sha, secret, users, header, now) == Some(Admit(codec, sha, secret, users, header, now).value)
  {
  }

  /** optionalAuthMiddleware: never fails because of the token. A recognised active user is put in the
      context; otherwise the context is left as it was. The handler's answer, error included, is passed
      on unchanged, and the context is cleared afterwards. */
  method OptionalAuthMiddleware(ctx: RequestContext, codec: ClaimsCodec, sha: Sha256, secret: string,
                                users: map<string, UserRow>, header: Option<string>, now: int, next: Handler)
    returns (out: Outcome)
    modifies ctx
    ensures ctx.Cleared()
    ensures OptionalUser(codec, sha, secret, users, header, now).Some? ==>
      out == next(OptionalUser(codec, sha, secret, users, header, now))
    ensures OptionalUser(codec, sha, secret, users, header, now).None? ==> out == next(old(ctx.currentUser))
  {
    var user := OptionalUser(codec, sha, secret, users, header, now);
    if user.Some? {
      ctx.currentUser := user;
      ctx.currentUserID := Some(user.value.id);
    }
    out := next(ctx.GetCurrentUser());
    ctx.currentUser, ctx.currentUserID := None, None;
  }

  /** Between requests the context is clear, so an anonymous request behind optionalAuthMiddleware
      reaches its handler with no user. */
  method AnonymousAfterAuthenticated(ctx: RequestContext, codec: ClaimsCodec, sha: Sha256, secret: string,
                                     users: map<string, UserRow>, first: Option<string>, second: Option<string>,
                                     now: int, next: Handler)
    returns (out: Outcome)
    requires OptionalUser(codec, sha, secret, users, second, now).None?
    modifies ctx
    ensures out == next(None)
  {
    var _ := AuthMiddleware(ctx, codec, sha, secret, users, first, now, next);
    out := OptionalAuthMiddleware(ctx, codec, sha, secret, users, second, now, next);
  }

  /** The test subscriptionMiddleware makes of the current user: none is unauthenticated, an expired
      or cancelled subscription and a trial past its end date are refused. */
  function SubscriptionCheck(user: Option<UserRow>, now: int): (err: Option<Failure>)
    ensures user.None? ==> err == Some(AuthenticationRequired)
    ensures user.Some? ==>
      (err.None? <==>
        user.value.status == Active ||
        (user.value.status == Trial && (user.value.trialEnd.None? || now <= user.value.trialEnd.value)))
    ensures err.Some? ==> err.value.ApiError?
    ensures user.Some? && (user.value.status == Expired || user.value.status == Cancelled) ==>
      err == Some(ApiError(PermissionDenied, "Active subscription required"))
    ensures user.Some? && user.value.status == Trial && user.value.trialEnd.Some? && now > user.value.trialEnd.value ==>
      err == Some(ApiError(PermissionDenied, "Trial period has expired. Please subscribe to continue."))
  {
    if user.None? then Some(AuthenticationRequired)
    else if user.value.status == Expired || user.value.status == Cancelled then
      Some(ApiError(PermissionDenied, "Active subscription required"))
    else if user.value.status == Trial && user.value.trialEnd.Some? && now > user.value.trialEnd.value then
      Some(ApiError(PermissionDenied, "Trial period has expired. Please subscribe to continue."))
    else
      assert user.value.status == Active || user.value.status == Trial;
      None
  }

  /** The trial is still usable at the very instant it ends, and not a millisecond later. */
  lemma TrialEndBoundary(u: UserRow, end: int)
    requires u.status == Trial && u.trialEnd == Some(end)
    ensures SubscriptionCheck(Some(u), end).None?
    ensures SubscriptionCheck(Some(u), end + 1) ==
      Some(ApiError(PermissionDenied, "Trial period has expired. Please subscribe to continue."))
  {
  }

  /** subscriptionMiddleware: the handler runs, with the current user, only when SubscriptionCheck
      passes. The context is read and not changed. */
  method SubscriptionMiddleware(ctx: RequestContext, now: int, next: Handler) returns (out: Outcome)
    ensures SubscriptionCheck(ctx.currentUser, now).Some? ==> out == Failed(SubscriptionCheck(ctx.currentUser, now).value)
    ensures SubscriptionCheck(ctx.currentUser, now).None? ==> ctx.currentUser.Some? && out == next(ctx.currentUser)
  {
    var user := ctx.GetCurrentUser();
    var err := SubscriptionCheck(user, now);
    if err.Some? {
      return Failed(err.value);
    }
    out := next(user);
  }

  /** The categories createGradeMiddleware accepts. */
  datatype Category = Primary | Junior | Senior

  function CategoryName(c: Category): string {
    match c
    case Primary => "primary"
    case Junior => "junior"
    case Senior => "senior"
  }

  /** The test of a grade middleware: the user's grade category must be the required one. */
  function GradeCheck(user: Option<UserRow>, required: Category): (err: Option<Failure>)
    ensures user.None? ==> err == Some(AuthenticationRequired)
    ensures user.Some? ==> (err.None? <==> user.value.gradeCategory == CategoryName(required))
    ensures user.Some? && err.Some? ==>
      err.value == ApiError(PermissionDenied, "This content is only available for " + CategoryName(required) + " students")
  {
    if user.None? then Some(AuthenticationRequired)
    else if user.value.gradeCategory != CategoryName(required) then
      Some(ApiError(PermissionDenied, "This content is only available for " + CategoryName(required) + " students"))
    else None
  }

  /** A user passes at most one of the three grade middlewares. */
  lemma OneGradeGate(u: UserRow, a: Category, b: Category)
    requires GradeCheck(Some(u), a).None? && GradeCheck(Some(u), b).None?
    ensures a == b
  {
  }

  /** The middleware createGradeMiddleware(required) builds; primaryOnlyMiddleware,
      juniorOnlyMiddleware and seniorOnlyMiddleware are this with each category. */
  method GradeMiddleware(ctx: RequestContext, required: Category, next: Handler) returns (out: Outcome)
    ensures GradeCheck(ctx.currentUser, required).Some? ==> out == Failed(GradeCheck(ctx.currentUser, required).value)
    ensures GradeCheck(ctx.currentUser, required).None? ==>
      ctx.currentUser.Some? && ctx.currentUser.value.gradeCategory == CategoryName(required) && out == next(ctx.currentUser)
  {
    var user := ctx.GetCurrentUser();
    var err := GradeCheck(user, required);
    if err.Some? {
      return Failed(err.value);
    }
    out := next(user);
  }

  /** adminMiddleware: the handler runs only for a current user with an admin email. */
  method AdminMiddleware(ctx: RequestContext, next: Handler) returns (out: Outcome)
    ensures ctx.currentUser.None? ==> out == Failed(AuthenticationRequired)
    ensures ctx.currentUser.Some? && !ctx.HasPermission(Admin) ==>
      out == Failed(ApiError(PermissionDenied, "Administrator access required"))
    ensures ctx.HasPermission(Admin) ==> out == next(ctx.currentUser)
  {
    var user := ctx.GetCurrentUser();
    if user.None? {
      return Failed(AuthenticationRequired);
    }
    if !IsAdminEmail(user.value.email) {
      return Failed(ApiError(PermissionDenied, "Administrator access required"));
    }
    out := next(user);
  }
}
