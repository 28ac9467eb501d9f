# Tusome authentication core in Dafny

Tusome is a learning platform for the Kenyan curriculum. Learners register for a grade (4 to 12), which
places them in one of three tiers: primary, junior secondary or senior secondary. They start on a
seven-day free trial and sign in with an email address and a password. This project models the
platform's account core and proves properties of it.

The account core exists twice, once as a Go service and once as a TypeScript (Encore) service. Both
work over the same tables: users, refresh tokens, password-reset tokens, email-verification tokens and
sessions. The model covers:

- **Request validation and the grade table.** `HelpersGo`, `HelpersTs` and `EmailFormat` model
  registration and login validation, the email patterns, and the grade table shared by both services.
- **Token tables.** `Store` is the database as a class whose fields are the tables. Its methods store,
  validate, invalidate and clean up hashed tokens. `Crypto` covers hex encoding and token hashing.
- **Account flows.** `AuthGo` models Register, Login, GetProfile, UpdateProfile, RefreshToken, Logout,
  ForgotPassword and VerifyEmail. `AuthTs` models register, login, getProfile, updateProfile and
  logout. Each flow is a method over the database that checks in the source's order, then writes.
- **The hand-rolled JWT of the TypeScript service.** `HelpersTs` models createJWT, validateJWT and
  verifyJWT, with a round trip and tamper rejection.
- **Middleware.** `Middleware` covers bearer extraction, active-account and subscription gating, grade
  gating, permissions and the error remapping. The module-level current user is the field of a
  context object that every middleware clears.
- **The browser client.** `ClientApi` is the AuthAPI token storage and request settling. `ClientForms`
  is the signup and login form hooks.
- **Page logic.** `ForgotPassword` is the four-step reset wizard. `Layout` is the route classifier.
  `Blog`, `Faqs`, `SuccessStories` and `Dashboard` cover filtering, pagination, toggling, the
  carousel index and the tier tables.

Time is an integer number of milliseconds, passed in as `now`. SHA-256, the password hash (bcrypt in
Go, argon2 in TypeScript), the Go HS256 signer, base64/JSON and the random-number generator are
parameters. The model relies only on the laws the code relies on:

- hashing is a function of its input;
- a password verifies against its own hash (`Crypto.Sound`);
- decoding an encoding gives the claims back, and an encoding contains no '.' (`HelpersTs.Lawful`);
- random tokens have a fixed length.

Where the two services differ, each is modelled as written, and lemmas state the differences:

- **Days left in the trial.** Go truncates the number of days left (`int(hours / 24)`); TypeScript
  rounds it up (`Math.ceil`). With less than a day left, Go already says the trial has expired
  (`AuthTs.WelcomeMessagesDiffer`).
- **The grade fields.** Go's validator checks the `Grade` field for emptiness but looks up
  `GradeLevel` in the table; TypeScript reads `gradeLevel` both times. A request with an empty `grade`
  and a valid `gradeLevel` is therefore accepted by TypeScript and refused by Go
  (`HelpersTs.ValidatorsDiverge`).

Some behaviour the code has, which the model keeps:

- Go UpdateProfile writes the three profile fields as sent, so an omitted field is blanked.
- Go RefreshToken does not refuse an expired subscription.
- Every failed JWT verification reaches the middleware with a message containing "expired", so it is
  reported as "Token has expired" (`Middleware.VerifyFailureReadsAsExpired`).
- A plain error thrown by a handler behind authMiddleware is reported as "Authentication failed".
- The client's handleInputChange blanks an error message instead of removing it.
- The blog page does not reset the current page when the filters change; the model keeps the page as
  a parameter.

## Model

| member | source | states |
|---|---|---|
| Common.TruncDiv | server/auth/auth.go:311 | Go's integer conversion of a quotient: the result times the divisor is the largest multiple not above a non-negative dividend (the smallest not below a negative one) |
| Common.CeilDiv | server/auth/auth.ts:178 | `Math.ceil(a / d)`: the least q with a ≤ q·d, so (q−1)·d < a |
| Text.TrimStart | server/auth/helpers.go:39-60 | what leading trimming drops is white space, and what remains is a suffix not starting with white space |
| Text.TrimEnd | server/auth/helpers.go:39-60 | what trailing trimming drops is white space, and what remains is a prefix not ending with white space |
| Text.BlankIffAllSpace | server/auth/helpers.ts:162-168 | a field is blank (`!s.trim()`) exactly when all of its characters are white space |
| Text.TrimNoSpace | server/auth/auth.go:147-149 | trimming a string without white space leaves it unchanged |
| Text.ToLower | server/auth/helpers.go:129 | lower-casing keeps the length and maps each character on its own |
| Text.ToLowerIdempotent | server/auth/auth.go:149 | a lower-cased email is its own lookup key |
| Text.ToLowerKeepsNoSpace | server/auth/auth.go:149 | lower-casing does not introduce white space |
| Text.ContainsEmpty | src/app/blog/page.tsx:223-225 | every string contains the empty search term |
| Text.Split | server/auth/helpers.ts:81 | `split` yields at least one piece, and no piece holds the separator |
| Text.SplitNoSep | server/auth/helpers.ts:81 | a string without the separator splits into itself alone |
| Text.SplitAfterPiece | server/auth/helpers.ts:81 | splitting "a + sep + b" gives a followed by the pieces of b |
| Text.SplitJoin | server/auth/helpers.ts:70-99 | splitting the join of separator-free pieces gives those pieces back |
| Text.JoinSplit | server/auth/helpers.ts:70-99 | joining the pieces of a split gives the original string back |
| Text.SplitThree | server/auth/helpers.ts:77-81 | a header.payload.signature string splits into exactly its three parts |
| Text.NatToString | server/auth/auth.go:313 | `%d` formatting yields a non-empty string of digits |
| Text.ParseNatToString | server/auth/auth.go:313 | decimal formatting loses nothing: parsing it gives the number back |
| Crypto.HexDigit | server/auth/helpers.go:269 | a nibble becomes a lower-case hex digit |
| Crypto.HexValue | server/auth/helpers.go:269 | a hex digit's value is a nibble that HexDigit maps back to it |
| Crypto.HexEncode | server/auth/helpers.go:267-270 | hex encoding gives two lower-case hex digits per byte |
| Crypto.HexRoundTrip | server/auth/helpers.go:267-276 | decoding the hex encoding gives the bytes back |
| Crypto.HexEncodeInjective | server/auth/helpers.go:267-270 | different byte strings have different hex encodings |
| Crypto.HashToken | server/auth/helpers.ts:389-391 | hashToken yields 64 lower-case hex digits |
| Crypto.HashTokenEqualIff | server/auth/helpers.go:267-270 | two tokens have the same stored hash exactly when their SHA-256 digests coincide |
| Crypto.GenerateResetToken | server/auth/helpers.go:272-276 | a reset/refresh token is 64 lower-case hex digits that decode to the 32 random bytes |
| Crypto.GenerateUserID | server/auth/helpers.go:185-189 | a Go user id is 32 lower-case hex digits that decode to the 16 random bytes |
| EmailFormat.IndexOf | server/auth/helpers.go:64 | the position of the first occurrence of a character, or the length when it is absent |
| EmailFormat.LastIndexOf | server/auth/helpers.go:64 | the position of the last occurrence of a character, or −1 when it is absent |
| EmailFormat.IndexFrom | server/lib/api/auth.ts:410 | the position of the first occurrence of a character at or after a given position, or the length when there is none |
| EmailFormat.ServerEmailOkIff | server/auth/helpers.go:64-65 | the server's email predicate holds exactly when some '@' and later '.' cut the address into pieces the regular expression allows |
| EmailFormat.ClientEmailOkIff | server/lib/api/auth.ts:410 | the forms' email predicate holds exactly when some cut fits the forms' pattern |
| EmailFormat.ServerEmailNoSpace | server/auth/auth.go:149 | an address the server accepts is non-empty and has no white space, so trimming leaves it unchanged |
| EmailFormat.ServerImpliesClient | server/lib/api/auth.ts:410 | every address the server accepts passes the forms' pattern |
| EmailFormat.ClientLooserThanServer | server/auth/helpers.ts:187 | "a@b.c" passes the forms' pattern and fails the server's |
| EmailFormat.ServerEmailLower | server/auth/auth.go:149 | lower-casing an accepted address keeps it accepted |
| Store.WithoutHash | server/auth/helpers.go:261-264 | deleting by hash keeps exactly the rows with another hash |
| Store.WithoutHashIdempotent | server/auth/helpers.go:261-264 | deleting the same hash twice is deleting it once |
| Store.WithoutHashKillsToken | server/auth/helpers.go:261-264 | after the delete, no token with that hash is live, whatever the time |
| Store.UnexpiredTokens | server/auth/helpers.ts:531-554 | the cleanup keeps exactly the token rows not yet expired |
| Store.UnexpiredVerifications | server/auth/helpers.ts:531-554 | the cleanup keeps exactly the verification rows not yet expired |
| Store.UnexpiredSessions | server/auth/helpers.ts:531-554 | the cleanup keeps exactly the session rows not yet expired |
| Store.MarkAllUsed | server/auth/auth.go:527-529 | every row with the hash is kept, stamped as used at `now`; every stamped row comes from such a row; rows with other hashes are unchanged |
| Store.MarkAllUsedSingleUse | server/auth/auth.go:500-529 | once marked, no row with that hash can be redeemed again, at any time |
| Store.Database.UserByEmail | server/auth/helpers.go:136-158 | getUserByEmail finds a user exactly when one has the lower-cased email, and returns that user |
| Store.Database.StoreRefreshToken | server/auth/helpers.go:230-240 | one row holding the token's hash (never the token) is added, and it is live until it expires |
| Store.Database.ValidateRefreshToken | server/auth/helpers.go:242-259 | an owner is returned exactly when a live row has the token's hash, and it is that row's owner |
| Store.Database.InvalidateRefreshToken | server/auth/helpers.go:261-264 | every row with the token's hash is deleted |
| Store.Database.CleanupExpiredTokens | server/auth/helpers.ts:531-554 | expired rows are removed from all four tables, the rest are kept, and the answer is 0 |
| Store.InvalidateTwice | server/auth/helpers.go:261-264 | invalidating a token twice leaves the table as invalidating it once |
| HelpersGo.GradeKeyLiteral | server/auth/auth.go:80-94 | the key of grade n is the literal "grade-n" of the table |
| HelpersGo.GradeConfigBands | server/auth/auth.go:80-94 | grades 4–6 are primary, 7–9 junior and 10–12 senior, and each tier name matches its category |
| HelpersGo.ValidateRegistration | server/auth/helpers.go:37-90 | no error exactly when every rule holds; every error is a VALIDATION_ERROR; whenever a rule is the first broken one in the checking order, the error carries that rule's message; an empty `Grade` is reported once the earlier fields are present |
| HelpersGo.FirstFailedRule | server/auth/helpers.go:37-90 | nothing is reported exactly when all the length, format, match, terms and grade rules hold; a missing grade is reported once the earlier fields are present |
| HelpersGo.FirstFailureUnique | server/auth/helpers.go:37-90 | a registration has at most one first broken rule in the checking order |
| HelpersGo.FirstFailure | server/auth/helpers.go:37-90 | over the facts the checks read, nothing is reported exactly when both names are 2–50 characters, the email is present and well formed, the password has at least 8 characters and matches its confirmation, the terms are accepted and the grade is present and known |
| HelpersGo.NoFailureAllHold | server/auth/helpers.go:37-90 | when no rule is reported, every one of the twelve rules holds of the facts |
| HelpersGo.ReportedFailureIsFirst | server/auth/helpers.go:37-90 | the reported rule is broken and every rule checked before it holds of the facts |
| HelpersGo.FirstFailedRuleIsFirst | server/auth/helpers.go:37-90 | nothing is reported exactly when every rule holds, and what is reported is the first broken rule in the checking order |
| HelpersGo.ValidateLogin | server/auth/helpers.go:92-107 | no error exactly when the password is non-empty and the email has the server's format; a blank email is "Email is required", then an empty password "Password is required", then a malformed email "Invalid email format", all VALIDATION_ERROR |
| HelpersGo.TokenClaims | server/auth/helpers.go:191-220 | the claims are issued in the current second, valid from then, expire 24 hours later, and name the user as subject with issuer "tusome" |
| HelpersGo.GenerateTokens | server/auth/helpers.go:191-228 | for a stored user: the signed claims, a 64-hex-digit refresh token from the random bytes, and 86400 seconds; otherwise "user not found" |
| HelpersGo.SplitFirstPiece | server/auth/helpers.go:283-284 | the first comma-separated entry is the text before the first comma |
| HelpersGo.GetClientIP | server/auth/helpers.go:278-297 | the trimmed first X-Forwarded-For entry (holding no comma), else X-Real-IP, else the remote address; "unknown" without a request |
| HelpersGo.ProgressSubjects | server/auth/helpers.go:380-393 | primary has 5 subjects, junior 6 and senior 8; any other category has none |
| HelpersGo.CoreSubjectsFirst | server/auth/helpers.go:386-392 | every tier starts with mathematics, english and kiswahili |
| AuthGo.LoginGate | server/auth/auth.go:233-270 | unknown email and wrong password give INVALID_CREDENTIALS; then an inactive account gives ACCOUNT_INACTIVE and an active expired one SUBSCRIPTION_EXPIRED; otherwise login passes |
| AuthGo.UniformCredentialsError | server/auth/auth.go:233-254 | an unknown email and a wrong password give the same error |
| AuthGo.CancelledMayLogIn | server/auth/auth.go:256-270 | a cancelled subscription does not block an active user's login |
| AuthGo.DaysLeft | server/auth/auth.go:311 | the days left are positive exactly when at least a whole day remains, and are the whole days in the remaining time |
| AuthGo.WelcomeMessage | server/auth/auth.go:309-319 | the days-left message while a whole trial day remains, the expired wording otherwise, and the plain welcome for other statuses |
| AuthGo.HalfDayLeftIsExpired | server/auth/auth.go:311-316 | half a day before the end, Go already says the trial has expired |
| AuthGo.NewUser | server/auth/auth.go:138-157 | the new row has trimmed names, a trimmed and lower-cased email, the grade's category and tier, is active and unverified, and is on a trial ending 7 days after it starts |
| AuthGo.InsertKeepsValid | server/auth/auth.go:164-176 | inserting a user with a new id and an untaken lower-case email keeps ids, lower-case emails, unique emails and one hash per user |
| AuthGo.InsertUser | server/auth/auth.go:164-176 | the insert adds the row and its password hash, and keeps the tables valid |
| AuthGo.LookupGrade | server/auth/auth.go:120-126 | an entry is found exactly for the grades of the table |
| AuthGo.CheckRegistration | server/auth/auth.go:98-182 | errors in the source's order (validation, then USER_EXISTS); success exactly when the request is valid, the email is free, hashing succeeds and the id is new; on success the grade is in the table, the hash is the scheme's and the row is NewUser |
| AuthGo.BuildUser | server/auth/auth.go:119-182 | INVALID_GRADE for a grade outside the table, then PASSWORD_HASH_ERROR, then DATABASE_ERROR for a taken id; success exactly otherwise, with the scheme's hash and the NewUser row |
| AuthGo.Register | server/auth/auth.go:98-224 | an error changes nothing; success inserts exactly the new user, with the trimmed, lower-cased and so fresh email, and its hash, a 30-day refresh-token hash and a 24-hour verification-token hash, and keeps the tables valid |
| AuthGo.CreateAccount | server/auth/auth.go:160-222 | the writes of a successful registration: the insert, the refresh-token row and the verification-token row, and nothing else |
| AuthGo.CheckLogin | server/auth/auth.go:226-270 | validation errors first; an unknown email gives INVALID_CREDENTIALS; otherwise the gate decides for the user with that email; success means an active, unexpired user whose password verifies |
| AuthGo.ReplaceKeepsValid | server/auth/auth.go:292-293 | rewriting a user's row with the same id and email keeps the tables valid |
| AuthGo.CompleteLogin | server/auth/auth.go:272-328 | a 30-day refresh-token hash is stored, last_login_at and updated_at are set, and the message is the welcome message |
| AuthGo.Login | server/auth/auth.go:226-330 | an error changes nothing; INVALID_CREDENTIALS for an unknown email; the gate's error or success for the matching user; success stores exactly one refresh-token hash and stamps the login |
| AuthGo.GetProfile | server/auth/auth.go:332-346 | the stored row of the user, or USER_NOT_FOUND exactly when there is none |
| AuthGo.UpdateProfile | server/auth/auth.go:348-372 | only first name, last name, profile image and updated_at change, each to the value sent (so omitted fields are blanked) |
| AuthGo.RefreshToken | server/auth/auth.go:374-438 | MISSING_TOKEN, then INVALID_TOKEN without a live row; USER_NOT_FOUND only when a live row's owner is gone; with a live row, success when its owners are active, USER_NOT_FOUND when they are gone and ACCOUNT_INACTIVE when they are inactive; an error changes nothing; success stores the new hash and deletes the old one |
| AuthGo.RotationOutcome | server/auth/auth.go:418-427 | after rotation the old token is never live, and the new one is kept unless the two digests coincide |
| AuthGo.Logout | server/auth/auth.go:440-454 | always succeeds; the refresh token's rows are deleted exactly when one is given |
| AuthGo.ForgotPassword | server/auth/auth.go:456-490 | MISSING_EMAIL only for an empty email; a one-hour reset-token hash is stored only for a known address; the answer does not reveal which |
| AuthGo.VerifyEmail | server/auth/auth.go:492-534 | success exactly when an unexpired, unused row has the token's hash; then the owner is marked verified and every row with that hash is marked used; errors change nothing |
| AuthGo.VerifyEmailTwice | server/auth/auth.go:500-529 | a verification token redeemed once is refused with INVALID_TOKEN the second time |
| HelpersTs.Signature | server/auth/helpers.ts:76 | the signature is the first 32 lower-case hex digits of the hash, with no '.' |
| HelpersTs.Stamp | server/auth/helpers.ts:71-75 | createJWT sets iat to the current second and exp 24 hours later, and changes nothing else |
| HelpersTs.CreateJWT | server/auth/helpers.ts:70-78 | for a lawful codec the token splits into exactly header, encoded payload and signature |
| HelpersTs.ValidateJWT | server/auth/helpers.ts:80-99 | acceptance exactly when there are three parts, the signature matches, the payload decodes and has not expired; a wrong part count is "Invalid token format" |
| HelpersTs.JwtRoundTrip | server/auth/helpers.ts:70-99 | a token createJWT made is accepted until its expiry second and yields the stamped payload |
| HelpersTs.JwtExpires | server/auth/helpers.ts:94-96 | after its expiry second the same token is refused as expired |
| HelpersTs.JwtAcceptedIsSigned | server/auth/helpers.ts:80-99 | an accepted token is h.p.signature(h, p) and its claims decode from p, so tampering needs the secret |
| HelpersTs.VerifyJWT | server/auth/helpers.ts:522-529 | success exactly when validateJWT succeeds, with its claims; every failure is "Invalid or expired token" |
| HelpersTs.TsGradeConfigAgrees | server/auth/helpers.ts:102-158 | both grade tables give grade n the same category and tier, and as many subjects as getSubjectsForGrade |
| HelpersTs.EmptyGradeUnknown | server/auth/helpers.ts:102-158 | the empty string is not a grade key |
| HelpersTs.KnownGradesAgree | server/auth/helpers.ts:102-158 | the Go and TypeScript tables have the same keys |
| HelpersTs.ValidateRegistration | server/auth/helpers.ts:160-211 | no error exactly when every rule holds; whenever a rule is the first broken one in the Go checking order (reading gradeLevel for both grade rules), the error is that rule's message; an empty gradeLevel is reported once the earlier fields are present |
| HelpersTs.ValidatorsAgree | server/auth/helpers.ts:160-211 | with grade equal to gradeLevel, both validators give the same decision and message |
| HelpersTs.GoAcceptsImpliesTsAccepts | server/auth/helpers.ts:160-211 | every registration Go accepts, TypeScript accepts |
| HelpersTs.SampleEmailOk | server/auth/helpers.ts:187 | "a@b.co" has the server's email format |
| HelpersTs.SampleNamesTrimmed | server/auth/helpers.ts:179-182 | names without white space are their own trimmed form |
| HelpersTs.ValidatorsDiverge | server/auth/helpers.go:51-53 | an empty grade with a valid gradeLevel is refused by Go and accepted by TypeScript |
| HelpersTs.ValidateLogin | server/auth/helpers.ts:213-226 | no error exactly when the password is non-empty and the email has the server's format; "Email is required", "Password is required" and "Invalid email format", each under the condition that selects it |
| HelpersTs.LoginValidatorsAgree | server/auth/helpers.ts:213-226 | the Go and TypeScript login validators agree message for message |
| HelpersTs.VerifyPassword | server/auth/helpers.ts:233-245 | false when the user has no hash, otherwise the scheme's verdict |
| HelpersTs.OwnPasswordVerifies | server/auth/helpers.ts:233-245 | with a sound scheme, a password verifies against its own stored hash |
| HelpersTs.CheckUserExists | server/auth/helpers.ts:248-257 | true exactly when some user has the lower-cased email |
| HelpersTs.RegisteredEmailIsTaken | server/auth/helpers.ts:248-257 | after register stores an address, the existence check reports it taken in any letter case |
| HelpersTs.TokenPayload | server/auth/helpers.ts:314-322 | the payload names the user as subject with issuer "tusome", and has no iat or exp before createJWT |
| HelpersTs.GenerateTokens | server/auth/helpers.ts:306-341 | for a stored user: a JWT of its payload, a 64-hex-digit refresh token and 86400 seconds; otherwise "Failed to generate tokens" |
| HelpersTs.GeneratedTokenVerifies | server/auth/helpers.ts:306-341 | an issued token verifies until it expires, to claims naming the user with exp 86400 s after iat |
| AuthTs.CheckRegistration | server/auth/auth.ts:33-92 | errors in the source's order; success exactly when the request is valid, the email is free, hashing succeeds and the uuid is new; on success the hash is the scheme's and the row is NewUser |
| AuthTs.BuildUser | server/auth/auth.ts:45-92 | "Invalid grade level selected" for a grade outside the table, then the escaped argon2 failure, then the escaped database failure for a taken uuid; success exactly otherwise, with the scheme's hash and the NewUser row |
| AuthTs.CreateAccount | server/auth/auth.ts:82-112 | the writes of a successful register: the insert, a 30-day refresh-token hash and a 24-hour verification-token hash, and nothing else |
| AuthTs.Register | server/auth/auth.ts:33-122 | an error changes nothing; success creates an active, unverified 7-day-trial user with the trimmed, lower-cased email and stores exactly its hashes |
| AuthTs.LoginGate | server/auth/auth.ts:131-155 | unknown email and wrong password give the same message; then an inactive account gives the deactivated message and an active expired one the expired message; otherwise login passes |
| AuthTs.LoginGatesAgree | server/auth/auth.ts:131-155 | the TypeScript gate decides as Go's does, and its message is the Go error's message |
| AuthTs.DaysLeft | server/auth/auth.ts:178 | the days left are positive exactly when any time remains, rounded up to whole days |
| AuthTs.WelcomeMessage | server/auth/auth.ts:176-184 | the days-left message while any of the trial remains, the expired wording after it ends, the plain welcome otherwise |
| AuthTs.DaysLeftRoundsUp | server/auth/auth.ts:178 | a day and a half gives 2 days |
| AuthTs.WelcomeMessagesDiffer | server/auth/auth.ts:176-184 | with less than a day left, Go says expired and TypeScript says 1 day left |
| AuthTs.WelcomeMessagesAgree | server/auth/auth.ts:176-184 | when no time or a whole number of days remains, the two services give the same message |
| AuthTs.CheckLogin | server/auth/auth.ts:124-155 | validation first; an unknown email gives "Invalid email or password"; otherwise the gate decides for the user with that email |
| AuthTs.CompleteLogin | server/auth/auth.ts:158-194 | a 30-day refresh-token hash is stored, last_login_at and updated_at are set, and the message is the welcome message |
| AuthTs.Login | server/auth/auth.ts:124-195 | an error changes nothing; success is for the matching active, unexpired user and stores exactly one refresh-token hash |
| AuthTs.ExtractBearer | server/auth/auth.ts:203-211 | a token exactly for a "Bearer " header, and the header is "Bearer " followed by it |
| AuthTs.BearerRoundTrip | server/auth/auth.ts:203-207 | the header built from a token gives that token back |
| AuthTs.Authenticate | server/auth/auth.ts:203-219 | the missing-header and empty-token errors; verifyJWT's error passed through unchanged; "Invalid token: missing user ID" for claims without an id; success exactly when verifyJWT accepts a non-empty token whose claims name a user id |
| AuthTs.IssuedTokenAuthenticates | server/auth/auth.ts:203-219 | a token generateTokens issued authenticates its user until it expires |
| AuthTs.GetProfile | server/auth/auth.ts:197-236 | the row of the authenticated user exactly when it exists and is active; "User not found" and "Account has been deactivated" otherwise; the prologue's error passed through |
| AuthTs.ApplyUpdate | server/auth/auth.ts:275-282 | only name, last name, image and updated_at change; a non-empty sent field replaces the stored one and an omitted or empty field keeps it |
| AuthTs.ApplyUpdateIdempotent | server/auth/auth.ts:275-282 | sending the same update twice equals sending it once |
| AuthTs.EmptyUpdateTouchesOnlyTimestamp | server/auth/auth.ts:275-282 | an update with no usable field changes only updated_at |
| AuthTs.UpdateProfile | server/auth/auth.ts:238-300 | success exactly for an authenticated, stored user (inactive included), and the row becomes ApplyUpdate of itself; "User not found" for an unknown id; errors change nothing |
| AuthTs.Logout | server/auth/auth.ts:302-338 | an authentication error changes nothing; otherwise the refresh token's rows are deleted when one is sent, and the answer is "Logged out successfully" |
| Middleware.MapError | server/auth/middleware.ts:87-108 | an APIError passes unchanged; other errors become Unauthenticated, "expired" checked before "invalid", with "Authentication failed" otherwise |
| Middleware.MapErrorIdempotent | server/auth/middleware.ts:92-108 | remapping a mapped error changes nothing |
| Middleware.VerifyFailureReadsAsExpired | server/auth/middleware.ts:98-100 | verifyJWT's failure message maps to "Token has expired" |
| Middleware.Admit | server/auth/middleware.ts:31-64 | the missing-header error; verifyJWT's message passed through; "Invalid token: missing user ID"; admission exactly for an authenticated, stored, active, unexpired user; "User not found" for an unknown user and "Account has been deactivated" for an inactive one; PermissionDenied only for an expired subscription |
| Middleware.AdmitDecisions | server/auth/middleware.ts:55-64 | an inactive account is unauthenticated, an expired subscription is PermissionDenied, and a cancelled one passes |
| Middleware.UnverifiableTokenReadsAsExpired | server/auth/middleware.ts:43-44 | any token verifyJWT refuses ends as "Token has expired" |
| Middleware.RequestContext.constructor | server/auth/middleware.ts:9-10 | the context starts with no user |
| Middleware.RequestContext.GetCurrentUser | server/auth/middleware.ts:206-211 | getCurrentUser reads the context's user |
| Middleware.RequestContext.RequireAuth | server/auth/middleware.ts:220-226 | the current user, or "Authentication required" exactly when there is none |
| Middleware.RequestContext.HasPermission | server/auth/middleware.ts:231-246 | no user means no permission; admin for staff emails; teacher for "teacher" emails and admins; student for everyone |
| Middleware.PermissionsNest | server/auth/middleware.ts:231-246 | an admin is a teacher and a teacher is a student |
| Middleware.StaffAreAdmins | server/auth/middleware.ts:237 | a staff address such as mwalimu@tusome.ke holds the admin permission |
| Middleware.AuthMiddleware | server/auth/middleware.ts:15-114 | the handler runs only on admission and with the admitted user; every failure, the handler's own included, goes through MapError; the context ends cleared |
| Middleware.MissingCharNotContained | server/auth/middleware.ts:99-102 | a message lacking one of a word's characters does not contain the word |
| Middleware.HandlerErrorsAreRemapped | server/auth/middleware.ts:87-108 | a handler's plain "Not found" error reaches the caller as "Authentication failed" |
| Middleware.OptionalUser | server/auth/middleware.ts:132-149 | a user exactly when the token authenticates an active stored user |
| Middleware.OptionalAdmitsMore | server/auth/middleware.ts:116-170 | whoever authMiddleware admits, optionalAuthMiddleware identifies as the same user |
| Middleware.OptionalAuthMiddleware | server/auth/middleware.ts:116-170 | never fails on the token; the handler sees the recognised user or the context as it was; the context ends cleared |
| Middleware.AnonymousAfterAuthenticated | server/auth/middleware.ts:81-90 | after an authenticated request, an anonymous one reaches its handler with no user |
| Middleware.SubscriptionCheck | server/auth/middleware.ts:172-204 | no user is unauthenticated; the check passes exactly for an active subscription or a trial not past its end; "Active subscription required" for expired or cancelled, the trial-expired message past the trial end |
| Middleware.TrialEndBoundary | server/auth/middleware.ts:189-193 | a trial passes at its end instant and is refused one millisecond later |
| Middleware.SubscriptionMiddleware | server/auth/middleware.ts:172-204 | the handler runs with the current user exactly when the subscription check passes |
| Middleware.GradeCheck | server/auth/middleware.ts:252-277 | no user is unauthenticated; a user passes exactly when their category is the required one |
| Middleware.OneGradeGate | server/auth/middleware.ts:280-282 | a user passes at most one of the three grade middlewares |
| Middleware.GradeMiddleware | server/auth/middleware.ts:252-282 | the handler runs exactly for a current user of the required category |
| Middleware.AdminMiddleware | server/auth/middleware.ts:287-309 | the handler runs exactly for a current user with an admin email |
| ClientApi.Settle | server/lib/api/auth.ts:116-140 | an ok answer gives its data; an error status gives the body's code, message and field with their defaults; no answer gives NETWORK_ERROR |
| ClientApi.Stored | server/lib/api/auth.ts:223-229 | the stored value of a key, or nothing |
| ClientApi.AuthApi.constructor | server/lib/api/auth.ts:223-244 | the client starts over the storage it is given |
| ClientApi.AuthApi.IsAuthenticated | server/lib/api/auth.ts:242-244 | signed in exactly when a non-empty access token is stored |
| ClientApi.AuthApi.RequestHeaders | server/lib/api/auth.ts:105-114 | JSON content type, the caller's headers, and a Bearer header with the stored token exactly when signed in |
| ClientApi.AuthApi.SetTokens | server/lib/api/auth.ts:231-234 | both tokens are stored and nothing else changes |
| ClientApi.AuthApi.ClearTokens | server/lib/api/auth.ts:236-240 | the two tokens and the cached user are removed, and nothing else |
| ClientApi.AuthApi.Authorize | server/lib/api/auth.ts:144-162 | a settled success stores its tokens; a failure leaves storage as it was |
| ClientApi.AuthApi.Register | server/lib/api/auth.ts:144-152 | register settles the reply and stores the tokens of a success |
| ClientApi.AuthApi.Login | server/lib/api/auth.ts:154-162 | login settles the reply and stores the tokens of a success |
| ClientApi.AuthApi.RefreshToken | server/lib/api/auth.ts:176-192 | without a stored refresh token, NO_REFRESH_TOKEN and no change; otherwise like login |
| ClientApi.AuthApi.Logout | server/lib/api/auth.ts:194-207 | whatever the server answers, the tokens and the cached user are removed |
| ClientApi.HeaderCarriesToken | server/lib/api/auth.ts:108-111 | the Authorization header the client builds gives the stored token back through the server's Bearer extraction |
| ClientApi.SignInThenOut | server/lib/api/auth.ts:154-207 | signing in then out leaves storage as before, apart from the three keys |
| ClientForms.ClearError | server/lib/api/auth.ts:385-397 | a field's error is blanked, not removed; the other entries and the keys are unchanged |
| ClientForms.ClearErrorIdempotent | server/lib/api/auth.ts:392-396 | editing a field twice blanks its error once |
| ClientForms.EmailError | server/lib/api/auth.ts:408-412 | no error exactly for a non-blank address matching the forms' pattern; a blank one is "Email is required" and a malformed one "Please enter a valid email address" |
| ClientForms.PasswordError | server/lib/api/auth.ts:418-422 | no error exactly for at least 8 characters; an empty one is "Password is required" and a short one "Password must be at least 8 characters long" |
| ClientForms.SignupErrorsWith | server/lib/api/auth.ts:399-430 | an entry per failing rule, keyed by its field and carrying that rule's message, and no other key |
| ClientForms.ErrorsOver | server/lib/api/auth.ts:399-430 | checking fields one after another gives an entry for exactly the checked fields whose rule fails, with that rule's message, and no other key |
| ClientForms.SignupOrderComplete | server/lib/api/auth.ts:399-430 | the sign-up validation checks every field of the form |
| ClientForms.SignupEmailEntry | server/lib/api/auth.ts:408-412 | the email entry is present exactly for a blank or malformed address and carries the email rule's message |
| ClientForms.SignupErrorsWithEmptyIff | server/lib/api/auth.ts:399-430 | the error map is empty exactly when every rule holds |
| ClientForms.SignupErrorsEmptyIff | server/lib/api/auth.ts:427-429 | validateForm's map is empty exactly when the form is acceptable |
| ClientForms.FindGrade | server/lib/api/auth.ts:452-456 | `find` returns an option with that value exactly when one exists, and it is the first such option |
| ClientForms.GradeOptionAgrees | server/lib/api/auth.ts:440-450 | each grade option is a server grade with the same category and tier |
| ClientForms.ServerGradeOffered | server/lib/api/auth.ts:440-450 | each server grade is offered by the form |
| ClientForms.GradeOptionsMatchServer | server/lib/api/auth.ts:440-456 | the form finds a grade exactly when the server knows it, with the same category and tier |
| ClientForms.SignupRequest | server/lib/api/auth.ts:458-469 | names trimmed, the email trimmed and lower-cased, and the option's value, tier and category |
| ClientForms.SignupLooserThanServer | server/lib/api/auth.ts:402-404 | a one-letter first name passes the form and is refused by the server |
| ClientForms.SignupForm.constructor | server/lib/api/auth.ts:372-383 | the form starts empty with no errors |
| ClientForms.SignupForm.HandleInputChange | server/lib/api/auth.ts:385-397 | the named field takes the value and its error is blanked |
| ClientForms.SignupForm.ValidateForm | server/lib/api/auth.ts:399-430 | the error map becomes SignupErrors of the data and the answer is whether it is empty |
| ClientForms.SignupForm.HandleSubmit | server/lib/api/auth.ts:432-479 | a request is sent exactly for an acceptable form with a server grade, and it is SignupRequest; otherwise the errors say why |
| ClientForms.SignupForm.ShowServerError | server/lib/api/auth.ts:471-478 | an error tied to a field becomes the only one shown; others leave the map alone |
| ClientForms.LoginErrorsWith | server/lib/api/auth.ts:516-530 | an entry exactly for a failing email rule or an empty password, carrying the email rule's message and "Password is required"; empty exactly when both hold |
| ClientForms.LoginErrors | server/lib/api/auth.ts:516-530 | the login map is empty exactly when the login form is acceptable; a blank email gives "Email is required", any email entry is the email rule's message, and the password entry is "Password is required", present exactly for an empty password |
| ClientForms.LoginRequestOf | server/lib/api/auth.ts:540-543 | the email is trimmed and lower-cased and the password is sent as typed |
| ClientForms.LoginForm.constructor | server/lib/api/auth.ts:492-500 | the form starts empty with no errors |
| ClientForms.LoginForm.HandleInputChange | server/lib/api/auth.ts:502-514 | the named field takes the value and its error is blanked |
| ClientForms.LoginForm.HandleSubmit | server/lib/api/auth.ts:532-553 | the map becomes LoginErrors, and a request is sent exactly for an acceptable form |
| ClientForms.LoginForm.ShowServerError | server/lib/api/auth.ts:545-552 | an error tied to a field becomes the only one shown |
| ClientForms.RetypeAfterFailedSubmit | server/lib/api/auth.ts:385-430 | after a failed submit, retyping a field blanks only its message |
| Listing.SubsequenceOfItself | src/app/success-stories/page.tsx:127-129 | every list is a subsequence of itself |
| Listing.Filter | src/app/blog/page.tsx:222-228 | `filter` keeps exactly the elements passing the test, in order, each as often as it occurs |
| Listing.FilterKeepsAll | src/app/blog/page.tsx:222-228 | a filter every element passes returns the list unchanged |
| Listing.FilterIdempotent | src/app/faqs/page.tsx:151-157 | filtering twice is filtering once |
| Listing.SliceIndex | src/app/blog/page.tsx:233 | slice positions are clamped to the list |
| Listing.JsSlice | src/app/blog/page.tsx:233 | `slice` returns the range when it is inside the list and nothing from past the end |
| Listing.FindIndex | src/app/success-stories/page.tsx:401 | `findIndex` returns the first matching position, or −1 exactly when none matches |
| Listing.EmptySearchMatches | src/app/faqs/page.tsx:152-154 | an empty search matches every entry |
| Layout.LayoutFor | src/components/ConditionalLayout.tsx:15-51 | bare exactly for one of the four auth routes or a path starting with "/dashboard" |
| Layout.DashboardSubtreeIsBare | src/components/ConditionalLayout.tsx:31 | every path under /dashboard is bare |
| Layout.LayoutExamples | src/components/ConditionalLayout.tsx:28-51 | /auth/signin and /dashboard/junior are bare; / gets the navbar and footer |
| Layout.AuthMatchIsExact | src/components/ConditionalLayout.tsx:15-28 | /auth/signin/ and /auth/verify-email get the navbar and footer |
| Layout.DashboardPrefixIsTextual | src/components/ConditionalLayout.tsx:31 | /dashboardx is bare |
| Blog.FilteredBlogs | src/app/blog/page.tsx:222-228 | the posts matching the search (ignoring case) and the category, in order |
| Blog.ClearedFiltersListEverything | src/app/blog/page.tsx:222-228 | an empty search with "all" lists every post |
| Blog.TotalPages | src/app/blog/page.tsx:231 | the fewest pages of six that hold the posts |
| Blog.PaginatedBlogs | src/app/blog/page.tsx:232-233 | at most six posts, the page's six when they exist, and none past the last page |
| Blog.EveryPostHasAPage | src/app/blog/page.tsx:231-233 | post i is entry i mod 6 of page i / 6 + 1, which the pager offers |
| Blog.PreviousPage | src/app/blog/page.tsx:481 | one page back, never below 1 |
| Blog.NextPage | src/app/blog/page.tsx:510 | one page on, never past the last page |
| Blog.PagerStaysInRange | src/app/blog/page.tsx:481-511 | from an offered page both buttons stay in range, and each undoes the other away from the ends |
| Blog.FeaturedBlogs | src/app/blog/page.tsx:234 | exactly the featured posts in order, whatever the filters |
| Blog.FeaturedStrip | src/app/blog/page.tsx:303-312 | at most two featured posts, shown only when the filters are cleared |
| Faqs.FilteredFaqs | src/app/faqs/page.tsx:151-157 | the questions matching the search (ignoring case) and the category, in order |
| Faqs.ClearedFiltersListEverything | src/app/faqs/page.tsx:151-157 | an empty search with "all" lists every question |
| Faqs.FoundSuffix | src/app/faqs/page.tsx:277 | the plural ending is dropped exactly for one question |
| Faqs.Toggle | src/app/faqs/page.tsx:159-165 | an open question is removed, a closed one appended, and other ids are unchanged |
| Faqs.ToggleKeepsNoDuplicates | src/app/faqs/page.tsx:159-165 | toggling never puts an id in the list twice |
| Faqs.FilterKeepsNoDuplicates | src/app/faqs/page.tsx:162 | removing an id from a list without duplicates leaves none |
| Faqs.ToggleTwiceRestores | src/app/faqs/page.tsx:159-165 | toggling twice restores which questions are open |
| Faqs.OpenThenCloseIsIdentity | src/app/faqs/page.tsx:159-165 | opening then closing a question gives back the very same list |
| Faqs.FilterDropsOnlyLast | src/app/faqs/page.tsx:162-163 | removing an appended new id gives back the list before it |
| Faqs.PopularFaqs | src/app/faqs/page.tsx:167 | exactly the questions with ids 1, 3, 5, 7, 9 and 13, in order |
| SuccessStories.FilteredStories | src/app/success-stories/page.tsx:127-129 | every story for "all", otherwise exactly that category's stories, in order |
| SuccessStories.NextStory | src/app/success-stories/page.tsx:133-135 | one on, wrapping from the last to the first, inside the list; nothing for an empty list |
| SuccessStories.PrevStory | src/app/success-stories/page.tsx:137-139 | one back, wrapping from the first to the last, inside the list; nothing for an empty list |
| SuccessStories.PrevUndoesNext | src/app/success-stories/page.tsx:133-139 | previous undoes next and next undoes previous |
| SuccessStories.Forward | src/app/success-stories/page.tsx:133-135 | repeated next stays inside the list |
| SuccessStories.ForwardIsModular | src/app/success-stories/page.tsx:133-135 | k presses of next add k modulo the list length |
| SuccessStories.WrapAround | src/app/success-stories/page.tsx:134 | adding a whole turn does not change a position modulo n |
| SuccessStories.FullTurnReturns | src/app/success-stories/page.tsx:133-135 | n presses of next come back to the same story |
| SuccessStories.ChooseCategory | src/app/success-stories/page.tsx:182-185 | choosing a category starts at its first story |
| SuccessStories.Featured | src/app/success-stories/page.tsx:131 | the featured story is the one at the index, when there is one |
| SuccessStories.Grid | src/app/success-stories/page.tsx:350 | the grid is the filtered stories without the one at the index |
| SuccessStories.ReadFullStory | src/app/success-stories/page.tsx:401 | the index of the story with that id, or −1 exactly when none has it |
| SuccessStories.ReadFromGridFeaturesIt | src/app/success-stories/page.tsx:350-401 | with unique ids, reading a grid story features exactly that story |
| Dashboard.ContentAccess | src/app/dashboard/components/DashboardMainContent.tsx:62-81 | each tier has three grades, no more subjects than its allowance, and the three core subjects |
| Dashboard.AccessibleSubjects | src/app/dashboard/components/DashboardMainContent.tsx:84-90 | exactly the progress records whose subject the tier includes, in order |
| Dashboard.TierSubjectsDiffer | src/app/dashboard/components/DashboardMainContent.tsx:69-80 | junior never shows Pure Sciences; senior shows it but never Creative Arts |
| Dashboard.TierColorsDistinct | src/app/dashboard/components/DashboardMainContent.tsx:62-81 | primary is blue, junior green and senior red |
| Dashboard.ColorName | src/app/dashboard/components/DashboardMainContent.tsx:92-99 | the colour name is blue, green or red |
| Dashboard.TierColorClass | src/app/dashboard/components/DashboardMainContent.tsx:92-99 | the class is "bg-", "text-" or "border-" by kind, then the tier's colour, a dash and the shade |
| Dashboard.DefaultTierColorClass | src/app/dashboard/components/DashboardMainContent.tsx:92-99 | with the default kind and shade the class is "bg-<colour>-600" |
| Dashboard.TierColorClassInjective | src/app/dashboard/components/DashboardMainContent.tsx:92-99 | different tier colours give different classes for the same kind and shade |
| Dashboard.DifficultyColor | src/app/dashboard/components/DashboardMainContent.tsx:101-108 | Advanced is red, Intermediate yellow, Beginner green, and anything else gray |
| ForgotPassword.ResetObjection | src/app/auth/forgot-password/page.tsx:90-101 | no objection exactly when the passwords match and have at least 8 characters; a mismatch is reported first, then a matching password under 8 characters is too short |
| ForgotPassword.ButtonsMatchHandlers | src/app/auth/forgot-password/page.tsx:203-280 | an enabled button's handler never objects |
| ForgotPassword.BackStep | src/app/auth/forgot-password/page.tsx:360-367 | Back exists only on the code and reset steps, and leads to the step before |
| ForgotPassword.TickTimer | src/app/auth/forgot-password/page.tsx:37-45 | the countdown drops by one while positive and never goes negative |
| ForgotPassword.TimerRunsDown | src/app/auth/forgot-password/page.tsx:37-45 | after k seconds the countdown shows max(timer − k, 0) |
| ForgotPassword.ForgotPasswordPage.constructor | src/app/auth/forgot-password/page.tsx:26-34 | the page starts on the email step, with no countdown and an empty form |
| ForgotPassword.ForgotPasswordPage.HandleInputChange | src/app/auth/forgot-password/page.tsx:47-52 | the named field takes the value |
| ForgotPassword.ForgotPasswordPage.HandleSendOtp | src/app/auth/forgot-password/page.tsx:55-68 | the page moves to the code step and the countdown starts at 60 |
| ForgotPassword.ForgotPasswordPage.HandleVerifyOtp | src/app/auth/forgot-password/page.tsx:71-87 | a six-character code leads to the reset step; any other raises the alert and the step stays |
| ForgotPassword.ForgotPasswordPage.HandleResetPassword | src/app/auth/forgot-password/page.tsx:90-113 | an objection is alerted and nothing changes; otherwise the page moves to success |
| ForgotPassword.ForgotPasswordPage.HandleResendOtp | src/app/auth/forgot-password/page.tsx:116-125 | the countdown restarts at 60 and the step is unchanged |
| ForgotPassword.ForgotPasswordPage.GoBack | src/app/auth/forgot-password/page.tsx:360-367 | the step becomes the one before where Back exists, and is unchanged elsewhere |
| ForgotPassword.ForgotPasswordPage.Tick | src/app/auth/forgot-password/page.tsx:37-45 | one tick of the countdown, which stays within 0 to 60 |
| ForgotPassword.ResetWalkthrough | src/app/auth/forgot-password/page.tsx:55-113 | a six-character code and a matching password of 8 or more reach success with no alert |

## Left out

- Database I/O is modelled by in-memory tables owned by `Store.Database`. Driver and SQL failures are not modelled. These include the error branches after each INSERT or UPDATE and the "Failed to retrieve updated user" branch. The one exception is an INSERT whose primary key is taken, which is modelled as the storage error.
- SHA-256, bcrypt, argon2, the Go HS256 signer, base64, JSON and the random-number generator are parameters with the laws the code relies on. Salting and the hashes' internals are not modelled.
- Calendar arithmetic (`AddDate`, `setDate`) is taken as whole days of 24 hours, so daylight-saving shifts are not modelled.
- Background goroutines and promises that are not awaited run in place, in program order, so their races are not modelled. This covers the welcome email, which stores the verification token, and the invalidation after a refresh.
- initializeUserProgress writes a progress table that is not modelled. Only its subject lists (`HelpersGo.ProgressSubjects`) are.
- logActivity, email bodies and console output are not modelled. They change nothing the flows read.
- The Encore and React frameworks are not modelled. A middleware is modelled as the decision it makes, and a page as its state and handlers.
- getUserByID is not modelled separately; it is the same lookup as `Store.Database.UserByEmail`, by id.
- The AuthProvider context, initializeAuth, useAuth, useForgotPassword and useEmailVerification in server/lib/api/auth.ts are not part of this model. They are React glue around the modelled AuthAPI calls.
- The AuthAPI methods getProfile, updateProfile, forgotPassword and verifyEmail are not modelled separately. Each one is a request whose reply is settled by `ClientApi.Settle` and changes no storage.
- The network is not modelled. What the server answers is a `Reply` parameter.
- handleInputChange of the forms takes a text or a checkbox value. A value of the other kind leaves the data unchanged, while the JavaScript code would store it.
- The pages' setTimeout and setInterval delays complete at once. isLoading is set and cleared within the same step, so its intermediate true state is not observable.
- An alert() is returned as a message.
- Static page content (posts, questions, stories, progress records) is a parameter. Rendering is not modelled.
- String lengths count characters, not UTF-16 code units, and only ASCII letters are lower-cased.
- Text.TrimStart: only ASCII white space is dropped. Go's TrimSpace also drops U+0085, U+00A0, U+1680, U+2000 to U+200A, U+2028, U+2029, U+202F, U+205F and U+3000, and JavaScript's trim drops the same characters except U+0085, plus U+FEFF. A name made only of such characters is not blank in the model.
- Text.TrimEnd: only ASCII white space is dropped, as for TrimStart.
- HelpersGo.ValidateRegistration: Go's `len` counts UTF-8 bytes, while the model counts characters. A name of non-ASCII letters that Go finds too long (26 letters of two bytes each, for example) passes the model's length rule. The password rule differs the other way: four two-byte characters make eight bytes, enough for Go, while the model counts four. `HelpersTs.ValidatorsAgree` therefore holds only for ASCII input.
- HelpersGo.RegistrationAcceptable: the same length and white-space simplifications as HelpersGo.ValidateRegistration.
- HelpersTs.TsKnownGrade: JavaScript's `gradeConfig[req.gradeLevel]` also finds keys inherited from Object.prototype, such as "toString" and "constructor". The model knows only the table's own keys, so those grade levels are refused rather than let through.
- AuthTs.CheckRegistration: for the same reason, an inherited key such as "toString" is not modelled as a grade whose category and tier are undefined.
- SuccessStories.NextStory: with no stories, JavaScript's index becomes NaN; the model answers None.
- SuccessStories.PrevStory: likewise, with no stories JavaScript's index becomes NaN; the model answers None.
- Middleware.RequestContext: middleware.ts keeps `currentUser` and `currentUserID` in module-level variables shared by every request, and awaits the handler between setting and clearing them, so two interleaved requests can see each other's user or null. The model gives each call its own context and assumes one request at a time.
- EmailFormat.ClientEmailOkIff: the forms' pattern uses JavaScript's `\s`, which also matches non-ASCII white space such as U+00A0, U+FEFF, U+2028 and U+2029. The model treats only ASCII white space as `\s`, so an address such as "a\u00A0b@c.de" is accepted by the model and refused by the page.
- ClientForms.SignupForm.ValidateForm: its contract ties the answer to the emptiness of `SignupErrors(data)`. The equivalence with `SignupAcceptable` is stated separately by `ClientForms.SignupErrorsEmptyIff`.
- Store.Database.UserByEmail: when several rows share an email, which one the database returns is not modelled. The valid-table invariant keeps emails unique.
