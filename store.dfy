/** The auth database shared by the Go and the TypeScript services: the users table (keyed by id,
    with the password hashes kept beside it), and the refresh-token, password-reset-token,
    email-verification-token and session tables. The helpers that read or write the token tables
    (storeRefreshToken, validateRefreshToken, invalidateRefreshToken, cleanupExpiredTokens) are
    methods of the Database class. Times are integer milliseconds. */
module Store {
  import opened Common
  import opened Text
  import opened Crypto

  datatype Status = Trial | Active | Expired | Cancelled

  /** One row of the users table, as both User types read it. */
  datatype UserRow = UserRow(
    id: string,
    firstName: string,
    lastName: string,
    email: string,
    grade: string,
    gradeCategory: string,
    gradeTier: string,
    profileImage: Option<string>,
    isActive: bool,
    emailVerified: bool,
    trialStart: Option<int>,
    trialEnd: Option<int>,
    status: Status,
    createdAt: int,
    updatedAt: int,
    lastLoginAt: Option<int>)

  /** A row of refresh_tokens or password_reset_tokens. Only the hash of a token is ever stored. */
  datatype TokenRow = TokenRow(userId: string, tokenHash: string, expiresAt: int)

  /** A row of email_verification_tokens. */
  datatype VerificationRow = VerificationRow(userId: string, tokenHash: string, expiresAt: int, usedAt: Option<int>)

  /** A row of user_sessions; only its expiry matters here. */
  datatype SessionRow = SessionRow(userId: string, expiresAt: int)

  /** Some user has exactly this stored email. */
  predicate EmailTaken(users: map<string, UserRow>, email: string) {
    exists id | id in users :: users[id].email == email
  }

  /** The user with exactly this stored email, when there is one: the `WHERE email = $1` lookup. */
  ghost predicate IsUserWithEmail(users: map<string, UserRow>, email: string, u: UserRow) {
    u.id in users && users[u.id] == u && u.email == email
  }

  ghost predicate EmailsUnique(users: map<string, UserRow>) {
    forall a, b | a in users && b in users && users[a].email == users[b].email :: a == b
  }

  /** A live refresh token: `token_hash = $1 AND expires_at > $2`. */
  predicate LiveRefresh(rows: set<TokenRow>, hash: string, now: int) {
    exists r | r in rows :: r.tokenHash == hash && r.expiresAt > now
  }

  /** The rows that `DELETE ... WHERE token_hash = $1` leaves. */
  function WithoutHash(rows: set<TokenRow>, hash: string): (kept: set<TokenRow>)
    ensures kept <= rows
    ensures forall r | r in rows :: r in kept <==> r.tokenHash != hash
  {
    set r | r in rows && r.tokenHash != hash
  }

  /** Deleting by hash twice is deleting it once. */
  lemma WithoutHashIdempotent(rows: set<TokenRow>, hash: string)
    ensures WithoutHash(WithoutHash(rows, hash), hash) == WithoutHash(rows, hash)
  {
  }

  /** After deleting by hash, no token with that hash is live, whatever the time. */
  lemma WithoutHashKillsToken(rows: set<TokenRow>, hash: string, now: int)
    ensures !LiveRefresh(WithoutHash(rows, hash), hash, now)
  {
  }

  /** The token rows that `DELETE ... WHERE expires_at < $1` leaves. */
  function UnexpiredTokens(rows: set<TokenRow>, now: int): (kept: set<TokenRow>)
    ensures forall r | r in rows :: r in kept <==> now <= r.expiresAt
    ensures kept <= rows
  {
    set r | r in rows && now <= r.expiresAt
  }

  function UnexpiredVerifications(rows: set<VerificationRow>, now: int): (kept: set<VerificationRow>)
    ensures forall r | r in rows :: r in kept <==> now <= r.expiresAt
    ensures kept <= rows
  {
    set r | r in rows && now <= r.expiresAt
  }

  function UnexpiredSessions(rows: set<SessionRow>, now: int): (kept: set<SessionRow>)
    ensures forall r | r in rows :: r in kept <==> now <= r.expiresAt
    ensures kept <= rows
  {
    set r | r in rows && now <= r.expiresAt
  }

  /** An email-verification token that may still be redeemed:
      `token_hash = $1 AND expires_at > $2 AND used_at IS NULL`. */
  predicate Redeemable(r: VerificationRow, hash: string, now: int) {
    r.tokenHash == hash && r.expiresAt > now && r.usedAt.None?
  }

  function MarkUsed(r: VerificationRow, hash: string, now: int): VerificationRow {
    if r.tokenHash == hash then r.(usedAt := Some(now)) else r
  }

  /** `UPDATE email_verification_tokens SET used_at = $1 WHERE token_hash = $2`: every row with the
      hash is stamped as used, and no other row changes. */
  function MarkAllUsed(rows: set<VerificationRow>, hash: string, now: int): (marked: set<VerificationRow>)
    ensures forall r | r in marked :: r.tokenHash == hash ==> r.usedAt == Some(now)
    ensures forall r | r in rows && r.tokenHash != hash :: r in marked
    ensures forall r | r in marked && r.tokenHash != hash :: r in rows
    ensures forall r | r in rows && r.tokenHash == hash :: r.(usedAt := Some(now)) in marked
    ensures forall r | r in marked && r.tokenHash == hash :: exists s | s in rows && s.tokenHash == hash :: r == s.(usedAt := Some(now))
  {
    set r | r in rows :: MarkUsed(r, hash, now)
  }

  /** Once the rows with a hash are marked, none of them can be redeemed again, at any time: a
      verification token is single-use. */
  lemma {:induction false} MarkAllUsedSingleUse(rows: set<VerificationRow>, hash: string, now: int, later: int)
    ensures forall r | r in MarkAllUsed(rows, hash, now) :: !Redeemable(r, hash, later)
  {
    forall r | r in MarkAllUsed(rows, hash, now) ensures !Redeemable(r, hash, later) {
      if r.tokenHash == hash {
        assert r.usedAt == Some(now);
      }
    }
  }

  /** The rows a profile update may change: first name, last name, profile image and updated_at. */
  predicate OnlyProfileFieldsDiffer(before: UserRow, after: UserRow) {
    after == before.(firstName := after.firstName, lastName := after.lastName,
                     profileImage := after.profileImage, updatedAt := after.updatedAt)
  }

  /** What the account flows keep true of the users table and the password hashes: every row is
      filed under its own id, stored emails are lower-case and unique, and every user has exactly one
      password hash. */
  ghost predicate ValidTables(users: map<string, UserRow>, passwordHashes: map<string, string>) {
    (forall id | id in users :: users[id].id == id && ToLower(users[id].email) == users[id].email) &&
    EmailsUnique(users) &&
    passwordHashes.Keys == users.Keys
  }

  /** With unique emails, the user found by an email is the only one with it. */
  lemma OnlyUserWithEmail(users: map<string, UserRow>, passwordHashes: map<string, string>, email: string, u: UserRow)
    requires ValidTables(users, passwordHashes) && IsUserWithEmail(users, email, u)
    ensures forall id | id in users && users[id].email == email :: id == u.id
  {
  }

  class Database {
    var users: map<string, UserRow>
    var passwordHashes: map<string, string>
    var refreshTokens: set<TokenRow>
    var resetTokens: set<TokenRow>
    var verificationTokens: set<VerificationRow>
    var sessions: set<SessionRow>

    /** The invariant of the two tables, on this database's fields. */
    ghost predicate Valid()
      reads this
    {
      ValidTables(users, passwordHashes)
    }

    constructor ()
      ensures Valid()
      ensures users == map[] && passwordHashes == map[]
      ensures refreshTokens == {} && resetTokens == {} && verificationTokens == {} && sessions == {}
    {
      users := map[];
      passwordHashes := map[];
      refreshTokens := {};
      resetTokens := {};
      verificationTokens := {};
      sessions := {};
    }

    /** getUserByEmail: the user whose stored email is the lower-cased argument, or None. */
    method UserByEmail(email: string) returns (u: Option<UserRow>)
      requires Valid()
      ensures u.Some? <==> EmailTaken(users, ToLower(email))
      ensures u.Some? ==> IsUserWithEmail(users, ToLower(email), u.value)
    {
      var key := ToLower(email);
      if EmailTaken(users, key) {
        var id :| id in users && users[id].email == key;
        u := Some(users[id]);
      } else {
        u := None;
      }
    }

    /** storeRefreshToken: inserts one row holding the token's hash (never the token itself). */
    method StoreRefreshToken(sha: Sha256, userId: string, token: string, expiresAt: int)
      modifies this`refreshTokens
      ensures refreshTokens == old(refreshTokens) + {TokenRow(userId, HashToken(sha, token), expiresAt)}
      ensures LiveRefresh(refreshTokens, HashToken(sha, token), expiresAt - 1)
    {
      var row := TokenRow(userId, HashToken(sha, token), expiresAt);
      refreshTokens := refreshTokens + {row};
      assert row in refreshTokens;
    }

    /** validateRefreshToken: the owner of a live row with the token's hash, or None (the source's
        "invalid or expired refresh token" error) when there is no such row. */
    method ValidateRefreshToken(sha: Sha256, token: string, now: int) returns (owner: Option<string>)
      ensures owner.Some? <==> LiveRefresh(refreshTokens, HashToken(sha, token), now)
      ensures owner.Some? ==>
        exists r | r in refreshTokens :: r.tokenHash == HashToken(sha, token) && r.expiresAt > now && r.userId == owner.value
    {
      var hash := HashToken(sha, token);
      if LiveRefresh(refreshTokens, hash, now) {
        var r :| r in refreshTokens && r.tokenHash == hash && r.expiresAt > now;
        owner := Some(r.userId);
      } else {
        owner := None;
      }
    }

    /** invalidateRefreshToken: deletes every row with the token's hash and reports nothing. */
    method InvalidateRefreshToken(sha: Sha256, token: string)
      modifies this`refreshTokens
      ensures refreshTokens == WithoutHash(old(refreshTokens), HashToken(sha, token))
    {
      refreshTokens := WithoutHash(refreshTokens, HashToken(sha, token));
    }

    /** cleanupExpiredTokens: removes the rows with `expires_at < now` from the four token tables,
        keeps every other row, and answers 0. */
    method CleanupExpiredTokens(now: int) returns (count: int)
      modifies this`refreshTokens, this`resetTokens, this`verificationTokens, this`sessions
      ensures count == 0
      ensures refreshTokens == UnexpiredTokens(old(refreshTokens), now)
      ensures resetTokens == UnexpiredTokens(old(resetTokens), now)
      ensures verificationTokens == UnexpiredVerifications(old(verificationTokens), now)
      ensures sessions == UnexpiredSessions(old(sessions), now)
    {
      refreshTokens := UnexpiredTokens(refreshTokens, now);
      verificationTokens := UnexpiredVerifications(verificationTokens, now);
      resetTokens := UnexpiredTokens(resetTokens, now);
      sessions := UnexpiredSessions(sessions, now);
      count := 0;
    }
  }

  /** Invalidating the same token twice leaves the table as invalidating it once does. */
  method InvalidateTwice(db: Database, sha: Sha256, token: string)
    modifies db`refreshTokens
    ensures db.refreshTokens == WithoutHash(old(db.refreshTokens), HashToken(sha, token))
  {
    db.InvalidateRefreshToken(sha, token);
    db.InvalidateRefreshToken(sha, token);
    WithoutHashIdempotent(old(db.refreshTokens), HashToken(sha, token));
  }
}
