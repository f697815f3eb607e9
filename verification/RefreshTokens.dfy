/**
 Refresh-token rotation with 30-second grace reuse and replay detection
 (src/auth/auth.service.ts).

 The table of tokens is a map from the token id (`jti`) to its row.  A fresh
 `jti` or reset token is the next number of a supply, so the order of numbers
 is the order of issue; the service compares ids only for equality.  A signed
 JWT is its payload, and the set of payloads signed so far stands for the
 signing key: a JWT verifies when it was signed and has not expired.
 */
module RefreshTokens {
  import opened Wrappers

  type UserId = nat
  type Jti = nat

  /** Milliseconds during which a replaced token may be presented again. */
  const GRACE_MS: nat := 30000
  /** Lifetime of a password-reset token, in milliseconds. */
  const RESET_MS: nat := 3600000

  /** The signed payload: subject, token id, expiry in seconds. */
  datatype Raw = Raw(sub: UserId, jti: Jti, exp: nat)

  /** A row of `refresh_tokens`.  Hashing is injective, so the hash of a JWT is the JWT. */
  datatype Token = Token(
    user: UserId, hash: Raw, expiresAt: nat,
    revokedAt: Option<nat>, replacedBy: Option<Jti>)

  datatype Reset = Reset(token: nat, expiresAt: nat)

  datatype User = User(active: bool, reset: Option<Reset>)

  type Table = map<Jti, Token>

  /** Lifetimes in seconds: of the row (`secondsFromTtl`) and of the JWT. */
  datatype Config = Config(rowTtl: nat, jwtTtl: nat)

  datatype State = State(
    cfg: Config, tokens: Table, users: map<UserId, User>,
    signed: set<Raw>, next: nat, now: nat)

  // ---------- one function for each statement sent to the database ----------

  /** `updateMany` where `jti` and not yet revoked. */
  function RevokeOne(T: Table, j: Jti, now: nat): Table {
    if j in T && T[j].revokedAt.None? then T[j := T[j].(revokedAt := Some(now))] else T
  }

  /** `updateMany` where `userId` and not yet revoked. */
  function RevokeUser(T: Table, u: UserId, now: nat): Table {
    map j | j in T ::
      if T[j].user == u && T[j].revokedAt.None? then T[j].(revokedAt := Some(now)) else T[j]
  }

  /** `deleteMany` where `userId`. */
  function DeleteUser(T: Table, u: UserId): Table {
    map j | j in T && T[j].user != u :: T[j]
  }

  /** `update` of the rotated row: revoked and linked to its replacement. */
  function Link(T: Table, j: Jti, n: Jti, now: nat): Table
    requires j in T
  {
    T[j := T[j].(revokedAt := Some(now), replacedBy := Some(n))]
  }

  function Signed(s: State, u: UserId): Raw {
    Raw(u, s.next, s.now / 1000 + s.cfg.jwtTtl)
  }

  /** Signs a JWT for user `u` and stores its row. */
  function Issue(s: State, u: UserId): State {
    var raw := Signed(s, u);
    s.(tokens := s.tokens[s.next := Token(u, raw, s.now + 1000 * s.cfg.rowTtl, None, None)],
       signed := s.signed + {raw},
       next := s.next + 1)
  }

  predicate Verifies(s: State, raw: Raw) {
    raw in s.signed && s.now / 1000 < raw.exp
  }

  predicate Live(T: Table, j: Jti) {
    j in T && T[j].revokedAt.None?
  }

  /** The revoked row `t` was replaced less than 30 seconds ago by a usable token. */
  predicate GraceApplies(T: Table, t: Token, now: nat)
    requires t.revokedAt.Some?
  {
    && t.revokedAt.value + GRACE_MS > now
    && t.replacedBy.Some?
    && Live(T, t.replacedBy.value)
    && T[t.replacedBy.value].expiresAt > now
  }

  // ---------- the handlers as functions of the state ----------

  /** Answers of `rotateRefreshToken`; `access` is the user of the new access token. */
  datatype Outcome =
    | Rotated(access: UserId, issued: Raw)
    | Grace(access: UserId, same: Raw)
    | InvalidToken
    | NotFound
    | RevokedAll
    | Expired
    | WrongHash
    | UserNotFound
    | Deactivated

  predicate Success(o: Outcome) { o.Rotated? || o.Grace? }

  function Rotate(s: State, raw: Raw): (State, Outcome) {
    if !Verifies(s, raw) then (s, InvalidToken)
    else if raw.jti !in s.tokens then (s, NotFound)
    else
      var t := s.tokens[raw.jti];
      if t.revokedAt.Some? then
        if GraceApplies(s.tokens, t, s.now) then
          (s, Grace(s.tokens[t.replacedBy.value].user, raw))
        else
          (s.(tokens := RevokeUser(s.tokens, raw.sub, s.now)), RevokedAll)
      else if t.expiresAt < s.now then (s, Expired)
      else if t.hash != raw then (s, WrongHash)
      else if t.user !in s.users then (s, UserNotFound)
      else if !s.users[t.user].active then (s, Deactivated)
      else
        var s' := Issue(s, t.user);
        (s'.(tokens := Link(s'.tokens, raw.jti, s.next, s.now)), Rotated(t.user, Signed(s, t.user)))
  }

  /** What a client logs out with: a JWT, or a bare token id. */
  datatype Handle = ByRaw(raw: Raw) | ByJti(jti: Jti)

  function Logout(s: State, h: Handle): State {
    match h
    case ByJti(j) => s.(tokens := RevokeOne(s.tokens, j, s.now))
    case ByRaw(raw) =>
      // an unverified JWT is taken for a token id, and no token has such an id
      if Verifies(s, raw) then s.(tokens := RevokeOne(s.tokens, raw.jti, s.now)) else s
  }

  /** Stores a fresh reset token; an unknown or inactive account only consumes one. */
  function RequestReset(s: State, u: UserId): State {
    var s' := s.(next := s.next + 1);
    if u in s.users && s.users[u].active then
      s'.(users := s.users[u := s.users[u].(reset := Some(Reset(s.next, s.now + RESET_MS)))])
    else s'
  }

  predicate Redeemable(s: State, u: UserId, tok: nat) {
    && u in s.users && s.users[u].active
    && s.users[u].reset.Some?
    && s.users[u].reset.value.token == tok
    && s.users[u].reset.value.expiresAt > s.now
  }

  /** The user whose reset token this is, when it is still valid. */
  ghost function Redeemer(s: State, tok: nat): (r: Option<UserId>)
    ensures r.Some? ==> Redeemable(s, r.value, tok)
    ensures r.None? ==> forall u :: !Redeemable(s, u, tok)
  {
    if exists u :: Redeemable(s, u, tok) then
      var u :| Redeemable(s, u, tok);
      Some(u)
    else None
  }

  /** The first statement of a reset: a new password, and the reset token is consumed. */
  function ConsumeReset(s: State, u: UserId): State
    requires u in s.users
  {
    s.(users := s.users[u := s.users[u].(reset := None)])
  }

  ghost function ResetPassword(s: State, tok: nat): State {
    match Redeemer(s, tok)
    case None => s
    case Some(u) => ConsumeReset(s, u).(tokens := DeleteUser(s.tokens, u))
  }

  /** The unique index on reset tokens. */
  ghost predicate ResetsUnique(users: map<UserId, User>) {
    forall u, v ::
      (&& u in users && v in users && users[u].reset.Some? && users[v].reset.Some?
       && users[u].reset.value.token == users[v].reset.value.token) ==> u == v
  }

  // ---------- the service ----------

  class AuthService {
    const cfg: Config
    var tokens: Table
    var users: map<UserId, User>
    ghost var signed: set<Raw>
    var next: nat
    var now: nat

    constructor (cfg: Config, users: map<UserId, User>, now: nat)
      ensures S() == State(cfg, map[], users, {}, 0, now)
    {
      this.cfg := cfg;
      this.users := users;
      this.now := now;
      tokens, signed, next := map[], {}, 0;
    }

    ghost function S(): State
      reads this
    {
      State(cfg, tokens, users, signed, next, now)
    }

    method IssueRefreshToken(u: UserId) returns (raw: Raw)
      modifies this
      ensures S() == Issue(old(S()), u)
      ensures raw == Signed(old(S()), u)
    {
      var jti := next;
      next := next + 1;
      raw := Raw(u, jti, now / 1000 + cfg.jwtTtl);
      signed := signed + {raw};
      tokens := tokens[jti := Token(u, raw, now + 1000 * cfg.rowTtl, None, None)];
    }

    /** `verified` is the verdict of the JWT library on the presented string. */
    method RotateRefreshToken(raw: Raw, verified: bool) returns (r: Outcome)
      requires verified == Verifies(S(), raw)
      modifies this
      ensures (S(), r) == Rotate(old(S()), raw)
    {
      if !verified {
        return InvalidToken;
      }
      var jti := raw.jti;
      if jti !in tokens {
        return NotFound;
      }
      var record := tokens[jti];
      if record.revokedAt.Some? {
        var revokedRecently := record.revokedAt.value + GRACE_MS > now;
        if revokedRecently && record.replacedBy.Some? {
          if record.replacedBy.value in tokens {
            var replacement := tokens[record.replacedBy.value];
            if replacement.revokedAt.None? && replacement.expiresAt > now {
              return Grace(replacement.user, raw);
            }
          }
        }
        RevokeAllUserSessions(raw.sub);
        return RevokedAll;
      }
      if record.expiresAt < now {
        return Expired;
      }
      if record.hash != raw {
        return WrongHash;
      }
      if record.user !in users {
        return UserNotFound;
      }
      if !users[record.user].active {
        return Deactivated;
      }
      var issued := IssueRefreshToken(record.user);
      tokens := tokens[jti := tokens[jti].(revokedAt := Some(now), replacedBy := Some(issued.jti))];
      return Rotated(record.user, issued);
    }

    method RevokeAllUserSessions(u: UserId)
      modifies this`tokens
      ensures tokens == RevokeUser(old(tokens), u, now)
    {
      tokens := map j | j in tokens ::
        if tokens[j].user == u && tokens[j].revokedAt.None?
        then tokens[j].(revokedAt := Some(now)) else tokens[j];
    }

    method RevokeRefreshToken(h: Handle, verified: bool)
      requires h.ByRaw? ==> verified == Verifies(S(), h.raw)
      modifies this`tokens
      ensures S() == Logout(old(S()), h)
    {
      var target := match h
        case ByJti(j) => Some(j)
        case ByRaw(raw) => if verified then Some(raw.jti) else None;
      if target.Some? && target.value in tokens && tokens[target.value].revokedAt.None? {
        tokens := tokens[target.value := tokens[target.value].(revokedAt := Some(now))];
      }
    }

    method RequestPasswordReset(u: UserId)
      modifies this
      ensures S() == RequestReset(old(S()), u)
    {
      var token := next;
      next := next + 1;
      if u in users && users[u].active {
        users := users[u := users[u].(reset := Some(Reset(token, now + RESET_MS)))];
      }
    }

    /** `hit` is the row that the lookup by reset token returned. */
    method ResetPasswordOf(tok: nat, hit: Option<UserId>) returns (ok: bool)
      requires ResetsUnique(users)
      requires hit.Some? ==> Redeemable(S(), hit.value, tok)
      requires hit.None? ==> forall u :: !Redeemable(S(), u, tok)
      modifies this
      ensures S() == ResetPassword(old(S()), tok)
      ensures ok == Redeemer(old(S()), tok).Some?
    {
      if hit.None? {
        return false;
      }
      users := users[hit.value := users[hit.value].(reset := None)];
      tokens := map j | j in tokens && tokens[j].user != hit.value :: tokens[j];
      return true;
    }
  }
}
