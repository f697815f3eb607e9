/**
 What each request of the refresh-token service does to every row, said in
 terms of the rows alone (src/auth/auth.service.ts:141-303, 506-586).
 */
module RefreshAnswers {
  import opened Wrappers
  import opened RefreshTokens
  import opened RefreshRuns
  import opened RefreshInterleaving

  // ---------- requests served as one step ----------

  /** The row and the JWT of a new token. */
  ghost predicate IsIssued(s: State, u: UserId, raw: Raw, row: Token) {
    raw == Raw(u, s.next, s.now / 1000 + s.cfg.jwtTtl)
    && row == Token(u, raw, s.now + 1000 * s.cfg.rowTtl, None, None)
  }

  /** A login of an active account adds one row and one JWT; any other login changes nothing. */
  lemma LoginWrites(s: State, u: UserId)
    requires Inv(s)
    ensures
      var s' := Step(s, Login(u));
      if u in s.users && s.users[u].active then
        && s.next !in s.tokens && s'.tokens.Keys == s.tokens.Keys + {s.next}
        && (forall j :: j in s.tokens ==> s'.tokens[j] == s.tokens[j])
        && (exists raw :: IsIssued(s, u, raw, s'.tokens[s.next]) && s'.signed == s.signed + {raw})
        && s' == s.(tokens := s'.tokens, signed := s'.signed, next := s.next + 1)
      else s' == s
  {
    if u in s.users && s.users[u].active {
      var raw := Raw(u, s.next, s.now / 1000 + s.cfg.jwtTtl);
      assert IsIssued(s, u, raw, Step(s, Login(u)).tokens[s.next]);
    }
  }

  /**
   What a presented token does to every row.  A rotation adds the new row and
   revokes and links the presented one.  A replay revokes the live rows of its
   user and nothing else: rows of other users and rows already revoked stay as
   they are.  Any other answer changes nothing.
   */
  lemma RotationWrites(s: State, raw: Raw, j: Jti)
    requires Inv(s) && j in s.tokens
    ensures
      var (s', o) := Rotate(s, raw);
      && j in s'.tokens
      && s'.tokens[j] ==
           (if o.Rotated? && j == raw.jti then s.tokens[j].(revokedAt := Some(s.now), replacedBy := Some(s.next))
            else if o.RevokedAll? && s.tokens[j].user == raw.sub && s.tokens[j].revokedAt.None?
            then s.tokens[j].(revokedAt := Some(s.now))
            else s.tokens[j])
      && (s.tokens[j].user != raw.sub ==> s'.tokens[j] == s.tokens[j])
  {
    if raw in s.signed && raw.jti in s.tokens {
      assert s.tokens[raw.jti].hash == raw;
    }
  }

  /** A rotation adds one row, for the user of the presented token, and answers its JWT; no other answer adds or signs anything. */
  lemma RotationAdds(s: State, raw: Raw)
    requires Inv(s)
    ensures
      var (s', o) := Rotate(s, raw);
      match o
      case Rotated(u, issued) =>
        && u == raw.sub && s.next !in s.tokens && s'.tokens.Keys == s.tokens.Keys + {s.next}
        && IsIssued(s, u, issued, s'.tokens[s.next])
        && s' == s.(tokens := s'.tokens, signed := s.signed + {issued}, next := s.next + 1)
      case Grace(u, same) => u == raw.sub && same == raw && s' == s
      case RevokedAll => s'.tokens.Keys == s.tokens.Keys && s' == s.(tokens := s'.tokens)
      case _ => s' == s
  {
    if raw in s.signed && raw.jti in s.tokens {
      assert s.tokens[raw.jti].hash == raw;
      var t := s.tokens[raw.jti];
      if Rotate(s, raw).1.Grace? {
        assert s.tokens[t.replacedBy.value].user == t.user;
      }
    }
  }

  /** Logout revokes the named row if it is live: by id, or by a JWT that verifies. */
  lemma LogoutWrites(s: State, h: Handle, j: Jti)
    ensures
      var s' := Logout(s, h);
      var named := match h case ByJti(k) => k == j case ByRaw(raw) => raw in s.signed && s.now / 1000 < raw.exp && raw.jti == j;
      && s' == s.(tokens := s'.tokens) && s'.tokens.Keys == s.tokens.Keys
      && (j in s.tokens ==>
            var row := s.tokens[j];
            s'.tokens[j] == if named && row.revokedAt.None? then row.(revokedAt := Some(s.now)) else row)
  {
  }

  /** A reset request gives an active account a fresh token for one hour, and touches nothing else. */
  lemma ResetRequestWrites(s: State, u: UserId)
    ensures
      var s' := RequestReset(s, u);
      && s' == s.(users := s'.users, next := s.next + 1) && s'.users.Keys == s.users.Keys
      && (forall v :: v in s.users && v != u ==> s'.users[v] == s.users[v])
      && (u in s.users ==>
            var user := s.users[u];
            s'.users[u] == if user.active then user.(reset := Some(Reset(s.next, s.now + 3600000))) else user)
  {
  }

  /** The account may be reset with the token now. */
  ghost predicate MayReset(s: State, u: UserId, tok: nat) {
    u in s.users && s.users[u].active && s.users[u].reset.Some?
    && s.users[u].reset.value.token == tok && s.now < s.users[u].reset.value.expiresAt
  }

  /** A reset empties the token of its account and deletes exactly its rows; without such an account it changes nothing. */
  lemma ResetWrites(s: State, tok: nat, u: UserId)
    requires Inv(s)
    ensures
      var s' := ResetPassword(s, tok);
      && (MayReset(s, u, tok) ==>
            && s' == s.(users := s.users[u := s.users[u].(reset := None)], tokens := s'.tokens)
            && forall j :: (j in s'.tokens <==> j in s.tokens && s.tokens[j].user != u)
                           && (j in s'.tokens ==> s'.tokens[j] == s.tokens[j]))
      && ((forall v :: !MayReset(s, v, tok)) ==> s' == s)
  {
    var hit := Redeemer(s, tok);
    assert MayReset(s, u, tok) ==> Redeemable(s, u, tok);
    if hit.Some? {
      assert MayReset(s, hit.value, tok);
    }
  }

  // ---------- requests served statement by statement ----------

  /** What a request decides to do next from the row it has read. */
  lemma ReadAnswers(s: State, raw: Raw)
    ensures
      var read := ReadRow(s, raw);
      if raw !in s.signed || s.now / 1000 >= raw.exp || raw.jti !in s.tokens then read == None
      else
        var t := s.tokens[raw.jti];
        match t.revokedAt
        case None =>
          read == (if t.expiresAt >= s.now && t.hash == raw && t.user in s.users && s.users[t.user].active
                   then Some(IssueNext(raw.jti, t.user)) else None)
        case Some(d) =>
          read == (if s.now < d + 30000 && t.replacedBy.Some? then Some(ReadReplacement(raw.sub, t.replacedBy.value))
                   else Some(RevokeSessions(raw.sub)))
  {
  }

  /** A request starts where its read leads, unless its name is taken; only a reset writes at once. */
  lemma BeginSuspends(w: World, r: Request, raw: Raw, tok: nat)
    ensures
      var (w1, w2) := (Turn(w, Begin(r, raw)), Turn(w, BeginReset(r, tok)));
      && (r in w.pool ==> w1 == w && w2 == w)
      && (r !in w.pool ==>
            && w1.s == w.s && w1.pool == (if ReadRow(w.s, raw).Some? then w.pool[r := ReadRow(w.s, raw).value] else w.pool))
      && (r !in w.pool && (forall u :: !MayReset(w.s, u, tok)) ==> w2 == w)
      && (r !in w.pool && (exists u :: MayReset(w.s, u, tok)) ==>
            exists u :: MayReset(w.s, u, tok) && w2.pool == w.pool[r := DeleteSessions(u)]
              && w2.s == w.s.(users := w.s.users[u := w.s.users[u].(reset := None)]))
  {
    var hit := Redeemer(w.s, tok);
    assert forall u :: MayReset(w.s, u, tok) ==> Redeemable(w.s, u, tok);
    if hit.Some? {
      assert MayReset(w.s, hit.value, tok);
    }
  }

  /** Which requests go on after a turn of one of them: a failed grace revokes, an issued token is linked. */
  lemma TurnSuspends(w: World, r: Request)
    requires r in w.pool
    ensures
      var pool := Turn(w, Continue(r)).pool;
      pool == match w.pool[r]
        case ReadReplacement(sub, n) =>
          if n in w.s.tokens && w.s.tokens[n].revokedAt.None? && w.s.now < w.s.tokens[n].expiresAt then w.pool - {r}
          else w.pool[r := RevokeSessions(sub)]
        case IssueNext(j, u) => if u in w.s.users then w.pool[r := LinkOld(j, w.s.next, u)] else w.pool - {r}
        case _ => w.pool - {r}
  {
  }

  /** A presentation and a reset take several turns; every other request and the environment take one. */
  lemma WholeRequests(w: World, op: Op)
    ensures Turn(w, Whole(op)).pool == w.pool
    ensures Turn(w, Whole(op)).s == if op.Present? || op.UseReset? then w.s else Step(w.s, op)
  {
  }

  /** Each turn of a suspended request writes what its phase says, to no other row. */
  lemma TurnWrites(w: World, r: Request, j: Jti)
    requires r in w.pool && j in w.s.tokens && (w.pool[r].IssueNext? ==> j != w.s.next)
    ensures
      var T, T' := w.s.tokens, Turn(w, Continue(r)).s.tokens;
      match w.pool[r]
      case RevokeSessions(sub) =>
        j in T' && T'[j] == if T[j].user == sub && T[j].revokedAt.None? then T[j].(revokedAt := Some(w.s.now)) else T[j]
      case LinkOld(rotated, n, _) =>
        j in T' && T'[j] == if j == rotated then T[j].(revokedAt := Some(w.s.now), replacedBy := Some(n)) else T[j]
      case DeleteSessions(u) => (j in T' <==> T[j].user != u) && (j in T' ==> T'[j] == T[j])
      case _ => j in T' && T'[j] == T[j]
  {
  }

  /** The only turn that adds a row is the issue, and it adds the next one. */
  lemma TurnAdds(w: World, r: Request, j: Jti)
    requires r in w.pool && j !in w.s.tokens
    ensures
      var w' := Turn(w, Continue(r));
      j in w'.s.tokens <==> w.pool[r].IssueNext? && w.pool[r].user in w.s.users && j == w.s.next
    ensures
      var w' := Turn(w, Continue(r));
      j in w'.s.tokens ==> exists raw :: IsIssued(w.s, w.pool[r].user, raw, w'.s.tokens[j]) && w'.s.signed == w.s.signed + {raw}
  {
    if w.pool[r].IssueNext? && w.pool[r].user in w.s.users && j == w.s.next {
      var raw := Raw(w.pool[r].user, w.s.next, w.s.now / 1000 + w.s.cfg.jwtTtl);
      assert IsIssued(w.s, w.pool[r].user, raw, Turn(w, Continue(r)).s.tokens[j]);
    }
  }
}
