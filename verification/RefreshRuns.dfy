/**
 What every run of the refresh-token service keeps, with each request served
 as one step (src/auth/auth.service.ts).
 */
module RefreshRuns {
  import opened Collections
  import opened Wrappers
  import opened RefreshTokens

  // ---------- runs ----------

  datatype Op =
    | Login(u: UserId)
    | Present(raw: Raw)
    | Leave(h: Handle)
    | AskReset(u: UserId)
    | UseReset(tok: nat)
    | AddUser(u: UserId)
    | SetActive(u: UserId, active: bool)
    | RemoveUser(u: UserId)
    | Tick(ms: nat)

  /** One request, or one change made by the environment. */
  ghost function Step(s: State, op: Op): State {
    match op
    case Login(u) => if u in s.users && s.users[u].active then Issue(s, u) else s
    case Present(raw) => Rotate(s, raw).0
    case Leave(h) => Logout(s, h)
    case AskReset(u) => RequestReset(s, u)
    case UseReset(tok) => ResetPassword(s, tok)
    case AddUser(u) => if u in s.users then s else s.(users := s.users[u := User(true, None)])
    case SetActive(u, b) =>
      if u in s.users then s.(users := s.users[u := s.users[u].(active := b)]) else s
    case RemoveUser(u) =>
      s.(users := map v | v in s.users && v != u :: s.users[v], tokens := DeleteUser(s.tokens, u))
    case Tick(ms) => s.(now := s.now + ms)
  }

  ghost function Run(s: State, ops: seq<Op>): State
    decreases |ops|
  {
    if ops == [] then s else Run(Step(s, ops[0]), ops[1..])
  }

  // ---------- the shape of the table ----------

  ghost predicate IdsBelow(T: Table, next: nat) {
    forall j :: j in T ==> j < next
  }

  /** Links lead to an existing, later-issued token of the same user, and never merge. */
  ghost predicate LinksOk(T: Table, next: nat) {
    && IdsBelow(T, next)
    && (forall j {:trigger T[j].replacedBy} :: j in T && T[j].replacedBy.Some? ==>
          var n := T[j].replacedBy.value;
          n in T && j < n && T[n].user == T[j].user)
    && (forall i, j {:trigger T[i].replacedBy, T[j].replacedBy} ::
          (i in T && j in T && T[i].replacedBy.Some? && T[i].replacedBy == T[j].replacedBy) ==> i == j)
  }

  /** The end of the chain that starts at `j`: following links always terminates. */
  ghost function Tip(T: Table, next: nat, j: Jti): (t: Jti)
    requires LinksOk(T, next) && j in T
    ensures t in T && T[t].replacedBy.None?
    ensures T[t].user == T[j].user && j <= t < next
    decreases next - j
  {
    if T[j].replacedBy.None? then j else Tip(T, next, T[j].replacedBy.value)
  }

  /** Each token id was signed once. */
  ghost predicate SignedOnce(signed: set<Raw>, next: nat) {
    && (forall r :: r in signed ==> r.jti < next)
    && (forall q, r :: q in signed && r in signed && q.jti == r.jti ==> q == r)
  }

  /** Each row holds the signed token with its id, for an existing user. */
  ghost predicate RowsSigned(s: State) {
    forall j :: j in s.tokens ==>
      && s.tokens[j].user in s.users
      && s.tokens[j].hash in s.signed
      && s.tokens[j].hash.jti == j
      && s.tokens[j].hash.sub == s.tokens[j].user
  }

  /** When the JWT does not outlive its row, it has expired by the time the row does. */
  ghost predicate ExpiryAligned(s: State) {
    s.cfg.jwtTtl <= s.cfg.rowTtl ==>
      forall j :: j in s.tokens ==> 1000 * s.tokens[j].hash.exp <= s.tokens[j].expiresAt
  }

  /** A token that has been replaced has been revoked. */
  ghost predicate LiveAreTips(T: Table) {
    forall j :: Live(T, j) ==> T[j].replacedBy.None?
  }

  ghost predicate ResetsOk(s: State) {
    && ResetsUnique(s.users)
    && (forall u :: u in s.users && s.users[u].reset.Some? ==> s.users[u].reset.value.token < s.next)
  }

  ghost predicate Inv(s: State) {
    && LinksOk(s.tokens, s.next) && LiveAreTips(s.tokens)
    && SignedOnce(s.signed, s.next) && RowsSigned(s)
    && ExpiryAligned(s) && ResetsOk(s)
  }

  // ---------- links ----------

  /** No token links to `n`. */
  ghost predicate Unreferenced(T: Table, n: Jti) {
    forall j {:trigger T[j].replacedBy} :: j in T ==> T[j].replacedBy != Some(n)
  }

  /** The same rows, users and links; only revocation dates may differ. */
  ghost predicate SameLinks(T: Table, T': Table) {
    && T.Keys == T'.Keys
    && (forall j {:trigger T'[j].replacedBy} :: j in T ==>
          T'[j].replacedBy == T[j].replacedBy && T'[j].user == T[j].user)
  }

  lemma LinksAfterIssue(s: State, u: UserId)
    requires LinksOk(s.tokens, s.next)
    ensures LinksOk(Issue(s, u).tokens, s.next + 1)
    ensures Unreferenced(Issue(s, u).tokens, s.next)
  {
  }

  lemma LinksAfterLink(T: Table, next: nat, j: Jti, n: Jti, now: nat)
    requires LinksOk(T, next) && j in T && n in T && j < n && T[j].user == T[n].user
    requires Unreferenced(T, n)
    ensures LinksOk(Link(T, j, n, now), next)
  {
  }

  lemma LinksAfterRevoke(T: Table, T': Table, next: nat)
    requires LinksOk(T, next) && SameLinks(T, T')
    ensures LinksOk(T', next)
  {
    forall j | j in T' && T'[j].replacedBy.Some?
      ensures var n := T'[j].replacedBy.value; n in T' && j < n && T'[n].user == T'[j].user
    {
      assert T[j].replacedBy.Some?;
      assert T'[T[j].replacedBy.value].replacedBy == T[T[j].replacedBy.value].replacedBy;
    }
  }

  lemma LinksAfterDelete(T: Table, next: nat, u: UserId)
    requires LinksOk(T, next)
    ensures LinksOk(DeleteUser(T, u), next)
  {
  }

  lemma LinksAfterRotate(s: State, raw: Raw)
    requires LinksOk(s.tokens, s.next)
    ensures LinksOk(Rotate(s, raw).0.tokens, Rotate(s, raw).0.next)
  {
    var (s', o) := Rotate(s, raw);
    if o.Rotated? {
      var s1 := Issue(s, s.tokens[raw.jti].user);
      LinksAfterIssue(s, s.tokens[raw.jti].user);
      LinksAfterLink(s1.tokens, s1.next, raw.jti, s.next, s.now);
    } else if o.RevokedAll? {
      LinksAfterRevoke(s.tokens, s'.tokens, s.next);
    }
  }

  lemma LinksAfterStep(s: State, op: Op)
    requires LinksOk(s.tokens, s.next)
    ensures LinksOk(Step(s, op).tokens, Step(s, op).next)
  {
    match op
    case Login(u) => LinksAfterIssue(s, u);
    case Present(raw) => LinksAfterRotate(s, raw);
    case Leave(h) => LinksAfterRevoke(s.tokens, Logout(s, h).tokens, s.next);
    case UseReset(tok) =>
      if Redeemer(s, tok).Some? { LinksAfterDelete(s.tokens, s.next, Redeemer(s, tok).value); }
    case RemoveUser(u) => LinksAfterDelete(s.tokens, s.next, u);
    case _ =>
  }

  // ---------- the other parts of the invariant ----------

  lemma TipsAfterStep(s: State, op: Op)
    requires LiveAreTips(s.tokens)
    ensures LiveAreTips(Step(s, op).tokens)
  {
  }

  lemma SignedAfterStep(s: State, op: Op)
    requires SignedOnce(s.signed, s.next)
    ensures SignedOnce(Step(s, op).signed, Step(s, op).next)
  {
  }

  lemma RowsAfterStep(s: State, op: Op)
    requires RowsSigned(s)
    ensures RowsSigned(Step(s, op))
  {
  }

  lemma ExpiryAfterStep(s: State, op: Op)
    requires ExpiryAligned(s)
    ensures ExpiryAligned(Step(s, op))
  {
  }

  lemma ResetsAfterStep(s: State, op: Op)
    requires ResetsOk(s)
    ensures ResetsOk(Step(s, op))
  {
  }

  /** A new deployment: no token, no pending reset. */
  lemma EmptyTableSatisfiesInv(cfg: Config, users: map<UserId, User>, now: nat)
    requires forall u :: u in users ==> users[u].reset.None?
    ensures Inv(State(cfg, map[], users, {}, 0, now))
  {
  }

  lemma StepKeepsInv(s: State, op: Op)
    requires Inv(s)
    ensures Inv(Step(s, op))
  {
    LinksAfterStep(s, op);
    TipsAfterStep(s, op);
    SignedAfterStep(s, op);
    RowsAfterStep(s, op);
    ExpiryAfterStep(s, op);
    ResetsAfterStep(s, op);
  }

  lemma {:induction false} RunKeepsInv(s: State, ops: seq<Op>)
    requires Inv(s)
    ensures Inv(Run(s, ops))
    decreases |ops|
  {
    if ops != [] {
      StepKeepsInv(s, ops[0]);
      RunKeepsInv(Step(s, ops[0]), ops[1..]);
    }
  }

  // ---------- what a presented token answers ----------

  /**
   Which answer a presented token gets.  The hash and the user checks never fail
   for a JWT that verifies; what remains is decided by liveness, by the dates of
   the row, by the account, and by the thirty seconds in which a replaced token
   whose replacement is usable may be presented again.
   */
  lemma PresentedTokenAnswers(s: State, raw: Raw)
    requires Inv(s)
    ensures
      var T, j, o := s.tokens, raw.jti, Rotate(s, raw).1;
      var verifies := raw in s.signed && s.now / 1000 < raw.exp;
      var known := verifies && j in T;
      var live := known && T[j].revokedAt.None?;
      var reusable := known && T[j].revokedAt.Some? && s.now < T[j].revokedAt.value + 30000
        && T[j].replacedBy.Some? && T[j].replacedBy.value in T
        && T[T[j].replacedBy.value].revokedAt.None? && s.now < T[T[j].replacedBy.value].expiresAt;
      && (o.InvalidToken? <==> !verifies)
      && (o.NotFound? <==> verifies && j !in T)
      && (o.Expired? <==> live && T[j].expiresAt < s.now)
      && (o.Rotated? <==> live && s.now <= T[j].expiresAt && s.users[raw.sub].active)
      && (o.Deactivated? <==> live && s.now <= T[j].expiresAt && !s.users[raw.sub].active)
      && (o.Grace? <==> reusable)
      && (o.RevokedAll? <==> known && !live && !reusable)
  {
    if raw in s.signed && raw.jti in s.tokens {
      assert s.tokens[raw.jti].hash == raw;
    }
  }

  /** Where a JWT does not outlive its row, the expiry check of the row never fires: the signature check has. */
  lemma RowExpiryNeverFires(s: State, raw: Raw)
    requires Inv(s) && s.cfg.jwtTtl <= s.cfg.rowTtl
    ensures !Rotate(s, raw).1.Expired?
  {
    PresentedTokenAnswers(s, raw);
    if Verifies(s, raw) && raw.jti in s.tokens {
      assert s.tokens[raw.jti].hash == raw;
      assert 1000 * raw.exp <= s.tokens[raw.jti].expiresAt;
    }
  }

  /** A grace answer changes nothing, and names the owner of the presented token. */
  lemma GraceIsForTheImmediatePredecessor(s: State, raw: Raw)
    requires Inv(s) && Rotate(s, raw).1.Grace?
    ensures Rotate(s, raw) == (s, Grace(raw.sub, raw))
    ensures s.tokens[raw.jti].replacedBy == Some(Tip(s.tokens, s.next, raw.jti))
    ensures var t := Tip(s.tokens, s.next, raw.jti);
      Live(s.tokens, t) && s.now < s.tokens[t].expiresAt && t != raw.jti
  {
    var n := s.tokens[raw.jti].replacedBy.value;
    assert s.tokens[raw.jti].hash == raw;
    assert Tip(s.tokens, s.next, raw.jti) == Tip(s.tokens, s.next, n) == n;
  }

  /** A token two rotations behind is a replay, however recent. */
  lemma TwoBehindIsReplay(s: State, raw: Raw)
    requires Inv(s) && Verifies(s, raw) && raw.jti in s.tokens
    requires s.tokens[raw.jti].replacedBy.Some?
    requires s.tokens[s.tokens[raw.jti].replacedBy.value].replacedBy.Some?
    ensures Rotate(s, raw).1.RevokedAll?
    ensures forall j :: j in s.tokens && s.tokens[j].user == raw.sub ==> !Live(Rotate(s, raw).0.tokens, j)
  {
    assert !Live(s.tokens, raw.jti);
    assert !Live(s.tokens, s.tokens[raw.jti].replacedBy.value);
  }

  // ---------- chains ----------

  /** Following links from `a` leads to `b`. */
  ghost predicate Reaches(T: Table, next: nat, a: Jti, b: Jti)
    requires LinksOk(T, next) && a in T
    decreases next - a
  {
    a == b || (T[a].replacedBy.Some? && Reaches(T, next, T[a].replacedBy.value, b))
  }

  lemma {:induction false} ReachedTokensShareTheTip(T: Table, next: nat, a: Jti, b: Jti)
    requires LinksOk(T, next) && a in T && Reaches(T, next, a, b)
    ensures b in T && Tip(T, next, a) == Tip(T, next, b)
    decreases next - a
  {
    if a != b { ReachedTokensShareTheTip(T, next, T[a].replacedBy.value, b); }
  }

  /** In every run, the chain that starts at a login holds at most one live token, its last. */
  lemma OneLiveTokenPerChain(s: State, ops: seq<Op>, login: Jti, a: Jti)
    requires Inv(s)
    requires var s' := Run(s, ops);
      login in s'.tokens && LinksOk(s'.tokens, s'.next) && Reaches(s'.tokens, s'.next, login, a)
    ensures var s' := Run(s, ops);
      Live(s'.tokens, a) ==> a == Tip(s'.tokens, s'.next, login)
  {
    RunKeepsInv(s, ops);
    var s' := Run(s, ops);
    ReachedTokensShareTheTip(s'.tokens, s'.next, login, a);
  }

  // ---------- counting live tokens ----------

  ghost function LiveOf(T: Table, u: UserId): set<Jti> {
    set j | j in T && T[j].user == u && T[j].revokedAt.None?
  }

  ghost function Logins(ops: seq<Op>, u: UserId): nat {
    if ops == [] then 0 else (if ops[0] == Login(u) then 1 else 0) + Logins(ops[1..], u)
  }

  /** A rotation moves the live token of the chain: it neither gains nor loses one. */
  lemma RotationKeepsTheLiveCount(s: State, raw: Raw, u: UserId)
    requires IdsBelow(s.tokens, s.next) && Rotate(s, raw).1.Rotated?
    ensures |LiveOf(Rotate(s, raw).0.tokens, u)| == |LiveOf(s.tokens, u)|
    ensures !Live(Rotate(s, raw).0.tokens, raw.jti)
    ensures Live(Rotate(s, raw).0.tokens, Rotate(s, raw).1.issued.jti)
  {
    var T, T' := s.tokens, Rotate(s, raw).0.tokens;
    var owner := T[raw.jti].user;
    assert s.next !in T;
    assert T' == T[s.next := T'[s.next]][raw.jti := T'[raw.jti]];
    if owner == u {
      assert LiveOf(T', u) == LiveOf(T, u) - {raw.jti} + {s.next};
    } else {
      assert LiveOf(T', u) == LiveOf(T, u);
    }
  }

  /** Only a login adds a live token, rotations aside. */
  lemma LiveAfterOtherStep(s: State, op: Op, u: UserId)
    requires op.Present? ==> !Rotate(s, op.raw).1.Rotated?
    ensures LiveOf(Step(s, op).tokens, u) <= LiveOf(s.tokens, u) + if op == Login(u) then {s.next} else {}
  {
  }

  lemma LiveCountAfterStep(s: State, op: Op, u: UserId)
    requires IdsBelow(s.tokens, s.next)
    ensures |LiveOf(Step(s, op).tokens, u)| <= |LiveOf(s.tokens, u)| + if op == Login(u) then 1 else 0
  {
    if op.Present? && Rotate(s, op.raw).1.Rotated? {
      RotationKeepsTheLiveCount(s, op.raw, u);
    } else {
      LiveAfterOtherStep(s, op, u);
      SubsetIsNoLarger(LiveOf(Step(s, op).tokens, u), LiveOf(s.tokens, u) + if op == Login(u) then {s.next} else {});
    }
  }

  /** A user never holds more live tokens than they have logged in. */
  lemma {:induction false} LiveTokensNeverExceedLogins(s: State, ops: seq<Op>, u: UserId)
    requires Inv(s)
    ensures |LiveOf(Run(s, ops).tokens, u)| <= |LiveOf(s.tokens, u)| + Logins(ops, u)
    decreases |ops|
  {
    if ops != [] {
      LiveCountAfterStep(s, ops[0], u);
      StepKeepsInv(s, ops[0]);
      LiveTokensNeverExceedLogins(Step(s, ops[0]), ops[1..], u);
    }
  }

  // ---------- what time does to a row ----------

  /** A revocation date and a link are written once; everything else is fixed at issue. */
  ghost predicate RowEvolves(t: Token, t': Token) {
    && t'.user == t.user && t'.hash == t.hash && t'.expiresAt == t.expiresAt
    && (t.revokedAt.Some? ==> t'.revokedAt == t.revokedAt)
    && (t.replacedBy.Some? ==> t'.replacedBy == t.replacedBy)
    && (t.revokedAt.Some? ==> t'.replacedBy == t.replacedBy)
  }

  /** No deleted token comes back, and each surviving row has only been completed. */
  ghost predicate Evolves(s: State, s': State) {
    && s.next <= s'.next && s.now <= s'.now && s.signed <= s'.signed
    && (forall j :: j in s'.tokens && j < s.next ==> j in s.tokens && RowEvolves(s.tokens[j], s'.tokens[j]))
  }

  lemma RowsAfterPresenting(s: State, raw: Raw)
    requires IdsBelow(s.tokens, s.next) && LiveAreTips(s.tokens)
    ensures Evolves(s, Rotate(s, raw).0)
  {
  }

  lemma RowsAfterOneStep(s: State, op: Op)
    requires IdsBelow(s.tokens, s.next) && LiveAreTips(s.tokens)
    ensures Evolves(s, Step(s, op))
  {
    match op
    case Present(raw) => RowsAfterPresenting(s, raw);
    case _ =>
  }

  lemma EvolvesTransitively(s0: State, s1: State, s2: State)
    requires Evolves(s0, s1) && Evolves(s1, s2)
    ensures Evolves(s0, s2)
  {
  }

  lemma {:induction false} RowsAreWrittenOnce(s: State, ops: seq<Op>)
    requires Inv(s)
    ensures Evolves(s, Run(s, ops))
    decreases |ops|
  {
    if ops != [] {
      var s1 := Step(s, ops[0]);
      RowsAfterOneStep(s, ops[0]);
      StepKeepsInv(s, ops[0]);
      RowsAreWrittenOnce(s1, ops[1..]);
      EvolvesTransitively(s, s1, Run(s1, ops[1..]));
    }
  }

  // ---------- dead stays dead ----------

  /** Every token of `u` with an id below `bound` is revoked, and leads below `bound`. */
  ghost predicate Dead(s: State, u: UserId, bound: nat) {
    forall j :: j in s.tokens && j < bound && s.tokens[j].user == u ==>
      && s.tokens[j].revokedAt.Some?
      && (s.tokens[j].replacedBy.Some? ==> s.tokens[j].replacedBy.value < bound)
  }

  lemma RevokedUserIsDead(T: Table, u: UserId, now: nat, next: nat)
    requires LinksOk(T, next)
    ensures var T' := RevokeUser(T, u, now);
      LiveOf(T', u) == {}
      && forall j {:trigger T'[j].replacedBy} :: j in T' && T'[j].user == u ==>
           T'[j].revokedAt.Some? && (T'[j].replacedBy.Some? ==> T'[j].replacedBy.value < next)
  {
    forall j | j in T && T[j].replacedBy.Some? ensures T[j].replacedBy.value < next {
      assert T[j].replacedBy.value in T;
    }
  }

  /** A detected replay leaves its user without a live token. */
  lemma ReplayEndsEverySession(s: State, raw: Raw)
    requires Inv(s) && Rotate(s, raw).1.RevokedAll?
    ensures LiveOf(Rotate(s, raw).0.tokens, raw.sub) == {}
    ensures Dead(Rotate(s, raw).0, raw.sub, s.next)
    ensures Rotate(s, raw).0.next == s.next && Rotate(s, raw).0.signed == s.signed
  {
    RevokedUserIsDead(s.tokens, raw.sub, s.now, s.next);
  }

  lemma DeadStaysDead(s: State, s': State, u: UserId, bound: nat)
    requires Dead(s, u, bound) && bound <= s.next && Evolves(s, s')
    ensures Dead(s', u, bound)
  {
  }

  lemma DeadTokensFail(s: State, u: UserId, bound: nat, raw: Raw)
    requires Inv(s) && Dead(s, u, bound)
    requires raw in s.signed && raw.sub == u && raw.jti < bound
    ensures !Success(Rotate(s, raw).1)
  {
    if raw.jti in s.tokens {
      assert s.tokens[raw.jti].hash == raw;
    }
  }

  /** No run brings the dead tokens of a user back. */
  lemma DeadForever(s: State, ops: seq<Op>, u: UserId, bound: nat, earlier: Raw)
    requires Inv(s) && Dead(s, u, bound) && bound <= s.next
    requires earlier in s.signed && earlier.sub == u && earlier.jti < bound
    ensures !Success(Rotate(Run(s, ops), earlier).1)
  {
    var s' := Run(s, ops);
    RowsAreWrittenOnce(s, ops);
    DeadStaysDead(s, s', u, bound);
    RunKeepsInv(s, ops);
    DeadTokensFail(s', u, bound, earlier);
  }

  /**
   Once a replay has revoked the sessions of a user, no token signed for the
   user up to then is ever accepted again, whatever happens afterwards: new
   logins, rotations, resets.
   */
  lemma ReplayIsFinal(s: State, raw: Raw, ops: seq<Op>, earlier: Raw)
    requires Inv(s) && Rotate(s, raw).1.RevokedAll?
    requires earlier in s.signed && earlier.sub == raw.sub
    ensures !Success(Rotate(Run(Rotate(s, raw).0, ops), earlier).1)
  {
    ReplayEndsEverySession(s, raw);
    StepKeepsInv(s, Present(raw));
    assert Step(s, Present(raw)) == Rotate(s, raw).0;
    DeadForever(Rotate(s, raw).0, ops, raw.sub, s.next, earlier);
  }

  /** A grace answer hands back the old token: presented after the window, it ends every session. */
  lemma GraceTokenIsDoomed(s: State, raw: Raw, ops: seq<Op>)
    requires Inv(s) && Rotate(s, raw).1.Grace?
    requires Run(s, ops).now >= s.tokens[raw.jti].revokedAt.value + GRACE_MS
    ensures var o := Rotate(Run(s, ops), raw).1;
      o.InvalidToken? || o.NotFound? || o.RevokedAll?
  {
    RunKeepsInv(s, ops);
    RowsAreWrittenOnce(s, ops);
  }

  /** The reset token `tok` has been drawn and no account holds it. */
  ghost predicate Spent(s: State, tok: nat) {
    && tok < s.next
    && (forall u :: u in s.users && s.users[u].reset.Some? ==> s.users[u].reset.value.token != tok)
  }

  lemma {:induction false} SpentStaysSpent(s: State, ops: seq<Op>, tok: nat)
    requires Spent(s, tok)
    ensures Spent(Run(s, ops), tok)
    decreases |ops|
  {
    if ops != [] {
      SpentStaysSpent(Step(s, ops[0]), ops[1..], tok);
    }
  }

  /**
   A password reset deletes every session of its user and no other row, and
   leaves no link to a deleted row.
   */
  lemma ResetDeletesExactlyTheSessions(s: State, tok: nat, raw: Raw)
    requires Inv(s) && Redeemer(s, tok).Some?
    requires raw in s.signed && raw.jti in s.tokens
    ensures var s0 := ResetPassword(s, tok);
      && LinksOk(s0.tokens, s0.next)
      && (raw.jti in s0.tokens <==> raw.sub != Redeemer(s, tok).value)
      && (raw.jti in s0.tokens ==> s0.tokens[raw.jti] == s.tokens[raw.jti])
  {
    StepKeepsInv(s, UseReset(tok));
    assert s.tokens[raw.jti].hash == raw;
  }

  /** No token signed for the user before the reset is accepted again, and the reset cannot be repeated. */
  lemma ResetIsFinal(s: State, tok: nat, ops: seq<Op>, earlier: Raw)
    requires Inv(s) && Redeemer(s, tok).Some?
    requires earlier in s.signed && earlier.sub == Redeemer(s, tok).value
    ensures var s' := Run(ResetPassword(s, tok), ops);
      && (Rotate(s', earlier).1.InvalidToken? || Rotate(s', earlier).1.NotFound?)
      && Redeemer(s', tok) == None
  {
    var s0 := ResetPassword(s, tok);
    StepKeepsInv(s, UseReset(tok));
    RowsAreWrittenOnce(s0, ops);
    assert earlier.jti !in s0.tokens && earlier.jti < s0.next by {
      if earlier.jti in s.tokens { ResetDeletesExactlyTheSessions(s, tok, earlier); }
    }
    SpentStaysSpent(s0, ops, tok);
  }
}
