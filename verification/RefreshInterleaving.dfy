/**
 The refresh-token service with requests interleaved at every statement sent
 to the database: `rotateRefreshToken` and `resetPassword` use no transaction
 (src/auth/auth.service.ts).
 */
module RefreshInterleaving {
  import opened Collections
  import opened Wrappers
  import opened RefreshTokens
  import opened RefreshRuns

  type Request = nat

  /** The statement that a suspended request will execute next. */
  datatype Phase =
    | ReadReplacement(sub: UserId, replacement: Jti)
    | RevokeSessions(sub: UserId)
    | IssueNext(jti: Jti, user: UserId)
    | LinkOld(jti: Jti, issued: Jti, user: UserId)
    | DeleteSessions(user: UserId)

  datatype World = World(s: State, pool: map<Request, Phase>)

  datatype Move =
    | Begin(r: Request, raw: Raw)
    | BeginReset(r: Request, tok: nat)
    | Continue(r: Request)
    | Whole(op: Op)      // a request made of a single statement, or the environment

  function Done(w: World, r: Request): World {
    w.(pool := map q | q in w.pool && q != r :: w.pool[q])
  }

  function Wait(w: World, r: Request, p: Phase): World {
    w.(pool := w.pool[r := p])
  }

  /** Reads the presented row and decides, from that snapshot, what to do with it. */
  function ReadRow(s: State, raw: Raw): Option<Phase> {
    if !Verifies(s, raw) || raw.jti !in s.tokens then None
    else
      var t := s.tokens[raw.jti];
      if t.revokedAt.Some? then
        if t.revokedAt.value + GRACE_MS > s.now && t.replacedBy.Some? then
          Some(ReadReplacement(raw.sub, t.replacedBy.value))
        else Some(RevokeSessions(raw.sub))
      else if t.expiresAt < s.now || t.hash != raw || t.user !in s.users || !s.users[t.user].active then None
      else Some(IssueNext(raw.jti, t.user))
  }

  function Advance(w: World, r: Request): World
    requires r in w.pool
  {
    var s := w.s;
    match w.pool[r]
    case ReadReplacement(sub, n) =>
      if Live(s.tokens, n) && s.tokens[n].expiresAt > s.now then Done(w, r)
      else Wait(w, r, RevokeSessions(sub))
    case RevokeSessions(sub) =>
      Done(w.(s := s.(tokens := RevokeUser(s.tokens, sub, s.now))), r)
    case IssueNext(j, u) =>
      // the insert fails when the account has been deleted meanwhile
      if u in s.users then Wait(w.(s := Issue(s, u)), r, LinkOld(j, s.next, u)) else Done(w, r)
    case LinkOld(j, n, u) =>
      // the update fails when the row has been deleted meanwhile
      if j in s.tokens then Done(w.(s := s.(tokens := Link(s.tokens, j, n, s.now))), r) else Done(w, r)
    case DeleteSessions(u) =>
      Done(w.(s := s.(tokens := DeleteUser(s.tokens, u))), r)
  }

  predicate SingleStatement(op: Op) { !op.Present? && !op.UseReset? }

  ghost function Turn(w: World, m: Move): World {
    match m
    case Begin(r, raw) =>
      if r in w.pool then w else
        (match ReadRow(w.s, raw)
         case None => w
         case Some(p) => Wait(w, r, p))
    case BeginReset(r, tok) =>
      if r in w.pool then w else
        (match Redeemer(w.s, tok)
         case None => w
         case Some(u) => Wait(w.(s := ConsumeReset(w.s, u)), r, DeleteSessions(u)))
    case Continue(r) => if r in w.pool then Advance(w, r) else w
    case Whole(op) => if SingleStatement(op) then w.(s := Step(w.s, op)) else w
  }

  ghost function Moves(w: World, ms: seq<Move>): World
    decreases |ms|
  {
    if ms == [] then w else Moves(Turn(w, ms[0]), ms[1..])
  }

  lemma {:induction false} MovesInTwoParts(w: World, ms: seq<Move>, ns: seq<Move>)
    ensures Moves(w, ms + ns) == Moves(Moves(w, ms), ns)
    decreases |ms|
  {
    if ms == [] {
      assert ms + ns == ns;
    } else {
      assert (ms + ns)[1..] == ms[1..] + ns;
      MovesInTwoParts(Turn(w, ms[0]), ms[1..], ns);
    }
  }

  // ---------- refinement: an undisturbed request is the atomic handler ----------

  /** What the second and third turn do to a request that has read its row. */
  lemma ServedAfterReading(w: World, r: Request, raw: Raw, p: Phase)
    requires r !in w.pool && IdsBelow(w.s.tokens, w.s.next) && ReadRow(w.s, raw) == Some(p)
    ensures var w2 := Advance(Wait(w, r, p), r);
      (if r in w2.pool then Advance(w2, r) else w2) == World(Rotate(w.s, raw).0, w.pool)
  {
    var w1 := Wait(w, r, p);
    var w2 := Advance(w1, r);
    var w3 := if r in w2.pool then Advance(w2, r) else w2;
    assert w3.pool == w.pool;
  }

  lemma TwoTurns(w: World, a: Move, b: Move)
    ensures Moves(w, [a, b]) == Turn(Turn(w, a), b)
  {
    assert [a, b][1..] == [b];
    assert Moves(Turn(w, a), [b]) == Moves(Turn(Turn(w, a), b), [b][1..]);
  }

  lemma ThreeTurns(w: World, a: Move, b: Move, c: Move)
    ensures Moves(w, [a, b, c]) == Turn(Turn(Turn(w, a), b), c)
  {
    assert [a, b, c] == [a, b] + [c];
    MovesInTwoParts(w, [a, b], [c]);
    TwoTurns(w, a, b);
  }

  /** Three consecutive turns of a request serve it completely, as `Rotate` says. */
  lemma UndisturbedRotationIsAtomic(w: World, r: Request, raw: Raw)
    requires r !in w.pool && IdsBelow(w.s.tokens, w.s.next)
    ensures Moves(w, [Begin(r, raw), Continue(r), Continue(r)]) == World(Rotate(w.s, raw).0, w.pool)
  {
    ThreeTurns(w, Begin(r, raw), Continue(r), Continue(r));
    var p := ReadRow(w.s, raw);
    if p.Some? {
      ServedAfterReading(w, r, raw, p.value);
    }
  }

  /** Two consecutive turns of a password reset are `ResetPassword`. */
  lemma UndisturbedResetIsAtomic(w: World, r: Request, tok: nat)
    requires r !in w.pool
    ensures Moves(w, [BeginReset(r, tok), Continue(r)]) == World(ResetPassword(w.s, tok), w.pool)
  {
    var w1 := Turn(w, BeginReset(r, tok));
    var w2 := Turn(w1, Continue(r));
    TwoTurns(w, BeginReset(r, tok), Continue(r));
    assert w2.pool == w.pool;
  }

  // ---------- links survive every interleaving ----------

  /** The request `p` still holds the tokens it is rotating consistently. */
  ghost predicate PhaseOk(s: State, p: Phase) {
    match p
    case IssueNext(j, u) =>
      j < s.next && (j in s.tokens ==> s.tokens[j].user == u)
    case LinkOld(j, n, u) =>
      && j < n < s.next && Unreferenced(s.tokens, n)
      && (n in s.tokens ==> s.tokens[n].user == u)
      && (j in s.tokens ==> s.tokens[j].user == u && n in s.tokens)
    case _ => true
  }

  /** Each suspended request is consistent, and no two wait to link the same new token. */
  ghost predicate PoolOk(w: World) {
    && (forall r :: r in w.pool ==> PhaseOk(w.s, w.pool[r]))
    && (forall q, r ::
          (&& q in w.pool && r in w.pool && w.pool[q].LinkOld? && w.pool[r].LinkOld?
           && w.pool[q].issued == w.pool[r].issued) ==> q == r)
  }

  ghost predicate WorldOk(w: World) {
    LinksOk(w.s.tokens, w.s.next) && PoolOk(w)
  }

  /** The table has only lost whole users, gained nothing, and kept its links. */
  ghost predicate Shrunk(s: State, s': State) {
    && s'.next == s.next && s'.tokens.Keys <= s.tokens.Keys
    && (forall j {:trigger s'.tokens[j].replacedBy} {:trigger s'.tokens[j].user} :: j in s'.tokens ==>
          && s'.tokens[j].replacedBy == s.tokens[j].replacedBy && s'.tokens[j].user == s.tokens[j].user)
    && (forall i, j :: i in s'.tokens && j in s.tokens && s.tokens[i].user == s.tokens[j].user ==> j in s'.tokens)
  }

  lemma PhaseAfterShrinking(s: State, s': State, p: Phase)
    requires PhaseOk(s, p) && Shrunk(s, s')
    ensures PhaseOk(s', p)
  {
  }

  lemma PhaseAfterIssue(s: State, u: UserId, p: Phase)
    requires PhaseOk(s, p) && IdsBelow(s.tokens, s.next)
    ensures PhaseOk(Issue(s, u), p)
  {
  }

  lemma PhaseAfterLink(s: State, j: Jti, n: Jti, p: Phase)
    requires PhaseOk(s, p) && j in s.tokens && (p.LinkOld? ==> p.issued != n)
    ensures PhaseOk(s.(tokens := Link(s.tokens, j, n, s.now)), p)
  {
  }

  lemma AdvanceKeepsWorldOk(w: World, r: Request)
    requires WorldOk(w) && r in w.pool
    ensures WorldOk(Advance(w, r))
  {
    var s, s' := w.s, Advance(w, r).s;
    match w.pool[r]
    case IssueNext(j, u) =>
      if u in s.users {
        LinksAfterIssue(s, u);
        forall q | q in w.pool ensures PhaseOk(s', w.pool[q]) { PhaseAfterIssue(s, u, w.pool[q]); }
        assert PhaseOk(s', LinkOld(j, s.next, u));
      }
    case LinkOld(j, n, u) =>
      if j in s.tokens {
        LinksAfterLink(s.tokens, s.next, j, n, s.now);
        forall q | q in w.pool && q != r ensures PhaseOk(s', w.pool[q]) { PhaseAfterLink(s, j, n, w.pool[q]); }
      }
    case RevokeSessions(sub) =>
      LinksAfterRevoke(s.tokens, s'.tokens, s.next);
      forall q | q in w.pool ensures PhaseOk(s', w.pool[q]) { PhaseAfterShrinking(s, s', w.pool[q]); }
    case DeleteSessions(u) =>
      LinksAfterDelete(s.tokens, s.next, u);
      forall q | q in w.pool ensures PhaseOk(s', w.pool[q]) { PhaseAfterShrinking(s, s', w.pool[q]); }
    case ReadReplacement(sub, n) =>
  }

  lemma TurnKeepsWorldOk(w: World, m: Move)
    requires WorldOk(w)
    ensures WorldOk(Turn(w, m))
  {
    var s, s' := w.s, Turn(w, m).s;
    match m
    case Continue(r) => if r in w.pool { AdvanceKeepsWorldOk(w, r); }
    case Whole(op) =>
      if SingleStatement(op) {
        LinksAfterStep(s, op);
        forall r | r in w.pool ensures PhaseOk(s', w.pool[r]) {
          if op.Login? { PhaseAfterIssue(s, op.u, w.pool[r]); }
          else if op.Leave? || op.RemoveUser? { PhaseAfterShrinking(s, s', w.pool[r]); }
        }
      }
    case _ =>
  }

  /**
   However requests interleave, every link leads to an existing, later-issued
   token of the same user, no two tokens share a successor, and therefore
   following links ends (`RefreshRuns.Tip`).
   */
  lemma {:induction false} LinksSurviveEveryInterleaving(w: World, ms: seq<Move>)
    requires WorldOk(w)
    ensures WorldOk(Moves(w, ms))
    decreases |ms|
  {
    if ms != [] {
      TurnKeepsWorldOk(w, ms[0]);
      LinksSurviveEveryInterleaving(Turn(w, ms[0]), ms[1..]);
    }
  }

  // ---------- what two concurrent rotations of one token break ----------

  /** Both requests read, then both issue, then both link. */
  function Race(q: Request, r: Request, raw: Raw): seq<Move> {
    [Begin(q, raw), Begin(r, raw)] + ([Continue(q), Continue(r)] + [Continue(q), Continue(r)])
  }

  /** Two new tokens, and the presented one linked twice. */
  function Forked(s: State, j: Jti, u: UserId): State
    requires j in s.tokens
  {
    var s2 := Issue(Issue(s, u), u);
    s2.(tokens := Link(Link(s2.tokens, j, s.next, s.now), j, s.next + 1, s.now))
  }

  lemma MovesInThreeParts(w: World, a: seq<Move>, b: seq<Move>, c: seq<Move>)
    ensures Moves(w, a + (b + c)) == Moves(Moves(Moves(w, a), b), c)
  {
    MovesInTwoParts(w, a, b + c);
    MovesInTwoParts(Moves(w, a), b, c);
  }

  lemma PoolRestored(p0: map<Request, Phase>, p2: map<Request, Phase>, p4: map<Request, Phase>, q: Request, r: Request)
    requires q !in p0 && r !in p0
    requires p2.Keys == p0.Keys + {q, r} && p4.Keys == p2.Keys
    requires forall x :: x in p0 ==> p2[x] == p0[x]
    requires forall x :: x in p2 && x != q && x != r ==> p4[x] == p2[x]
    ensures (map x | x in p4 && x != q && x != r :: p4[x]) == p0
  {
  }

  /** The two requests stand at phases `p` and `p'`; every other request is as in `w`. */
  ghost predicate Racing(w: World, q: Request, r: Request, p: Phase, p': Phase, w': World) {
    && w'.pool.Keys == w.pool.Keys + {q, r} && w'.pool[q] == p && w'.pool[r] == p'
    && (forall x :: x in w.pool && x != q && x != r ==> w'.pool[x] == w.pool[x])
  }

  lemma OneIssues(w: World, r: Request, j: Jti, u: UserId)
    requires r in w.pool && w.pool[r] == IssueNext(j, u) && u in w.s.users
    ensures Turn(w, Continue(r)) == World(Issue(w.s, u), w.pool[r := LinkOld(j, w.s.next, u)])
    ensures u in Issue(w.s, u).users && Issue(w.s, u).next == w.s.next + 1
  {
  }

  lemma BothIssue(w: World, q: Request, r: Request, j: Jti, u: UserId)
    requires q != r && q in w.pool && r in w.pool && u in w.s.users
    requires w.pool[q] == w.pool[r] == IssueNext(j, u)
    ensures var w' := Moves(w, [Continue(q), Continue(r)]);
      && w'.s == Issue(Issue(w.s, u), u)
      && Racing(w, q, r, LinkOld(j, w.s.next, u), LinkOld(j, w.s.next + 1, u), w')
  {
    TwoTurns(w, Continue(q), Continue(r));
    OneIssues(w, q, j, u);
    OneIssues(Turn(w, Continue(q)), r, j, u);
  }

  lemma BothLink(w: World, q: Request, r: Request, j: Jti, n: Jti, u: UserId)
    requires q != r && q in w.pool && r in w.pool && j in w.s.tokens
    requires w.pool[q] == LinkOld(j, n, u) && w.pool[r] == LinkOld(j, n + 1, u)
    ensures var w' := Moves(w, [Continue(q), Continue(r)]);
      && w'.s == w.s.(tokens := Link(Link(w.s.tokens, j, n, w.s.now), j, n + 1, w.s.now))
      && w'.pool == (map p | p in w.pool && p != q && p != r :: w.pool[p])
  {
    TwoTurns(w, Continue(q), Continue(r));
  }

  lemma BothContinue(w: World, w2: World, q: Request, r: Request, j: Jti, u: UserId)
    requires q !in w.pool && r !in w.pool && q != r && u in w.s.users && j in w.s.tokens
    requires w2.s == w.s && Racing(w, q, r, IssueNext(j, u), IssueNext(j, u), w2)
    ensures Moves(Moves(w2, [Continue(q), Continue(r)]), [Continue(q), Continue(r)])
            == World(Forked(w.s, j, u), w.pool)
  {
    BothIssue(w2, q, r, j, u);
    var w4 := Moves(w2, [Continue(q), Continue(r)]);
    BothLink(w4, q, r, j, w.s.next, u);
    PoolRestored(w.pool, w2.pool, w4.pool, q, r);
  }

  lemma BothBegin(w: World, q: Request, r: Request, raw: Raw)
    requires q !in w.pool && r !in w.pool && q != r && ReadRow(w.s, raw).Some?
    ensures var w', p := Moves(w, [Begin(q, raw), Begin(r, raw)]), ReadRow(w.s, raw).value;
      w'.s == w.s && Racing(w, q, r, p, p, w')
  {
    TwoTurns(w, Begin(q, raw), Begin(r, raw));
  }

  lemma RaceOutcome(w: World, q: Request, r: Request, raw: Raw, u: UserId)
    requires q !in w.pool && r !in w.pool && q != r
    requires ReadRow(w.s, raw) == Some(IssueNext(raw.jti, u)) && u in w.s.users
    requires raw.jti in w.s.tokens
    ensures Moves(w, Race(q, r, raw)) == World(Forked(w.s, raw.jti, u), w.pool)
  {
    MovesInThreeParts(w, [Begin(q, raw), Begin(r, raw)], [Continue(q), Continue(r)], [Continue(q), Continue(r)]);
    BothBegin(w, q, r, raw);
    var w2 := Moves(w, [Begin(q, raw), Begin(r, raw)]);
    BothContinue(w, w2, q, r, raw.jti, u);
  }

  lemma AcceptedRow(s: State, raw: Raw)
    requires Inv(s) && Rotate(s, raw).1.Rotated?
    ensures IdsBelow(s.tokens, s.next) && Live(s.tokens, raw.jti) && s.tokens[raw.jti].user == raw.sub
    ensures raw.sub in s.users && ReadRow(s, raw) == Some(IssueNext(raw.jti, raw.sub))
  {
    assert s.tokens[raw.jti].hash == raw;
  }

  lemma ForkedTable(s: State, j: Jti, u: UserId)
    requires IdsBelow(s.tokens, s.next) && Live(s.tokens, j) && s.tokens[j].user == u
    ensures var n, T' := s.next, Forked(s, j, u).tokens;
      && j in T' && T'[j].replacedBy == Some(n + 1) && Live(T', n) && Live(T', n + 1)
      && |LiveOf(T', u)| == |LiveOf(s.tokens, u)| + 1
  {
    var n := s.next;
    assert n !in s.tokens && n + 1 !in s.tokens;
    assert LiveOf(Forked(s, j, u).tokens, u) == LiveOf(s.tokens, u) - {j} + {n} + {n + 1};
  }

  /**
   Presenting one acceptable token in two overlapping requests leaves two live
   successors where there was one live token, and overwrites the first link.
   */
  lemma RacingRotationsFork(w: World, q: Request, r: Request, raw: Raw)
    requires q !in w.pool && r !in w.pool && q != r
    requires Inv(w.s) && Rotate(w.s, raw).1.Rotated?
    ensures var n, w' := w.s.next, Moves(w, Race(q, r, raw));
      && w'.pool == w.pool
      && raw.jti in w'.s.tokens && w'.s.tokens[raw.jti].replacedBy == Some(n + 1)
      && Live(w'.s.tokens, n) && Live(w'.s.tokens, n + 1)
      && |LiveOf(w'.s.tokens, raw.sub)| == |LiveOf(w.s.tokens, raw.sub)| + 1
  {
    AcceptedRow(w.s, raw);
    RaceOutcome(w, q, r, raw, raw.sub);
    ForkedTable(w.s, raw.jti, raw.sub);
  }

  // ---------- rows that are gone ----------

  lemma DeletedStaysDeletedInOneTurn(w: World, m: Move, j: Jti)
    requires j !in w.s.tokens && j < w.s.next
    ensures j !in Turn(w, m).s.tokens
  {
  }

  lemma NextOnlyGrows(w: World, m: Move)
    ensures w.s.next <= Turn(w, m).s.next
  {
  }

  lemma {:induction false} DeletedStaysDeleted(w: World, ms: seq<Move>, j: Jti)
    requires j !in w.s.tokens && j < w.s.next
    ensures j !in Moves(w, ms).s.tokens
    decreases |ms|
  {
    if ms != [] {
      DeletedStaysDeletedInOneTurn(w, ms[0], j);
      NextOnlyGrows(w, ms[0]);
      DeletedStaysDeleted(Turn(w, ms[0]), ms[1..], j);
    }
  }
}
