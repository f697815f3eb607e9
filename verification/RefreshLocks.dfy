/**
 What goes wrong when a token is presented while another request rotates it,
 and exactly when: which presentation can lead to an overwritten link or to a
 session too many (src/auth/auth.service.ts:176-275).
 */
module RefreshLocks {
  import opened Collections
  import opened Wrappers
  import opened RefreshTokens
  import opened RefreshRuns
  import opened RefreshInterleaving

  // ---------- contended presentations ----------

  /** The old token of a rotation in progress. */
  function Held(p: Phase): Option<Jti> {
    match p
    case IssueNext(j, _) => Some(j)
    case LinkOld(j, _, _) => Some(j)
    case _ => None
  }

  ghost predicate HeldBy(w: World, r: Request, j: Jti) {
    r in w.pool && Held(w.pool[r]) == Some(j)
  }

  /** An acceptable token is presented while another request rotates it. */
  ghost predicate Contended(w: World, m: Move) {
    && m.Begin? && m.r !in w.pool
    && ReadRow(w.s, m.raw).Some? && ReadRow(w.s, m.raw).value.IssueNext?
    && exists q :: HeldBy(w, q, m.raw.jti)
  }

  /** No presentation of the schedule is contended. */
  ghost predicate Calm(w: World, ms: seq<Move>)
    decreases |ms|
  {
    ms == [] || (!Contended(w, ms[0]) && Calm(Turn(w, ms[0]), ms[1..]))
  }

  ghost predicate HeldOnce(w: World) {
    forall q, r, j :: HeldBy(w, q, j) && HeldBy(w, r, j) ==> q == r
  }

  /** The token being rotated has no link yet. */
  ghost predicate HeldAreUnlinked(w: World) {
    forall r :: r in w.pool && Held(w.pool[r]).Some? && Held(w.pool[r]).value in w.s.tokens ==>
      w.s.tokens[Held(w.pool[r]).value].replacedBy.None?
  }

  ghost predicate LockedOk(w: World) {
    WorldOk(w) && LiveAreTips(w.s.tokens) && HeldOnce(w) && HeldAreUnlinked(w)
  }

  /** Every table that atomic requests can reach, with no request in progress, is a place to start from. */
  lemma QuietWorldIsOk(s: State)
    requires Inv(s)
    ensures WorldOk(World(s, map[])) && LockedOk(World(s, map[]))
  {
  }

  lemma HeldOnceAfterTurn(w: World, m: Move)
    requires HeldOnce(w) && !Contended(w, m)
    ensures HeldOnce(Turn(w, m))
  {
    var w' := Turn(w, m);
    forall q, r, j | HeldBy(w', q, j) && HeldBy(w', r, j)
      ensures q == r
    {
      assert HeldBy(w, q, j) || (m.Begin? && q == m.r && m.r !in w.pool && j == m.raw.jti);
      assert HeldBy(w, r, j) || (m.Begin? && r == m.r && m.r !in w.pool && j == m.raw.jti);
    }
  }

  lemma TipsAfterTurn(w: World, m: Move)
    requires LiveAreTips(w.s.tokens)
    ensures LiveAreTips(Turn(w, m).s.tokens)
  {
    if m.Whole? { TipsAfterStep(w.s, m.op); }
  }

  /** Rows are unlinked or have the link they had. */
  ghost predicate LinksKept(T: Table, T': Table) {
    forall j {:trigger T'[j].replacedBy} :: j in T' && T'[j].replacedBy.Some? ==>
      j in T && T[j].replacedBy == T'[j].replacedBy
  }

  lemma LinksKeptByStep(s: State, op: Op)
    requires SingleStatement(op)
    ensures LinksKept(s.tokens, Step(s, op).tokens)
  {
  }

  lemma UnlinkedIfKept(w: World, w': World)
    requires HeldAreUnlinked(w) && LinksKept(w.s.tokens, w'.s.tokens)
    requires forall r :: r in w'.pool && Held(w'.pool[r]).Some? ==> r in w.pool && Held(w.pool[r]) == Held(w'.pool[r])
    ensures HeldAreUnlinked(w')
  {
    forall r | r in w'.pool && Held(w'.pool[r]).Some? && Held(w'.pool[r]).value in w'.s.tokens
      ensures w'.s.tokens[Held(w'.pool[r]).value].replacedBy.None?
    {
      assert Held(w.pool[r]) == Held(w'.pool[r]);
    }
  }

  lemma UnlinkedAfterBegin(w: World, r: Request, raw: Raw)
    requires LiveAreTips(w.s.tokens) && HeldAreUnlinked(w)
    ensures HeldAreUnlinked(Turn(w, Begin(r, raw)))
  {
    var p := ReadRow(w.s, raw);
    if r !in w.pool && p.Some? && p.value.IssueNext? {
      assert Live(w.s.tokens, p.value.jti);
    }
  }

  lemma UnlinkedAfterLink(w: World, r: Request)
    requires HeldOnce(w) && HeldAreUnlinked(w) && r in w.pool && w.pool[r].LinkOld?
    ensures HeldAreUnlinked(Advance(w, r))
  {
    var w', j := Advance(w, r), w.pool[r].jti;
    assert HeldBy(w, r, j);
    forall q | q in w'.pool && Held(w'.pool[q]).Some? && Held(w'.pool[q]).value in w'.s.tokens
      ensures w'.s.tokens[Held(w'.pool[q]).value].replacedBy.None?
    {
      assert HeldBy(w, q, Held(w.pool[q]).value);
    }
  }

  lemma UnlinkedAfterTurn(w: World, m: Move)
    requires LockedOk(w)
    ensures HeldAreUnlinked(Turn(w, m))
  {
    match m
    case Begin(r, raw) => UnlinkedAfterBegin(w, r, raw);
    case Continue(r) =>
      if r in w.pool && w.pool[r].LinkOld? {
        UnlinkedAfterLink(w, r);
      } else if r in w.pool {
        UnlinkedIfKept(w, Advance(w, r));
      }
    case BeginReset(_, _) => UnlinkedIfKept(w, Turn(w, m));
    case Whole(op) =>
      if SingleStatement(op) {
        LinksKeptByStep(w.s, op);
        UnlinkedIfKept(w, Turn(w, m));
      }
  }

  lemma LockedAfterTurn(w: World, m: Move)
    requires LockedOk(w) && !Contended(w, m)
    ensures LockedOk(Turn(w, m))
  {
    TurnKeepsWorldOk(w, m);
    TipsAfterTurn(w, m);
    HeldOnceAfterTurn(w, m);
    UnlinkedAfterTurn(w, m);
  }

  // ---------- links are written once ----------

  lemma LinkWrittenOnceInOneTurn(w: World, m: Move, j: Jti)
    requires LockedOk(w)
    requires j in w.s.tokens && j in Turn(w, m).s.tokens && w.s.tokens[j].replacedBy.Some?
    ensures Turn(w, m).s.tokens[j].replacedBy == w.s.tokens[j].replacedBy
  {
    if m.Continue? && m.r in w.pool && w.pool[m.r].LinkOld? {
      assert Held(w.pool[m.r]) == Some(w.pool[m.r].jti);
    } else if m.Whole? && SingleStatement(m.op) {
      RowsAfterOneStep(w.s, m.op);
    }
  }

  /** Without contended presentations, a link is never overwritten. */
  lemma {:induction false} LockedLinksAreWrittenOnce(w: World, ms: seq<Move>, j: Jti)
    requires LockedOk(w) && Calm(w, ms)
    requires j in w.s.tokens && w.s.tokens[j].replacedBy.Some?
    ensures j in Moves(w, ms).s.tokens ==> Moves(w, ms).s.tokens[j].replacedBy == w.s.tokens[j].replacedBy
    decreases |ms|
  {
    if ms != [] {
      var w1 := Turn(w, ms[0]);
      LockedAfterTurn(w, ms[0]);
      if j in w1.s.tokens {
        LinkWrittenOnceInOneTurn(w, ms[0], j);
        LockedLinksAreWrittenOnce(w1, ms[1..], j);
      } else {
        NextOnlyGrows(w, ms[0]);
        DeletedStaysDeleted(w1, ms[1..], j);
      }
    }
  }

  // ---------- sessions ----------

  /** A request is about to link, and so to revoke, the token. */
  ghost predicate Doomed(w: World, j: Jti) {
    exists r :: HeldBy(w, r, j) && w.pool[r].LinkOld?
  }

  /** Live tokens of `u` that no request is about to revoke. */
  ghost function Kept(w: World, u: UserId): set<Jti> {
    set j | j in LiveOf(w.s.tokens, u) && !Doomed(w, j)
  }

  /** Requests about to issue a token to `u` whose old token has been revoked or deleted meanwhile. */
  ghost function Owed(w: World, u: UserId): set<Request> {
    set r | r in w.pool && w.pool[r].IssueNext? && w.pool[r].user == u && !Live(w.s.tokens, w.pool[r].jti)
  }

  /** The live tokens that `u` has once the rotations in progress are over. */
  ghost function Sessions(w: World, u: UserId): nat {
    |Kept(w, u)| + |Owed(w, u)|
  }

  /** The pool holds the same rotations: other requests hold no token. */
  ghost predicate SameRotations(w: World, w': World) {
    forall r :: (r in w.pool && Held(w.pool[r]).Some?) || (r in w'.pool && Held(w'.pool[r]).Some?) ==>
      r in w.pool && r in w'.pool && w.pool[r] == w'.pool[r]
  }

  ghost function HeldTokens(w: World, rs: set<Request>): set<Jti>
    requires forall r :: r in rs ==> r in w.pool && Held(w.pool[r]).Some?
  {
    set r | r in rs :: Held(w.pool[r]).value
  }

  lemma {:induction false} HeldTokensCount(w: World, rs: set<Request>)
    requires HeldOnce(w) && forall r :: r in rs ==> r in w.pool && Held(w.pool[r]).Some?
    ensures |HeldTokens(w, rs)| == |rs|
  {
    if rs != {} {
      var r :| r in rs;
      var j, rest := Held(w.pool[r]).value, rs - {r};
      HeldTokensCount(w, rest);
      assert HeldBy(w, r, j);
      forall q | q in rest ensures Held(w.pool[q]).value != j {
        assert HeldBy(w, q, Held(w.pool[q]).value);
      }
      assert HeldTokens(w, rs) == HeldTokens(w, rest) + {j};
    }
  }

  lemma DoomedAmongSame(w: World, w': World, j: Jti)
    requires SameRotations(w, w')
    ensures Doomed(w, j) <==> Doomed(w', j)
  {
    if Doomed(w, j) {
      var r :| HeldBy(w, r, j) && w.pool[r].LinkOld?;
      assert HeldBy(w', r, j);
    }
    if Doomed(w', j) {
      var r :| HeldBy(w', r, j) && w'.pool[r].LinkOld?;
      assert HeldBy(w, r, j);
    }
  }

  /** Rotations whose old token has just been lost, and which now owe a token. */
  ghost function Newly(w: World, w': World, u: UserId): set<Request> {
    Owed(w', u) - Owed(w, u)
  }

  lemma NewlyOwedHeldAKeptToken(w: World, w': World, u: UserId, r: Request)
    requires LockedOk(w) && SameRotations(w, w') && r in Newly(w, w', u)
    ensures r in w.pool && Held(w.pool[r]).Some?
    ensures Held(w.pool[r]).value in Kept(w, u) && Held(w.pool[r]).value !in LiveOf(w'.s.tokens, u)
  {
    assert Held(w'.pool[r]).Some?;
    var j := Held(w.pool[r]).value;
    assert PhaseOk(w.s, w.pool[r]) && HeldBy(w, r, j);
    assert !Doomed(w, j);
  }

  lemma CountTheLost(kept: set<Jti>, kept': set<Jti>, lost: set<Jti>, extra: set<Jti>)
    requires lost <= kept && kept' <= kept + extra && kept' !! lost
    ensures |kept'| <= |kept| - |lost| + |extra|
  {
    assert kept == (kept - lost) + lost;
    SubsetIsNoLarger(kept', (kept - lost) + extra);
  }

  /** Losing live tokens does not add sessions: a rotation whose old token is lost takes its place. */
  lemma FewerSessions(w: World, w': World, u: UserId, extra: set<Jti>)
    requires LockedOk(w) && SameRotations(w, w')
    requires LiveOf(w'.s.tokens, u) <= LiveOf(w.s.tokens, u) + extra && |extra| <= 1
    ensures Sessions(w', u) <= Sessions(w, u) + |extra|
  {
    var newly := Newly(w, w', u);
    forall r | r in newly
      ensures r in w.pool && Held(w.pool[r]).Some?
      ensures Held(w.pool[r]).value in Kept(w, u) && Held(w.pool[r]).value !in LiveOf(w'.s.tokens, u)
    {
      NewlyOwedHeldAKeptToken(w, w', u, r);
    }
    HeldTokensCount(w, newly);
    forall j ensures Doomed(w, j) <==> Doomed(w', j) {
      DoomedAmongSame(w, w', j);
    }
    CountTheLost(Kept(w, u), Kept(w', u), HeldTokens(w, newly), extra);
    SubsetIsNoLarger(Owed(w', u), Owed(w, u) + newly);
  }

  /** Live tokens come from logins and rotations only. */
  lemma LiveAfterOther(w: World, m: Move, u: UserId)
    requires m.Continue? && m.r in w.pool ==> Held(w.pool[m.r]).None?
    ensures LiveOf(Turn(w, m).s.tokens, u)
            <= LiveOf(w.s.tokens, u) + if m == Whole(Login(u)) then {w.s.next} else {}
  {
  }

  lemma SessionsAfterOther(w: World, m: Move, u: UserId)
    requires LockedOk(w) && SameRotations(w, Turn(w, m))
    requires m.Continue? && m.r in w.pool ==> Held(w.pool[m.r]).None?
    ensures Sessions(Turn(w, m), u) <= Sessions(w, u) + if m == Whole(Login(u)) then 1 else 0
  {
    LiveAfterOther(w, m, u);
    FewerSessions(w, Turn(w, m), u, if m == Whole(Login(u)) then {w.s.next} else {});
  }

  /** A presentation that is accepted for rotation leaves the count as it is. */
  lemma SessionsAfterBegin(w: World, r: Request, raw: Raw, u: UserId)
    requires r !in w.pool && ReadRow(w.s, raw).Some? && ReadRow(w.s, raw).value.IssueNext?
    ensures Sessions(Turn(w, Begin(r, raw)), u) == Sessions(w, u)
  {
    var w' := Turn(w, Begin(r, raw));
    forall j ensures Doomed(w', j) <==> Doomed(w, j) {
      if Doomed(w', j) {
        var q :| HeldBy(w', q, j) && w'.pool[q].LinkOld?;
        assert HeldBy(w, q, j);
      }
      if Doomed(w, j) {
        var q :| HeldBy(w, q, j) && w.pool[q].LinkOld?;
        assert HeldBy(w', q, j);
      }
    }
    assert Kept(w', u) == Kept(w, u);
    assert Owed(w', u) == Owed(w, u);
  }

  lemma DoomedAfterIssue(w: World, r: Request, x: Jti)
    requires r in w.pool && w.pool[r].IssueNext? && w.pool[r].user in w.s.users
    ensures Doomed(Advance(w, r), x) <==> Doomed(w, x) || x == w.pool[r].jti
  {
    var w' := Advance(w, r);
    assert HeldBy(w', r, w.pool[r].jti);
    if Doomed(w, x) {
      var q :| HeldBy(w, q, x) && w.pool[q].LinkOld?;
      assert HeldBy(w', q, x);
    }
    if Doomed(w', x) {
      var q :| HeldBy(w', q, x) && w'.pool[q].LinkOld?;
      assert q != r ==> HeldBy(w, q, x);
    }
  }

  lemma NextIsNotDoomed(w: World)
    requires WorldOk(w)
    ensures !Doomed(w, w.s.next) && w.s.next !in w.s.tokens
  {
    forall q | q in w.pool ensures !HeldBy(w, q, w.s.next) {
      assert PhaseOk(w.s, w.pool[q]);
    }
  }

  lemma KeptAfterIssue(w: World, r: Request, u: UserId)
    requires WorldOk(w) && r in w.pool && w.pool[r].IssueNext? && w.pool[r].user in w.s.users
    ensures Kept(Advance(w, r), u) == if w.pool[r].user == u then Kept(w, u) - {w.pool[r].jti} + {w.s.next} else Kept(w, u)
  {
    var IssueNext(j, owner) := w.pool[r];
    var w' := Advance(w, r);
    NextIsNotDoomed(w);
    assert PhaseOk(w.s, w.pool[r]);
    forall x ensures Doomed(w', x) <==> Doomed(w, x) || x == j {
      DoomedAfterIssue(w, r, x);
    }
    assert LiveOf(w'.s.tokens, u) == LiveOf(w.s.tokens, u) + if owner == u then {w.s.next} else {};
    assert owner != u ==> j !in LiveOf(w.s.tokens, u);
  }

  lemma OwedAfterIssue(w: World, r: Request, u: UserId)
    requires WorldOk(w) && r in w.pool && w.pool[r].IssueNext? && w.pool[r].user in w.s.users
    ensures Owed(Advance(w, r), u) == Owed(w, u) - {r}
  {
    var w' := Advance(w, r);
    forall q | q in w.pool && q != r && w.pool[q].IssueNext?
      ensures Live(w'.s.tokens, w.pool[q].jti) <==> Live(w.s.tokens, w.pool[q].jti)
    {
      assert PhaseOk(w.s, w.pool[q]);
    }
  }

  /**
   The new token takes the place of the old one, or of the promise to replace
   it, unless another request is about to revoke the old one as well.
   */
  lemma SessionsAfterIssue(w: World, r: Request, u: UserId)
    requires WorldOk(w) && r in w.pool && w.pool[r].IssueNext? && w.pool[r].user in w.s.users
    ensures
      var j := w.pool[r].jti;
      Sessions(Advance(w, r), u)
      == Sessions(w, u) + if w.pool[r].user == u && Live(w.s.tokens, j) && Doomed(w, j) then 1 else 0
  {
    var j := w.pool[r].jti;
    KeptAfterIssue(w, r, u);
    OwedAfterIssue(w, r, u);
    NextIsNotDoomed(w);
    assert PhaseOk(w.s, w.pool[r]);
    if w.pool[r].user == u {
      assert r in Owed(w, u) <==> !Live(w.s.tokens, j);
      assert j in Kept(w, u) <==> Live(w.s.tokens, j) && !Doomed(w, j);
    }
  }

  /** A request that ends without issuing a token. */
  lemma SessionsAfterGivingUp(w: World, r: Request, u: UserId)
    requires r in w.pool && w.pool[r].IssueNext? && w.pool[r].user !in w.s.users
    ensures Sessions(Advance(w, r), u) <= Sessions(w, u)
  {
    var w' := Advance(w, r);
    forall x | Doomed(w, x) ensures Doomed(w', x) {
      var q :| HeldBy(w, q, x) && w.pool[q].LinkOld?;
      assert HeldBy(w', q, x);
    }
    SubsetIsNoLarger(Kept(w', u), Kept(w, u));
    SubsetIsNoLarger(Owed(w', u), Owed(w, u));
  }

  /** The link revokes the token that was about to be revoked. */
  lemma SessionsAfterLink(w: World, r: Request, u: UserId)
    requires LockedOk(w) && r in w.pool && w.pool[r].LinkOld?
    ensures Sessions(Advance(w, r), u) <= Sessions(w, u)
  {
    var j, w' := w.pool[r].jti, Advance(w, r);
    assert HeldBy(w, r, j);
    forall x | Doomed(w, x) && x != j ensures Doomed(w', x) {
      var q :| HeldBy(w, q, x) && w.pool[q].LinkOld?;
      assert HeldBy(w', q, x);
    }
    forall q | q in Owed(w', u) ensures q in Owed(w, u) {
      assert HeldBy(w, q, w.pool[q].jti);
    }
    SubsetIsNoLarger(Kept(w', u), Kept(w, u));
    SubsetIsNoLarger(Owed(w', u), Owed(w, u));
  }

  /** Nothing but a login creates a session. */
  lemma SessionsAfterTurn(w: World, m: Move, u: UserId)
    requires LockedOk(w)
    ensures Sessions(Turn(w, m), u) <= Sessions(w, u) + if m == Whole(Login(u)) then 1 else 0
  {
    if m.Continue? && m.r in w.pool && w.pool[m.r].IssueNext? {
      var j := w.pool[m.r].jti;
      assert HeldBy(w, m.r, j);
      assert !Doomed(w, j);
      if w.pool[m.r].user in w.s.users {
        SessionsAfterIssue(w, m.r, u);
      } else {
        SessionsAfterGivingUp(w, m.r, u);
      }
    } else if m.Continue? && m.r in w.pool && w.pool[m.r].LinkOld? {
      SessionsAfterLink(w, m.r, u);
    } else if m.Begin? && m.r !in w.pool && ReadRow(w.s, m.raw).Some? && ReadRow(w.s, m.raw).value.IssueNext? {
      SessionsAfterBegin(w, m.r, m.raw, u);
    } else {
      SessionsAfterOther(w, m, u);
    }
  }

  ghost function LoginsIn(ms: seq<Move>, u: UserId): nat {
    if ms == [] then 0 else (if ms[0] == Whole(Login(u)) then 1 else 0) + LoginsIn(ms[1..], u)
  }

  lemma {:induction false} LockedSessions(w: World, ms: seq<Move>, u: UserId)
    requires LockedOk(w) && Calm(w, ms)
    ensures LockedOk(Moves(w, ms))
    ensures Sessions(Moves(w, ms), u) <= Sessions(w, u) + LoginsIn(ms, u)
    decreases |ms|
  {
    if ms != [] {
      var w1 := Turn(w, ms[0]);
      SessionsAfterTurn(w, ms[0], u);
      LockedAfterTurn(w, ms[0]);
      LockedSessions(w1, ms[1..], u);
    }
  }

  lemma SessionsWhenQuiet(w: World, u: UserId)
    requires w.pool == map[]
    ensures Sessions(w, u) == |LiveOf(w.s.tokens, u)|
  {
    assert Kept(w, u) == LiveOf(w.s.tokens, u) && Owed(w, u) == {};
  }

  /**
   Without contended presentations, however requests interleave: once no request
   is in progress, a user holds at most one live token for each login.
   */
  lemma LockedRunsNeverFork(w: World, ms: seq<Move>, u: UserId)
    requires LockedOk(w) && Calm(w, ms) && w.pool == map[] && Moves(w, ms).pool == map[]
    ensures |LiveOf(Moves(w, ms).s.tokens, u)| <= |LiveOf(w.s.tokens, u)| + LoginsIn(ms, u)
  {
    LockedSessions(w, ms, u);
    SessionsWhenQuiet(w, u);
    SessionsWhenQuiet(Moves(w, ms), u);
  }

  // ---------- what a contended presentation can lead to ----------

  lemma {:induction false} ContinuesAreCalm(w: World, ms: seq<Move>)
    requires forall m :: m in ms ==> m.Continue?
    ensures Calm(w, ms)
    decreases |ms|
  {
    if ms != [] {
      assert ms[0] in ms;
      assert forall m :: m in ms[1..] ==> m in ms;
      ContinuesAreCalm(Turn(w, ms[0]), ms[1..]);
    }
  }

  /** Both requests about to link the same token, each to a token of its own. */
  ghost predicate BothAboutToLink(w: World, q: Request, r: Request, j: Jti) {
    && q != r && q in w.pool && r in w.pool && w.pool[q].LinkOld? && w.pool[r].LinkOld?
    && w.pool[q].jti == w.pool[r].jti == j && w.pool[q].issued != w.pool[r].issued && j in w.s.tokens
  }

  /** The turns that bring both there: the holder issues its token if it has not yet, then the newcomer does. */
  function BothIssueNow(p: Phase, q: Request, r: Request): seq<Move> {
    if p.IssueNext? then [Continue(q), Continue(r)] else [Continue(r)]
  }

  lemma OneTurn(w: World, m: Move)
    ensures Moves(w, [m]) == Turn(w, m)
  {
    assert [m][1..] == [];
    assert Moves(Turn(w, m), []) == Turn(w, m);
  }

  /** The holder has issued and the newcomer has read: the newcomer issues one session too many. */
  lemma NewcomerIssues(w: World, q: Request, r: Request, j: Jti, u: UserId)
    requires WorldOk(w) && q != r && q in w.pool && w.pool[q].LinkOld? && w.pool[q].jti == j
    requires r in w.pool && w.pool[r] == IssueNext(j, u) && u in w.s.users && Live(w.s.tokens, j)
    ensures BothAboutToLink(Turn(w, Continue(r)), q, r, j)
    ensures Sessions(Turn(w, Continue(r)), u) == Sessions(w, u) + 1
  {
    OneIssues(w, r, j, u);
    assert HeldBy(w, q, j) && Doomed(w, j);
    assert PhaseOk(w.s, w.pool[q]) && PhaseOk(w.s, w.pool[r]);
    SessionsAfterIssue(w, r, u);
  }

  lemma HolderIssues(w: World, q: Request, r: Request, j: Jti, u: UserId)
    requires WorldOk(w) && q != r && q in w.pool && w.pool[q] == IssueNext(j, u) && !Doomed(w, j)
    requires r in w.pool && w.pool[r] == IssueNext(j, u) && u in w.s.users && Live(w.s.tokens, j)
    ensures
      var v := Turn(w, Continue(q));
      && WorldOk(v) && q in v.pool && v.pool[q].LinkOld? && v.pool[q].jti == j
      && r in v.pool && v.pool[r] == IssueNext(j, u) && u in v.s.users && Live(v.s.tokens, j)
      && Sessions(v, u) == Sessions(w, u)
  {
    OneIssues(w, q, j, u);
    TurnKeepsWorldOk(w, Continue(q));
    assert PhaseOk(w.s, w.pool[q]);
    SessionsAfterIssue(w, q, u);
  }

  lemma ContendedRequestsMeet(w: World, q: Request, r: Request, raw: Raw)
    requires LockedOk(w) && HeldBy(w, q, raw.jti) && r !in w.pool
    requires ReadRow(w.s, raw).Some? && ReadRow(w.s, raw).value.IssueNext?
    ensures
      var w1, u := Turn(w, Begin(r, raw)), w.s.tokens[raw.jti].user;
      var v := Moves(w1, BothIssueNow(w.pool[q], q, r));
      BothAboutToLink(v, q, r, raw.jti) && Sessions(v, u) == Sessions(w, u) + 1
  {
    var w1, j, u := Turn(w, Begin(r, raw)), raw.jti, w.s.tokens[raw.jti].user;
    SessionsAfterBegin(w, r, raw, u);
    TurnKeepsWorldOk(w, Begin(r, raw));
    assert PhaseOk(w.s, w.pool[q]);
    if w.pool[q].IssueNext? {
      forall p ensures !(HeldBy(w1, p, j) && w1.pool[p].LinkOld?) {
        assert HeldBy(w1, p, j) && p != r ==> HeldBy(w, p, j);
      }
      HolderIssues(w1, q, r, j, u);
      NewcomerIssues(Turn(w1, Continue(q)), q, r, j, u);
      TwoTurns(w1, Continue(q), Continue(r));
    } else {
      NewcomerIssues(w1, q, r, j, u);
      OneTurn(w1, Continue(r));
    }
  }

  /** The row `j` is linked in both worlds, to different tokens. */
  ghost predicate Relinked(w: World, w': World, j: Jti) {
    && j in w.s.tokens && j in w'.s.tokens && w.s.tokens[j].replacedBy.Some?
    && w'.s.tokens[j].replacedBy != w.s.tokens[j].replacedBy
  }

  lemma BothLinksOverwrite(v: World, q: Request, r: Request, j: Jti)
    requires BothAboutToLink(v, q, r, j)
    ensures Relinked(Moves(v, [Continue(q)]), Moves(v, [Continue(q)] + [Continue(r)]), j)
  {
    OneTurn(v, Continue(q));
    TwoTurns(v, Continue(q), Continue(r));
    assert [Continue(q)] + [Continue(r)] == [Continue(q), Continue(r)];
  }

  /** Some calm continuation of the move overwrites a link. */
  ghost predicate CanOverwrite(w: World) {
    exists ms, ns, j :: Calm(w, ms + ns) && Relinked(Moves(w, ms), Moves(w, ms + ns), j)
  }

  lemma RelinkedAfter(w: World, before: seq<Move>, ms: seq<Move>, ns: seq<Move>, j: Jti)
    requires Relinked(Moves(Moves(w, before), ms), Moves(Moves(w, before), ms + ns), j)
    ensures Relinked(Moves(w, before + ms), Moves(w, (before + ms) + ns), j)
  {
    assert Moves(w, before + ms) == Moves(Moves(w, before), ms) by {
      MovesInTwoParts(w, before, ms);
    }
    assert Moves(w, (before + ms) + ns) == Moves(Moves(w, before), ms + ns) by {
      MovesInTwoParts(w, before, ms + ns);
      assert (before + ms) + ns == before + (ms + ns);
    }
  }

  lemma ContendedOverwrites(w: World, m: Move)
    requires LockedOk(w) && Contended(w, m)
    ensures CanOverwrite(Turn(w, m))
  {
    var q :| HeldBy(w, q, m.raw.jti);
    var w1, set0 := Turn(w, m), BothIssueNow(w.pool[q], q, m.r);
    ContendedRequestsMeet(w, q, m.r, m.raw);
    BothLinksOverwrite(Moves(w1, set0), q, m.r, m.raw.jti);
    RelinkedAfter(w1, set0, [Continue(q)], [Continue(m.r)], m.raw.jti);
    ContinuesAreCalm(w1, (set0 + [Continue(q)]) + [Continue(m.r)]);
  }

  lemma {:induction false} CalmPrefix(w: World, ms: seq<Move>, ns: seq<Move>)
    requires Calm(w, ms + ns)
    ensures Calm(w, ms) && Calm(Moves(w, ms), ns)
    decreases |ms|
  {
    if ms == [] {
      assert ms + ns == ns;
    } else {
      assert (ms + ns)[0] == ms[0] && (ms + ns)[1..] == ms[1..] + ns;
      CalmPrefix(Turn(w, ms[0]), ms[1..], ns);
    }
  }

  lemma UncontendedNeverOverwrites(w: World, m: Move, ms: seq<Move>, ns: seq<Move>, j: Jti)
    requires LockedOk(w) && !Contended(w, m) && Calm(Turn(w, m), ms + ns)
    ensures !Relinked(Moves(Turn(w, m), ms), Moves(Turn(w, m), ms + ns), j)
  {
    var w1 := Turn(w, m);
    LockedAfterTurn(w, m);
    CalmPrefix(w1, ms, ns);
    LockedSessions(w1, ms, 0);
    MovesInTwoParts(w1, ms, ns);
    var v := Moves(w1, ms);
    if j in v.s.tokens && v.s.tokens[j].replacedBy.Some? {
      LockedLinksAreWrittenOnce(v, ns, j);
    }
  }

  /**
   A move can lead to an overwritten link, through a continuation without
   further contended presentations, if and only if it is contended: it presents
   a token, still acceptable, that another request has read or is about to link.
   */
  lemma OverwritesExactly(w: World, m: Move)
    requires LockedOk(w)
    ensures CanOverwrite(Turn(w, m)) <==> Contended(w, m)
  {
    if Contended(w, m) {
      ContendedOverwrites(w, m);
    } else {
      forall ms, ns, j | Calm(Turn(w, m), ms + ns)
        ensures !Relinked(Moves(Turn(w, m), ms), Moves(Turn(w, m), ms + ns), j)
      {
        UncontendedNeverOverwrites(w, m, ms, ns, j);
      }
    }
  }

  /** Some calm continuation gives a user a session that no login accounts for. */
  ghost predicate CanFork(w: World, m: Move) {
    exists ms, u :: Calm(Turn(w, m), ms) && Sessions(Moves(Turn(w, m), ms), u) > Sessions(w, u) + LoginsIn([m] + ms, u)
  }

  lemma {:induction false} ContinuesAreNotLogins(ms: seq<Move>, u: UserId)
    requires forall m :: m in ms ==> m.Continue?
    ensures LoginsIn(ms, u) == 0
  {
    if ms != [] {
      assert ms[0] in ms;
      assert forall m :: m in ms[1..] ==> m in ms;
      ContinuesAreNotLogins(ms[1..], u);
    }
  }

  lemma ContendedForks(w: World, m: Move)
    requires LockedOk(w) && Contended(w, m)
    ensures CanFork(w, m)
  {
    var q :| HeldBy(w, q, m.raw.jti);
    var ms, u := BothIssueNow(w.pool[q], q, m.r), w.s.tokens[m.raw.jti].user;
    ContendedRequestsMeet(w, q, m.r, m.raw);
    ContinuesAreCalm(Turn(w, m), ms);
    ContinuesAreNotLogins(ms, u);
    assert ([m] + ms)[0] == m && ([m] + ms)[1..] == ms;
  }

  lemma UncontendedNeverForks(w: World, m: Move, ms: seq<Move>, u: UserId)
    requires LockedOk(w) && !Contended(w, m) && Calm(Turn(w, m), ms)
    ensures Sessions(Moves(Turn(w, m), ms), u) <= Sessions(w, u) + LoginsIn([m] + ms, u)
  {
    LockedAfterTurn(w, m);
    SessionsAfterTurn(w, m, u);
    LockedSessions(Turn(w, m), ms, u);
    assert ([m] + ms)[0] == m && ([m] + ms)[1..] == ms;
  }

  /** The same condition decides whether a user can end up with more sessions than logins. */
  lemma ForksExactly(w: World, m: Move)
    requires LockedOk(w)
    ensures CanFork(w, m) <==> Contended(w, m)
  {
    if Contended(w, m) {
      ContendedForks(w, m);
    } else {
      forall ms, u | Calm(Turn(w, m), ms)
        ensures Sessions(Moves(Turn(w, m), ms), u) <= Sessions(w, u) + LoginsIn([m] + ms, u)
      {
        UncontendedNeverForks(w, m, ms, u);
      }
    }
  }
}
