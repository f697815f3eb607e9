/**
 What every run of the invitation service keeps
 (src/modules/invitation/invitation.service.ts).
 */
module InvitationRuns {
  import opened Wrappers
  import opened Invitations

  datatype Op =
    | DoSend(r: SendRequest)
    | DoResend(i: InvId, inviter: UserId, token: string)
    | DoValidate(token: string)
    | DoComplete(token: string)
    | DoCancel(i: InvId, org: OrgId)
    | Tick(ms: nat)

  function Step(s: State, op: Op): State {
    match op
    case DoSend(r) => Send(s, r).0
    case DoResend(i, inviter, token) => Resend(s, i, inviter, token).0
    case DoValidate(token) => Check(s, token).0
    case DoComplete(token) => Complete(s, token).0
    case DoCancel(i, org) => Cancel(s, i, org).0
    case Tick(ms) => s.(now := s.now + ms)
  }

  function Run(s: State, ops: seq<Op>): State
    decreases |ops|
  {
    if ops == [] then s else Run(Step(s, ops[0]), ops[1..])
  }

  // ---------- the invariant ----------

  type Table = map<InvId, Invitation>

  ghost predicate IsPending(invs: Table, i: InvId) {
    i in invs && invs[i].status == Pending
  }

  ghost predicate SamePair(invs: Table, i: InvId, j: InvId)
    requires i in invs && j in invs
  {
    invs[i].email == invs[j].email && invs[i].org == invs[j].org
  }

  /** A pending invitation is the newest for its address and organisation. */
  ghost predicate PendingIsNewest(invs: Table) {
    forall i, j :: IsPending(invs, i) && j in invs && SamePair(invs, i, j) ==> j <= i
  }

  /** A member of an organisation has no pending invitation to it. */
  ghost predicate MembersAreNotInvited(users: map<UserId, User>, invs: Table) {
    forall i :: IsPending(invs, i) ==> !Member(users, invs[i].email, invs[i].org)
  }

  ghost predicate ExpiredIsPast(invs: Table, now: nat) {
    forall i :: i in invs && invs[i].status == Expired ==> invs[i].expiresAt < now
  }

  ghost predicate TokensUnique(invs: Table, next: InvId) {
    && (forall i :: i in invs ==> i < next)
    && (forall i, j :: (i in invs && j in invs && invs[i].token == invs[j].token) ==> i == j)
  }

  ghost predicate AccountsUnique(users: map<UserId, User>, nextUser: UserId) {
    && (forall u :: u in users ==> u < nextUser)
    && (forall u, v ::
          (u in users && v in users && users[u].email == users[v].email && users[u].org == users[v].org) ==> u == v)
  }

  ghost predicate Inv(s: State) {
    && AccountsUnique(s.users, s.nextUser)
    && TokensUnique(s.invitations, s.next)
    && PendingIsNewest(s.invitations)
    && MembersAreNotInvited(s.users, s.invitations)
    && ExpiredIsPast(s.invitations, s.now)
  }

  lemma RetiringKeepsInv(s: State, i: InvId, status: Status)
    requires Inv(s) && i in s.invitations && status != Pending
    requires status == Expired ==> s.invitations[i].expiresAt < s.now
    ensures Inv(SetStatus(s, i, status))
  {
    var invs, invs' := s.invitations, SetStatus(s, i, status).invitations;
    assert forall j :: IsPending(invs', j) ==> IsPending(invs, j) && invs'[j] == invs[j];
    forall j, k | IsPending(invs', j) && k in invs' && SamePair(invs', j, k) ensures k <= j {
      assert SamePair(invs, j, k);
    }
  }

  lemma NewInvitationIsNewest(invs: Table, next: InvId, inv: Invitation)
    requires PendingIsNewest(invs) && forall i :: i in invs ==> i < next
    requires forall i :: IsPending(invs, i) ==> !For(invs[i], inv.email, inv.org)
    ensures PendingIsNewest(invs[next := inv])
  {
    var after := invs[next := inv];
    forall i, j | IsPending(after, i) && j in after && SamePair(after, i, j) ensures j <= i {
      if i != next {
        assert IsPending(invs, i);
        assert j != next ==> SamePair(invs, i, j);
      }
    }
  }

  lemma NewInvitationIsForAStranger(users: map<UserId, User>, invs: Table, next: InvId, inv: Invitation)
    requires MembersAreNotInvited(users, invs) && !Member(users, inv.email, inv.org)
    ensures MembersAreNotInvited(users, invs[next := inv])
  {
    var after := invs[next := inv];
    forall i | IsPending(after, i) ensures !Member(users, after[i].email, after[i].org) {
      assert i != next ==> IsPending(invs, i);
    }
  }

  lemma CreatingKeepsInv(s: State, email: string, org: OrgId, role: RoleId, token: string)
    requires Inv(s) && !Member(s.users, email, org)
    requires forall i :: IsPending(s.invitations, i) ==> !For(s.invitations[i], email, org)
    ensures Inv(Create(s, email, org, role, token).0)
  {
    var s' := Create(s, email, org, role, token).0;
    if s'.next != s.next {
      var inv := s'.invitations[s.next];
      NewInvitationIsNewest(s.invitations, s.next, inv);
      NewInvitationIsForAStranger(s.users, s.invitations, s.next, inv);
    }
  }

  lemma JoiningKeepsInv(s: State, i: InvId)
    requires Inv(s) && IsPending(s.invitations, i)
    ensures var inv := s.invitations[i];
      Inv(SetStatus(s.(users := s.users[s.nextUser := User(inv.email, inv.org, inv.role)],
                       nextUser := s.nextUser + 1), i, Accepted))
  {
    var inv := s.invitations[i];
    var s1 := SetStatus(s, i, Accepted);
    RetiringKeepsInv(s, i, Accepted);
    var users' := s.users[s.nextUser := User(inv.email, inv.org, inv.role)];
    forall j | IsPending(s1.invitations, j) ensures !Member(users', s1.invitations[j].email, s1.invitations[j].org) {
      assert IsPending(s.invitations, j);
      assert SamePair(s.invitations, i, j) ==> SamePair(s.invitations, j, i);
    }
    assert forall u :: u in s.users ==> !(s.users[u].email == inv.email && s.users[u].org == inv.org);
  }

  lemma SendKeepsInv(s: State, r: SendRequest)
    requires Inv(s)
    ensures Inv(Send(s, r).0)
  {
    if Known(s, r.inviter) {
      var s1 := EnsureOrg(s, r).0;
      assert Inv(s1);
      if Refusal(s1, r).None? {
        var newest := Newest(s.invitations, r.email, r.org, s.next);
        assert forall i :: IsPending(s1.invitations, i) && For(s1.invitations[i], r.email, r.org) ==>
          newest.Some? && SamePair(s.invitations, i, newest.value);
        CreatingKeepsInv(s1, r.email, r.org, r.role, r.token);
      }
    }
  }

  lemma ResendKeepsInv(s: State, i: InvId, inviter: UserId, token: string)
    requires Inv(s)
    ensures Inv(Resend(s, i, inviter, token).0)
  {
    if IsPending(s.invitations, i) {
      var s1 := SetStatus(s, i, Cancelled);
      RetiringKeepsInv(s, i, Cancelled);
      var inv := s.invitations[i];
      assert forall j :: IsPending(s1.invitations, j) && For(s1.invitations[j], inv.email, inv.org) ==>
        IsPending(s.invitations, j) && SamePair(s.invitations, i, j) && SamePair(s.invitations, j, i);
      CreatingKeepsInv(s1, inv.email, inv.org, inv.role, token);
    }
  }

  /** An invitation that passes the checks is pending: an expired one is past its date. */
  lemma CheckKeepsInv(s: State, token: string)
    requires Inv(s)
    ensures Inv(Check(s, token).0)
    ensures Check(s, token).1.Ok? ==> IsPending(s.invitations, Check(s, token).1.value)
  {
    var hit := ByToken(s.invitations, token, s.next);
    if hit.Some? && s.invitations[hit.value].expiresAt < s.now { RetiringKeepsInv(s, hit.value, Expired); }
  }

  lemma StepKeepsInv(s: State, op: Op)
    requires Inv(s)
    ensures Inv(Step(s, op))
  {
    match op
    case DoSend(r) => SendKeepsInv(s, r);
    case DoResend(i, inviter, token) => ResendKeepsInv(s, i, inviter, token);
    case DoValidate(token) => CheckKeepsInv(s, token);
    case DoComplete(token) =>
      CheckKeepsInv(s, token);
      if Complete(s, token).1.Ok? { JoiningKeepsInv(s, Check(s, token).1.value); }
    case DoCancel(i, org) => if Cancel(s, i, org).1.Ok? { RetiringKeepsInv(s, i, Cancelled); }
    case Tick(ms) =>
  }

  lemma {:induction false} RunKeepsInv(s: State, ops: seq<Op>)
    requires Inv(s)
    ensures Inv(Run(s, ops))
    decreases |ops|
  {
    if ops != [] {
      StepKeepsInv(s, ops[0]);
      RunKeepsInv(Step(s, ops[0]), ops[1..]);
    }
  }

  /** With no invitation yet, any table of distinct accounts will do. */
  lemma NoInvitationSatisfiesInv(s: State)
    requires s.invitations == map[] && AccountsUnique(s.users, s.nextUser)
    ensures Inv(s)
  {
  }

  // ---------- pending invitations ----------

  /** In every run, an address has at most one pending invitation, and it is the newest. */
  lemma OnePendingPerAddress(s: State, ops: seq<Op>, i: InvId, j: InvId)
    requires Inv(s)
    requires var invs := Run(s, ops).invitations; IsPending(invs, i) && j in invs && SamePair(invs, i, j)
    ensures var s' := Run(s, ops); var inv := s'.invitations[i];
      && Newest(s'.invitations, inv.email, inv.org, s'.next) == Some(i)
      && (IsPending(s'.invitations, j) ==> i == j)
  {
    RunKeepsInv(s, ops);
    var invs := Run(s, ops).invitations;
    assert SamePair(invs, j, i);
    var newest := Newest(invs, invs[i].email, invs[i].org, Run(s, ops).next);
    assert SamePair(invs, i, newest.value);
  }

  /** Looking at the newest invitation only, sending is refused as pending exactly when some invitation is. */
  lemma SendingSeesEveryPendingInvitation(s: State, r: SendRequest)
    requires Inv(s)
    ensures var pending := exists i :: IsPending(s.invitations, i) && For(s.invitations[i], r.email, r.org);
      && (Send(s, r).1 == Err(AlreadyPending) ==> pending)
      && (Send(s, r).1.Ok? ==> !pending)
  {
    var newest := Newest(s.invitations, r.email, r.org, s.next);
    if newest.Some? {
      assert forall i :: IsPending(s.invitations, i) && For(s.invitations[i], r.email, r.org) ==>
        SamePair(s.invitations, i, newest.value);
    }
  }

  // ---------- completion ----------

  ghost predicate Usable(s: State, i: InvId, token: string) {
    IsPending(s.invitations, i) && s.invitations[i].token == token && s.now <= s.invitations[i].expiresAt
  }

  /** A token opens an account exactly while its invitation is pending and not past its date. */
  lemma CompletionSucceedsExactly(s: State, token: string)
    requires Inv(s)
    ensures Complete(s, token).1.Ok? <==> exists i :: Usable(s, i, token)
    ensures Complete(s, token).1 != Err(Constraint)
  {
    CheckKeepsInv(s, token);
    var hit := ByToken(s.invitations, token, s.next);
    if hit.Some? && Check(s, token).1.Ok? {
      assert Usable(s, hit.value, token);
    }
  }

  /** Completion creates the invited account, in the invited role, and nothing else. */
  lemma CompletionCreatesTheInvitedAccount(s: State, i: InvId, token: string)
    requires Inv(s) && Usable(s, i, token)
    ensures var (s', inv) := (Complete(s, token).0, s.invitations[i]);
      && s'.users == s.users[s.nextUser := User(inv.email, inv.org, inv.role)] && s.nextUser !in s.users
      && !Member(s.users, inv.email, inv.org)
      && s'.invitations == s.invitations[i := inv.(status := Accepted)]
      && s'.orgs == s.orgs && s'.roles == s.roles && s'.next == s.next
  {
    CheckKeepsInv(s, token);
  }

  /** Validating a token says whether completing it now would succeed. */
  lemma ValidationPredictsCompletion(s: State, token: string)
    requires Inv(s)
    ensures Check(s, token).1.Ok? <==> Complete(s, token).1.Ok?
    ensures Check(s, token).1.Err? ==> Complete(s, token) == (Check(s, token).0, Err(Check(s, token).1.error))
  {
    CheckKeepsInv(s, token);
  }

  // ---------- retired invitations ----------

  /** Invitations are never deleted; only their status changes, and never back to pending. */
  ghost predicate Evolves(s: State, s': State) {
    && s.next <= s'.next && s.now <= s'.now
    && (forall u :: u in s.users ==> u in s'.users && s'.users[u] == s.users[u])
    && (forall i :: i in s.invitations ==>
          && i in s'.invitations
          && s'.invitations[i] == s.invitations[i].(status := s'.invitations[i].status)
          && (s'.invitations[i].status == Pending ==> s.invitations[i].status == Pending))
  }

  ghost predicate IdsFresh(s: State) {
    s.next !in s.invitations && s.nextUser !in s.users
  }

  lemma CreateEvolves(s: State, email: string, org: OrgId, role: RoleId, token: string)
    requires IdsFresh(s)
    ensures Evolves(s, Create(s, email, org, role, token).0)
  {
  }

  lemma EvolvesTransitively(s0: State, s1: State, s2: State)
    requires Evolves(s0, s1) && Evolves(s1, s2)
    ensures Evolves(s0, s2)
  {
  }

  lemma RetiringEvolves(s: State, i: InvId, status: Status)
    requires i in s.invitations && status != Pending
    ensures Evolves(s, SetStatus(s, i, status))
  {
  }

  lemma SendEvolves(s: State, r: SendRequest)
    requires IdsFresh(s)
    ensures Evolves(s, Send(s, r).0)
  {
    if Known(s, r.inviter) {
      CreateEvolves(EnsureOrg(s, r).0, r.email, r.org, r.role, r.token);
    }
  }

  lemma ResendEvolves(s: State, i: InvId, inviter: UserId, token: string)
    requires IdsFresh(s)
    ensures Evolves(s, Resend(s, i, inviter, token).0)
  {
    if i in s.invitations {
      var inv, s1 := s.invitations[i], SetStatus(s, i, Cancelled);
      RetiringEvolves(s, i, Cancelled);
      CreateEvolves(s1, inv.email, inv.org, inv.role, token);
      EvolvesTransitively(s, s1, Create(s1, inv.email, inv.org, inv.role, token).0);
    }
  }

  lemma CheckEvolves(s: State, token: string)
    ensures Evolves(s, Check(s, token).0)
  {
    var hit := ByToken(s.invitations, token, s.next);
    if hit.Some? { RetiringEvolves(s, hit.value, Expired); }
  }

  lemma CompleteEvolves(s: State, token: string)
    requires IdsFresh(s)
    ensures Evolves(s, Complete(s, token).0)
  {
    CheckEvolves(s, token);
  }

  lemma StepEvolves(s: State, op: Op)
    requires IdsFresh(s)
    ensures Evolves(s, Step(s, op))
  {
    match op
    case DoSend(r) => SendEvolves(s, r);
    case DoResend(i, inviter, token) => ResendEvolves(s, i, inviter, token);
    case DoValidate(token) => CheckEvolves(s, token);
    case DoComplete(token) => CompleteEvolves(s, token);
    case DoCancel(i, org) => if i in s.invitations { RetiringEvolves(s, i, Cancelled); }
    case Tick(ms) =>
  }

  lemma {:induction false} RunEvolves(s: State, ops: seq<Op>)
    requires Inv(s)
    ensures Evolves(s, Run(s, ops))
    decreases |ops|
  {
    if ops != [] {
      StepEvolves(s, ops[0]);
      StepKeepsInv(s, ops[0]);
      RunEvolves(Step(s, ops[0]), ops[1..]);
    }
  }

  /** Once cancelled, replaced, accepted or expired, an invitation never opens an account again. */
  lemma RetiredTokensNeverComplete(s: State, i: InvId, ops: seq<Op>)
    requires Inv(s) && i in s.invitations && !IsPending(s.invitations, i)
    ensures !Complete(Run(s, ops), s.invitations[i].token).1.Ok?
  {
    RunKeepsInv(s, ops);
    RunEvolves(s, ops);
    CompletionSucceedsExactly(Run(s, ops), s.invitations[i].token);
  }

  /** A replacement takes over the address, organisation and role; only its token is valid from then on. */
  lemma ResendReplaces(s: State, i: InvId, inviter: UserId, token: string)
    requires Inv(s) && Resend(s, i, inviter, token).1.Ok?
    ensures var (s', n, inv) := (Resend(s, i, inviter, token).0, s.next, s.invitations[i]);
      && Resend(s, i, inviter, token).1 == Ok(n) && n !in s.invitations
      && s'.invitations == s.invitations[i := inv.(status := Cancelled)]
           [n := Invitation(inv.email, inv.org, inv.role, token, s.now + LIFETIME_MS, Pending)]
      && Check(s', token).1 == Ok(n)
      && Check(s', inv.token).1.Err?
  {
    var s' := Resend(s, i, inviter, token).0;
    ResendKeepsInv(s, i, inviter, token);
    CheckKeepsInv(s', s.invitations[i].token);
    assert s'.invitations[s.next].token == token && s'.invitations[i].token == s.invitations[i].token;
    assert ByToken(s'.invitations, token, s'.next) == Some(s.next);
    assert ByToken(s'.invitations, s.invitations[i].token, s'.next) == Some(i);
  }

  // ---------- counting completions over a run ----------

  ghost predicate JoinsBy(s: State, token: string, email: string, org: OrgId) {
    var r := Complete(s, token);
    r.1.Ok? && r.0.users[r.1.value].email == email && r.0.users[r.1.value].org == org
  }

  /** How often the run completes an invitation of this address to this organisation. */
  ghost function Joins(s: State, ops: seq<Op>, email: string, org: OrgId): nat
    decreases |ops|
  {
    if ops == [] then 0
    else
      (if ops[0].DoComplete? && JoinsBy(s, ops[0].token, email, org) then 1 else 0)
      + Joins(Step(s, ops[0]), ops[1..], email, org)
  }

  /** How often the run completes this token. */
  ghost function Completions(s: State, ops: seq<Op>, token: string): nat
    decreases |ops|
  {
    if ops == [] then 0
    else
      (if ops[0] == DoComplete(token) && Complete(s, token).1.Ok? then 1 else 0)
      + Completions(Step(s, ops[0]), ops[1..], token)
  }

  lemma MembersStay(s: State, op: Op, email: string, org: OrgId)
    requires Inv(s) && Member(s.users, email, org)
    ensures Member(Step(s, op).users, email, org)
  {
    StepEvolves(s, op);
  }

  /** At most one account is opened for an address in an organisation, and none for a member. */
  lemma {:induction false} OneAccountPerAddress(s: State, ops: seq<Op>, email: string, org: OrgId)
    requires Inv(s)
    ensures Joins(s, ops, email, org) <= if Member(s.users, email, org) then 0 else 1
    decreases |ops|
  {
    if ops != [] {
      var s1 := Step(s, ops[0]);
      StepKeepsInv(s, ops[0]);
      OneAccountPerAddress(s1, ops[1..], email, org);
      if Member(s.users, email, org) { MembersStay(s, ops[0], email, org); }
      if ops[0].DoComplete? && JoinsBy(s, ops[0].token, email, org) {
        var u := Complete(s, ops[0].token).1.value;
        assert u in s1.users;
        CheckKeepsInv(s, ops[0].token);
      }
    }
  }

  lemma {:induction false} SpentTokensDoNotComplete(s: State, ops: seq<Op>, token: string, i: InvId)
    requires Inv(s) && i in s.invitations && s.invitations[i].token == token && !IsPending(s.invitations, i)
    ensures Completions(s, ops, token) == 0
    decreases |ops|
  {
    if ops != [] {
      CompletionSucceedsExactly(s, token);
      StepKeepsInv(s, ops[0]);
      StepEvolves(s, ops[0]);
      SpentTokensDoNotComplete(Step(s, ops[0]), ops[1..], token, i);
    }
  }

  /** No token is completed twice. */
  lemma {:induction false} TokensCompleteAtMostOnce(s: State, ops: seq<Op>, token: string)
    requires Inv(s)
    ensures Completions(s, ops, token) <= 1
    decreases |ops|
  {
    if ops != [] {
      var s1 := Step(s, ops[0]);
      StepKeepsInv(s, ops[0]);
      TokensCompleteAtMostOnce(s1, ops[1..], token);
      if ops[0] == DoComplete(token) && Complete(s, token).1.Ok? {
        SpentTokensDoNotComplete(s1, ops[1..], token, Check(s, token).1.value);
      }
    }
  }

  // ---------- where the status is not what its name says ----------

  /**
   ACCEPTED is not final: looking up the token after its date turns the
   invitation into an expired one, which can then be cancelled, although its
   account exists.
   */
  lemma AcceptedIsNotFinal(s: State, i: InvId)
    requires Inv(s) && i in s.invitations && s.invitations[i].status == Accepted
    ensures var org := s.invitations[i].org;
      var late := s.(now := if s.now > s.invitations[i].expiresAt then s.now else s.invitations[i].expiresAt + 1);
      var seen := Check(late, s.invitations[i].token).0;
      && Cancel(late, i, org) == (late, Err(AlreadyAccepted))
      && i in seen.invitations && seen.invitations[i].status == Expired
      && Cancel(seen, i, org).1 == Ok(())
  {
    assert ByToken(s.invitations, s.invitations[i].token, s.next) == Some(i);
  }

  /** The step presents the invitation's token, for validation or completion, after its date. */
  ghost predicate LateLookUp(s: State, op: Op, i: InvId)
    requires i in s.invitations
  {
    (op.DoValidate? || op.DoComplete?) && op.token == s.invitations[i].token && s.invitations[i].expiresAt < s.now
  }

  ghost function StatusOf(s: State, i: InvId): Option<Status> {
    if i in s.invitations then Some(s.invitations[i].status) else None
  }

  lemma StatusAfterCheck(s: State, token: string, i: InvId)
    requires TokensUnique(s.invitations, s.next) && i in s.invitations
    ensures
      var inv := s.invitations[i];
      StatusOf(Check(s, token).0, i)
      == Some(if inv.token == token && inv.expiresAt < s.now then Expired else inv.status)
  {
    if s.invitations[i].token == token {
      assert ByToken(s.invitations, token, s.next) == Some(i);
    }
  }

  lemma StatusAfterCompletion(s: State, token: string, i: InvId)
    requires Inv(s) && i in s.invitations && s.invitations[i].status != Pending
    ensures
      var inv := s.invitations[i];
      StatusOf(Complete(s, token).0, i)
      == Some(if inv.token == token && inv.expiresAt < s.now then Expired else inv.status)
  {
    StatusAfterCheck(s, token, i);
    var r := Check(s, token).1;
    if r.Ok? {
      assert ByToken(s.invitations, token, s.next) == Some(r.value);
    }
  }

  lemma StatusAfterOther(s: State, op: Op, i: InvId)
    requires Inv(s) && i in s.invitations && s.invitations[i].status != Pending
    requires !op.DoValidate? && !op.DoComplete?
    ensures var status := StatusOf(Step(s, op), i);
      status == Some(s.invitations[i].status)
      || (op == DoCancel(i, s.invitations[i].org) && s.invitations[i].status != Accepted && status == Some(Cancelled))
  {
  }

  /** An accepted invitation stays accepted in exactly the steps that do not present its token after its date. */
  lemma AcceptedStaysExactly(s: State, op: Op, i: InvId)
    requires Inv(s) && StatusOf(s, i) == Some(Accepted)
    ensures StatusOf(Step(s, op), i) == Some(Accepted) <==> !LateLookUp(s, op, i)
  {
    match op
    case DoValidate(token) => StatusAfterCheck(s, token, i);
    case DoComplete(token) => StatusAfterCompletion(s, token, i);
    case _ => StatusAfterOther(s, op, i);
  }

  /** No step of the run presents the token of the invitation after its date. */
  ghost predicate NeverLate(s: State, ops: seq<Op>, i: InvId)
    requires i in s.invitations
    decreases |ops|
  {
    ops == [] || (!LateLookUp(s, ops[0], i) && i in Step(s, ops[0]).invitations && NeverLate(Step(s, ops[0]), ops[1..], i))
  }

  /** An invitation that is expired or cancelled is never accepted again. */
  lemma {:induction false} RetiredIsNeverAccepted(s: State, ops: seq<Op>, i: InvId)
    requires Inv(s) && (StatusOf(s, i) == Some(Expired) || StatusOf(s, i) == Some(Cancelled))
    ensures StatusOf(Run(s, ops), i) != Some(Accepted)
    decreases |ops|
  {
    if ops != [] {
      StepKeepsInv(s, ops[0]);
      match ops[0] {
        case DoValidate(token) => StatusAfterCheck(s, token, i);
        case DoComplete(token) => StatusAfterCompletion(s, token, i);
        case _ => StatusAfterOther(s, ops[0], i);
      }
      RetiredIsNeverAccepted(Step(s, ops[0]), ops[1..], i);
    }
  }

  lemma LateLookUpExpires(s: State, op: Op, i: InvId)
    requires Inv(s) && StatusOf(s, i) == Some(Accepted) && LateLookUp(s, op, i)
    ensures StatusOf(Step(s, op), i) == Some(Expired)
  {
    StatusAfterCheck(s, op.token, i);
    StatusAfterCompletion(s, op.token, i);
  }

  /** After any run an accepted invitation is still accepted if and only if its token was never presented after its date. */
  lemma {:induction false} AcceptedStaysOverRuns(s: State, ops: seq<Op>, i: InvId)
    requires Inv(s) && StatusOf(s, i) == Some(Accepted)
    ensures StatusOf(Run(s, ops), i) == Some(Accepted) <==> NeverLate(s, ops, i)
    decreases |ops|
  {
    if ops != [] {
      var s1 := Step(s, ops[0]);
      StepKeepsInv(s, ops[0]);
      AcceptedStaysExactly(s, ops[0], i);
      if LateLookUp(s, ops[0], i) {
        LateLookUpExpires(s, ops[0], i);
        RetiredIsNeverAccepted(s1, ops[1..], i);
      } else {
        AcceptedStaysOverRuns(s1, ops[1..], i);
      }
    }
  }
}
