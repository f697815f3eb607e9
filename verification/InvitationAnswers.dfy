/**
 Which answer each invitation request gets, and what it writes, said in terms of
 the tables alone (src/modules/invitation/invitation.service.ts:34-445).
 */
module InvitationAnswers {
  import opened Wrappers
  import opened Invitations
  import opened InvitationRuns

  // ---------- sending ----------

  ghost predicate KnownInviter(s: State, r: SendRequest) {
    r.inviter in s.users && s.users[r.inviter].role in s.roles
  }

  /** A super administrator who names an organisation that does not exist creates it. */
  ghost predicate CreatesOrg(s: State, r: SendRequest)
    requires KnownInviter(s, r)
  {
    r.org !in s.orgs && s.roles[s.users[r.inviter].role].superAdmin && r.newOrg.Some?
  }

  ghost predicate SlugTaken(s: State, r: SendRequest) {
    r.newOrg.Some? && exists o :: o in s.orgs && s.orgs[o] == r.newOrg.value
  }

  ghost predicate OrgReady(s: State, r: SendRequest)
    requires KnownInviter(s, r)
  {
    r.org in s.orgs || (CreatesOrg(s, r) && !SlugTaken(s, r))
  }

  /** Lower levels are more powerful: nobody but a super administrator invites above their own level. */
  ghost predicate MayInvite(s: State, r: SendRequest)
    requires KnownInviter(s, r) && r.role in s.roles
  {
    var mine := s.roles[s.users[r.inviter].role];
    mine.superAdmin || s.roles[r.role].level >= mine.level
  }

  ghost predicate IsMember(s: State, email: string, org: OrgId) {
    exists u :: u in s.users && s.users[u].email == email && s.users[u].org == org
  }

  ghost predicate HasPending(s: State, email: string, org: OrgId) {
    exists i :: i in s.invitations && s.invitations[i].status == Pending
                && s.invitations[i].email == email && s.invitations[i].org == org
  }

  ghost predicate TokenUsed(s: State, token: string) {
    exists i :: i in s.invitations && s.invitations[i].token == token
  }

  lemma NewestDecides(s: State, r: SendRequest)
    requires Inv(s)
    ensures
      var newest := Newest(s.invitations, r.email, r.org, s.next);
      HasPending(s, r.email, r.org) <==> newest.Some? && s.invitations[newest.value].status == Pending
  {
    var newest := Newest(s.invitations, r.email, r.org, s.next);
    if HasPending(s, r.email, r.org) {
      var i :| i in s.invitations && s.invitations[i].status == Pending
               && s.invitations[i].email == r.email && s.invitations[i].org == r.org;
      assert IsPending(s.invitations, i) && For(s.invitations[i], r.email, r.org);
      assert SamePair(s.invitations, i, newest.value);
    }
  }

  lemma ByTokenIsExact(s: State, token: string)
    requires Inv(s)
    ensures ByToken(s.invitations, token, s.next).Some? <==> TokenUsed(s, token)
  {
  }

  /** What is asked of the address and the token, once inviter, organisation and role have passed. */
  lemma RefusalIsExact(s: State, r: SendRequest)
    requires Inv(s) && KnownInviter(s, r)
    ensures Refusal(s, r) ==
      if r.role !in s.roles then Some(RoleNotFound)
      else if !MayInvite(s, r) then Some(RoleTooHigh)
      else if IsMember(s, r.email, r.org) then Some(AlreadyMember)
      else if HasPending(s, r.email, r.org) then Some(AlreadyPending)
      else None
  {
    NewestDecides(s, r);
    assert Member(s.users, r.email, r.org) <==> IsMember(s, r.email, r.org);
  }

  /** Which answer a sending gets, exactly. */
  lemma SendAnswers(s: State, r: SendRequest)
    requires Inv(s)
    ensures
      Send(s, r).1 ==
        if !KnownInviter(s, r) then Err(InviterNotFound)
        else if r.org !in s.orgs && !CreatesOrg(s, r) then Err(OrgNotFound)
        else if !OrgReady(s, r) then Err(Constraint)
        else if r.role !in s.roles then Err(RoleNotFound)
        else if !MayInvite(s, r) then Err(RoleTooHigh)
        else if IsMember(s, r.email, r.org) then Err(AlreadyMember)
        else if HasPending(s, r.email, r.org) then Err(AlreadyPending)
        else if TokenUsed(s, r.token) then Err(Constraint)
        else Ok(s.next)
  {
    if KnownInviter(s, r) {
      assert SlugTaken(s, r) <==> r.newOrg.Some? && r.newOrg.value in s.orgs.Values;
      var s1 := EnsureOrg(s, r).0;
      assert Inv(s1) && KnownInviter(s1, r);
      RefusalIsExact(s1, r);
      ByTokenIsExact(s, r.token);
    }
  }

  /**
   A successful sending adds one pending invitation for 48 hours, with what was
   asked for; a refused one adds none.  An organisation that had to be created
   stays either way.
   */
  lemma SendWrites(s: State, r: SendRequest)
    requires Inv(s)
    ensures
      var (s', res) := Send(s, r);
      var orgs' := if KnownInviter(s, r) && CreatesOrg(s, r) && !SlugTaken(s, r)
                   then s.orgs[r.org := r.newOrg.value] else s.orgs;
      && s.next !in s.invitations
      && s' == (if res.Ok?
                then s.(orgs := orgs', next := s.next + 1,
                        invitations := s.invitations[s.next :=
                          Invitation(r.email, r.org, r.role, r.token, s.now + 172800000, Pending)])
                else s.(orgs := orgs'))
  {
    if KnownInviter(s, r) {
      assert SlugTaken(s, r) <==> r.newOrg.Some? && r.newOrg.value in s.orgs.Values;
    }
  }

  // ---------- resending ----------

  /** Which answer a resending gets, and what it writes: the old row is cancelled even when the new one cannot be inserted. */
  lemma ResendAnswers(s: State, i: InvId, inviter: UserId, token: string)
    requires Inv(s)
    ensures
      var (s', res) := Resend(s, i, inviter, token);
      if i !in s.invitations then res == Err(NotFound) && s' == s
      else if s.invitations[i].status != Pending then res == Err(NotPending) && s' == s
      else
        var inv := s.invitations[i];
        var cancelled := s.invitations[i := inv.(status := Cancelled)];
        if inviter !in s.users || TokenUsed(s, token) then
          res == Err(Constraint) && s' == s.(invitations := cancelled)
        else
          && res == Ok(s.next)
          && s' == s.(next := s.next + 1, invitations := cancelled[s.next :=
                        Invitation(inv.email, inv.org, inv.role, token, s.now + 172800000, Pending)])
  {
    if i in s.invitations && s.invitations[i].status == Pending {
      var s1 := SetStatus(s, i, Cancelled);
      RetiringKeepsInv(s, i, Cancelled);
      ByTokenIsExact(s1, token);
      assert TokenUsed(s1, token) <==> TokenUsed(s, token) by {
        assert forall k :: k in s.invitations ==> s1.invitations[k].token == s.invitations[k].token;
      }
    }
  }

  // ---------- looking up, completing, cancelling ----------

  ghost predicate Holds(s: State, i: InvId, token: string) {
    i in s.invitations && s.invitations[i].token == token
  }

  /** Validation of a token held by an invitation: overdue, used, cancelled, or good. */
  lemma CheckAnswers(s: State, token: string, i: InvId)
    requires Inv(s)
    ensures !TokenUsed(s, token) ==> Check(s, token) == (s, Err(InvalidToken))
    ensures Holds(s, i, token) ==>
      var inv := s.invitations[i];
      Check(s, token) ==
        if inv.expiresAt < s.now then
          (s.(invitations := s.invitations[i := inv.(status := Expired)]), Err(TokenExpired))
        else if inv.status == Accepted then (s, Err(AlreadyUsed))
        else if inv.status == Cancelled then (s, Err(WasCancelled))
        else (s, Ok(i))
  {
    ByTokenIsExact(s, token);
    if Holds(s, i, token) {
      assert ByToken(s.invitations, token, s.next) == Some(i);
    }
  }

  /** Completion: the same refusals, or the invited account and an accepted invitation. */
  lemma CompleteAnswers(s: State, token: string, i: InvId)
    requires Inv(s)
    ensures !TokenUsed(s, token) ==> Complete(s, token) == (s, Err(InvalidToken))
    ensures Holds(s, i, token) ==>
      var inv := s.invitations[i];
      Complete(s, token) ==
        if inv.expiresAt < s.now then
          (s.(invitations := s.invitations[i := inv.(status := Expired)]), Err(TokenExpired))
        else if inv.status == Accepted then (s, Err(AlreadyUsed))
        else if inv.status == Cancelled then (s, Err(WasCancelled))
        else
          (s.(invitations := s.invitations[i := inv.(status := Accepted)],
              users := s.users[s.nextUser := User(inv.email, inv.org, inv.role)], nextUser := s.nextUser + 1),
           Ok(s.nextUser))
  {
    CheckAnswers(s, token, i);
    if Holds(s, i, token) && Check(s, token).1 == Ok(i) {
      CheckKeepsInv(s, token);
      assert IsPending(s.invitations, i);
      CompletionCreatesTheInvitedAccount(s, i, token);
    }
  }

  /** Cancelling: any invitation of the organisation that is not accepted. */
  lemma CancelAnswers(s: State, i: InvId, org: OrgId)
    ensures
      Cancel(s, i, org) ==
        if i !in s.invitations then (s, Err(NotFound))
        else
          var inv := s.invitations[i];
          if inv.org != org then (s, Err(NotFound))
          else if inv.status == Accepted then (s, Err(AlreadyAccepted))
          else (s.(invitations := s.invitations[i := inv.(status := Cancelled)]), Ok(()))
  {
  }
}
