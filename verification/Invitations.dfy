/**
 Invitations to join an organisation: sending, resending, validating,
 completing and cancelling them (src/modules/invitation/invitation.service.ts).

 The id of an invitation is its rank in creation order, so the newest
 invitation is the one with the largest id.  E-mail addresses are compared
 without case in the database; here they are already folded.  The handlers use
 no transaction: what they wrote before an error stays written.
 */
module Invitations {
  import opened Wrappers

  type OrgId = nat
  type RoleId = nat
  type UserId = nat
  type InvId = nat

  /** 48 hours in milliseconds. */
  const LIFETIME_MS: nat := 172800000

  datatype Status = Pending | Accepted | Expired | Cancelled

  datatype Invitation = Invitation(
    email: string, org: OrgId, role: RoleId, token: string, expiresAt: nat, status: Status)

  datatype User = User(email: string, org: OrgId, role: RoleId)

  datatype Role = Role(level: int, superAdmin: bool)

  datatype State = State(
    users: map<UserId, User>, roles: map<RoleId, Role>, orgs: map<OrgId, string>,
    invitations: map<InvId, Invitation>, next: InvId, nextUser: UserId, now: nat)

  datatype Error =
    | InviterNotFound | OrgNotFound | RoleNotFound | RoleTooHigh
    | AlreadyMember | AlreadyPending
    | NotFound | NotPending
    | InvalidToken | TokenExpired | AlreadyUsed | WasCancelled
    | AlreadyAccepted
    | Constraint                  // a constraint of the database: a unique index or a foreign key

  // ---------- queries ----------

  predicate For(i: Invitation, email: string, org: OrgId) {
    i.email == email && i.org == org
  }

  /** The first row for this address when sorted by decreasing creation date. */
  function Newest(invs: map<InvId, Invitation>, email: string, org: OrgId, below: InvId): (r: Option<InvId>)
    ensures r.Some? ==> r.value < below && r.value in invs && For(invs[r.value], email, org)
    ensures r.Some? ==> forall i :: r.value < i < below && i in invs ==> !For(invs[i], email, org)
    ensures r.None? ==> forall i :: i < below && i in invs ==> !For(invs[i], email, org)
  {
    if below == 0 then None
    else if below - 1 in invs && For(invs[below - 1], email, org) then Some(below - 1)
    else Newest(invs, email, org, below - 1)
  }

  /** The row with this token. */
  function ByToken(invs: map<InvId, Invitation>, token: string, below: InvId): (r: Option<InvId>)
    ensures r.Some? ==> r.value < below && r.value in invs && invs[r.value].token == token
    ensures r.None? ==> forall i :: i < below && i in invs ==> invs[i].token != token
  {
    if below == 0 then None
    else if below - 1 in invs && invs[below - 1].token == token then Some(below - 1)
    else ByToken(invs, token, below - 1)
  }

  predicate Member(users: map<UserId, User>, email: string, org: OrgId) {
    exists u :: u in users && users[u].email == email && users[u].org == org
  }

  /** The user and, through a foreign key, their role. */
  predicate Known(s: State, u: UserId) {
    u in s.users && s.users[u].role in s.roles
  }

  // ---------- statements ----------

  function SetStatus(s: State, i: InvId, status: Status): State
    requires i in s.invitations
  {
    s.(invitations := s.invitations[i := s.invitations[i].(status := status)])
  }

  /** Inserts a pending invitation; refused when the token is taken. */
  function Create(s: State, email: string, org: OrgId, role: RoleId, token: string): (State, Result<InvId, Error>) {
    if ByToken(s.invitations, token, s.next).Some? then (s, Err(Constraint))
    else
      (s.(invitations := s.invitations[s.next := Invitation(email, org, role, token, s.now + LIFETIME_MS, Pending)],
          next := s.next + 1),
       Ok(s.next))
  }

  // ---------- handlers as functions of the state ----------

  /** `newOrg` is the slug of the organisation to create when `org` does not exist. */
  datatype SendRequest = SendRequest(
    email: string, role: RoleId, org: OrgId, inviter: UserId, newOrg: Option<string>, token: string)

  function EnsureOrg(s: State, r: SendRequest): (State, Option<Error>)
    requires Known(s, r.inviter)
  {
    if r.org in s.orgs then (s, None)
    else if s.roles[s.users[r.inviter].role].superAdmin && r.newOrg.Some? then
      if r.newOrg.value in s.orgs.Values then (s, Some(Constraint))
      else (s.(orgs := s.orgs[r.org := r.newOrg.value]), None)
    else (s, Some(OrgNotFound))
  }

  /** Why an invitation to an existing organisation is refused. */
  function Refusal(s: State, r: SendRequest): Option<Error>
    requires Known(s, r.inviter)
  {
    if r.role !in s.roles then Some(RoleNotFound)
    else
      var mine := s.roles[s.users[r.inviter].role];
      if !mine.superAdmin && s.roles[r.role].level < mine.level then Some(RoleTooHigh)
      else if Member(s.users, r.email, r.org) then Some(AlreadyMember)
      else
        var newest := Newest(s.invitations, r.email, r.org, s.next);
        if newest.Some? && s.invitations[newest.value].status == Pending then Some(AlreadyPending) else None
  }

  function Send(s: State, r: SendRequest): (State, Result<InvId, Error>) {
    if !Known(s, r.inviter) then (s, Err(InviterNotFound))
    else
      // an organisation created here stays, even when the invitation is then refused
      var (s1, e) := EnsureOrg(s, r);
      if e.Some? then (s1, Err(e.value))
      else if Refusal(s1, r).Some? then (s1, Err(Refusal(s1, r).value))
      else Create(s1, r.email, r.org, r.role, r.token)
  }

  function Resend(s: State, i: InvId, inviter: UserId, token: string): (State, Result<InvId, Error>) {
    if i !in s.invitations then (s, Err(NotFound))
    else
      var inv := s.invitations[i];
      if inv.status != Pending then (s, Err(NotPending))
      else
        // the old invitation is cancelled even when the new one cannot be inserted
        var s1 := SetStatus(s, i, Cancelled);
        if inviter !in s.users then (s1, Err(Constraint))
        else Create(s1, inv.email, inv.org, inv.role, token)
  }

  /** The checks shared by validation and completion. */
  function Check(s: State, token: string): (State, Result<InvId, Error>) {
    match ByToken(s.invitations, token, s.next)
    case None => (s, Err(InvalidToken))
    case Some(i) =>
      var inv := s.invitations[i];
      if inv.expiresAt < s.now then (SetStatus(s, i, Expired), Err(TokenExpired))
      else if inv.status == Accepted then (s, Err(AlreadyUsed))
      else if inv.status == Cancelled then (s, Err(WasCancelled))
      else (s, Ok(i))
  }

  function Complete(s: State, token: string): (State, Result<UserId, Error>) {
    var (s1, r) := Check(s, token);
    match r
    case Err(e) => (s1, Err(e))
    case Ok(i) =>
      var inv := s.invitations[i];
      if Member(s.users, inv.email, inv.org) then (s, Err(Constraint))
      else
        (SetStatus(s.(users := s.users[s.nextUser := User(inv.email, inv.org, inv.role)],
                      nextUser := s.nextUser + 1), i, Accepted),
         Ok(s.nextUser))
  }

  function Cancel(s: State, i: InvId, org: OrgId): (State, Result<(), Error>) {
    if i !in s.invitations || s.invitations[i].org != org then (s, Err(NotFound))
    else if s.invitations[i].status == Accepted then (s, Err(AlreadyAccepted))
    else (SetStatus(s, i, Cancelled), Ok(()))
  }

  // ---------- the service ----------

  class InvitationService {
    var users: map<UserId, User>
    var roles: map<RoleId, Role>
    var orgs: map<OrgId, string>
    var invitations: map<InvId, Invitation>
    var next: InvId
    var nextUser: UserId
    var now: nat

    ghost function S(): State
      reads this
    {
      State(users, roles, orgs, invitations, next, nextUser, now)
    }

    constructor (users: map<UserId, User>, roles: map<RoleId, Role>, orgs: map<OrgId, string>, nextUser: UserId, now: nat)
      ensures S() == State(users, roles, orgs, map[], 0, nextUser, now)
    {
      this.users, this.roles, this.orgs := users, roles, orgs;
      this.invitations, this.next, this.nextUser, this.now := map[], 0, nextUser, now;
    }

    method InsertInvitation(email: string, org: OrgId, role: RoleId, token: string) returns (r: Result<InvId, Error>)
      modifies this`invitations, this`next
      ensures (S(), r) == Create(old(S()), email, org, role, token)
    {
      var taken := ByToken(invitations, token, next);
      if taken.Some? {
        return Err(Constraint);
      }
      invitations := invitations[next := Invitation(email, org, role, token, now + LIFETIME_MS, Pending)];
      next := next + 1;
      return Ok(next - 1);
    }

    method SendInvitation(r: SendRequest) returns (res: Result<InvId, Error>)
      modifies this`orgs, this`invitations, this`next
      ensures (S(), res) == Send(old(S()), r)
    {
      if r.inviter !in users || users[r.inviter].role !in roles {
        return Err(InviterNotFound);
      }
      var inviterRole := roles[users[r.inviter].role];
      if r.org !in orgs {
        if inviterRole.superAdmin && r.newOrg.Some? {
          if r.newOrg.value in orgs.Values {
            return Err(Constraint);
          }
          orgs := orgs[r.org := r.newOrg.value];
        } else {
          return Err(OrgNotFound);
        }
      }
      if r.role !in roles {
        return Err(RoleNotFound);
      }
      if !inviterRole.superAdmin && roles[r.role].level < inviterRole.level {
        return Err(RoleTooHigh);
      }
      if Member(users, r.email, r.org) {
        return Err(AlreadyMember);
      }
      var newest := Newest(invitations, r.email, r.org, next);
      if newest.Some? && invitations[newest.value].status == Pending {
        return Err(AlreadyPending);
      }
      res := InsertInvitation(r.email, r.org, r.role, r.token);
    }

    method ResendInvitation(i: InvId, inviter: UserId, token: string) returns (res: Result<InvId, Error>)
      modifies this`invitations, this`next
      ensures (S(), res) == Resend(old(S()), i, inviter, token)
    {
      if i !in invitations {
        return Err(NotFound);
      }
      var existing := invitations[i];
      if existing.status != Pending {
        return Err(NotPending);
      }
      invitations := invitations[i := existing.(status := Cancelled)];
      if inviter !in users {
        return Err(Constraint);
      }
      res := InsertInvitation(existing.email, existing.org, existing.role, token);
    }

    method ValidateInvitationToken(token: string) returns (res: Result<InvId, Error>)
      modifies this`invitations
      ensures (S(), res) == Check(old(S()), token)
    {
      var hit := ByToken(invitations, token, next);
      if hit.None? {
        return Err(InvalidToken);
      }
      var i := hit.value;
      if invitations[i].expiresAt < now {
        invitations := invitations[i := invitations[i].(status := Expired)];
        return Err(TokenExpired);
      }
      if invitations[i].status == Accepted {
        return Err(AlreadyUsed);
      }
      if invitations[i].status == Cancelled {
        return Err(WasCancelled);
      }
      return Ok(i);
    }

    method CompleteInvitation(token: string) returns (res: Result<UserId, Error>)
      modifies this`invitations, this`users, this`nextUser
      ensures (S(), res) == Complete(old(S()), token)
    {
      var checked := ValidateInvitationToken(token);
      if checked.Err? {
        return Err(checked.error);
      }
      var inv := invitations[checked.value];
      if Member(users, inv.email, inv.org) {
        return Err(Constraint);
      }
      var id := nextUser;
      users := users[id := User(inv.email, inv.org, inv.role)];
      nextUser := id + 1;
      invitations := invitations[checked.value := inv.(status := Accepted)];
      return Ok(id);
    }

    method CancelInvitation(i: InvId, org: OrgId) returns (res: Result<(), Error>)
      modifies this`invitations
      ensures (S(), res) == Cancel(old(S()), i, org)
    {
      if i !in invitations || invitations[i].org != org {
        return Err(NotFound);
      }
      if invitations[i].status == Accepted {
        return Err(AlreadyAccepted);
      }
      invitations := invitations[i := invitations[i].(status := Cancelled)];
      return Ok(());
    }
  }
}
