/**
 Registrations to an event with a capacity: the public form
 (src/modules/public/public.service.ts) together with the administration of
 registrations (src/modules/registrations/registrations.service.ts).

 An attendee is addressed by its unique key, organisation and e-mail; the
 settings of an event are found through the unique index on their public
 token.  Registering runs in one transaction.
 */
module Registrations {
  import opened Wrappers

  type OrgId = nat
  type EventId = string
  type RegId = nat
  type AttendeeKey = (OrgId, string)

  datatype Status = Awaiting | Approved | Refused | Cancelled

  /** `capacity` 0 stands for none, as a null one does; `autoApprove` is absent without settings. */
  datatype Event = Event(org: OrgId, published: bool, capacity: nat, autoApprove: Option<bool>)

  datatype Registration = Registration(
    org: OrgId, event: EventId, attendee: AttendeeKey, status: Status, deleted: bool)

  type Profile = map<string, string>

  /** Participant types offered by events, one row each. */
  type TypeId = nat

  /** What a registration request says: who, with which details, and as which type of participant. */
  datatype Form = Form(email: string, profile: Profile, kind: Option<TypeId>)

  datatype State = State(
    events: map<EventId, Event>, tokens: map<string, EventId>, kinds: set<TypeId>,
    attendees: map<AttendeeKey, Profile>, regs: map<RegId, Registration>, next: RegId)

  datatype Error = NotFound | Closed | Declined | AlreadyRegistered | Full | Constraint

  // ---------- queries ----------

  /** The event behind a public link: by token, else by id when it has settings. */
  function FindEvent(s: State, link: string): Option<EventId> {
    if link in s.tokens && s.tokens[link] in s.events then Some(s.tokens[link])
    else if link in s.events && s.events[link].autoApprove.Some? then Some(link)
    else None
  }

  /** The count that the services compare with the capacity. */
  function Counted(regs: map<RegId, Registration>, e: EventId, org: OrgId): set<RegId> {
    set r | r in regs && regs[r].event == e && regs[r].org == org && regs[r].status == Approved && !regs[r].deleted
  }

  predicate HasRoom(s: State, e: EventId)
    requires e in s.events
  {
    s.events[e].capacity == 0 || |Counted(s.regs, e, s.events[e].org)| < s.events[e].capacity
  }

  predicate IsOf(r: Registration, e: EventId, a: AttendeeKey) {
    r.event == e && r.attendee == a
  }

  /** A row for this event and attendee, whatever its status, deleted or not. */
  predicate Registered(regs: map<RegId, Registration>, e: EventId, a: AttendeeKey) {
    exists r :: r in regs && IsOf(regs[r], e, a)
  }

  predicate RegisteredAs(regs: map<RegId, Registration>, e: EventId, a: AttendeeKey, status: Status) {
    exists r :: r in regs && IsOf(regs[r], e, a) && regs[r].status == status
  }

  // ---------- statements ----------

  function Filled(p: Profile): Profile {
    map f | f in p && p[f] != "" :: p[f]
  }

  /** Existing attendees only receive the fields that are filled in. */
  function Upsert(attendees: map<AttendeeKey, Profile>, a: AttendeeKey, p: Profile): map<AttendeeKey, Profile> {
    if a in attendees then attendees[a := attendees[a] + Filled(p)] else attendees[a := p]
  }

  /** The foreign key on the type of participant. */
  predicate KindOk(s: State, f: Form) {
    f.kind.Some? ==> f.kind.value in s.kinds
  }

  /** Upsert, duplicate check and insert, as one transaction. */
  function Enter(s: State, e: EventId, f: Form, status: Status): (State, Result<RegId, Error>)
    requires e in s.events
  {
    var a := (s.events[e].org, f.email);
    if RegisteredAs(s.regs, e, a, Refused) then (s, Err(Declined))
    else if RegisteredAs(s.regs, e, a, Awaiting) || RegisteredAs(s.regs, e, a, Approved) then (s, Err(AlreadyRegistered))
    else if status == Approved && !HasRoom(s, e) then (s, Err(Full))
    else if Registered(s.regs, e, a) || !KindOk(s, f) then (s, Err(Constraint))
    else
      (s.(attendees := Upsert(s.attendees, a, f.profile),
          regs := s.regs[s.next := Registration(s.events[e].org, e, a, status, false)],
          next := s.next + 1),
       Ok(s.next))
  }

  // ---------- handlers as functions of the state ----------

  function Register(s: State, link: string, f: Form): (State, Result<RegId, Error>) {
    match FindEvent(s, link)
    case None => (s, Err(NotFound))
    case Some(e) =>
      if !s.events[e].published then (s, Err(Closed))
      else Enter(s, e, f, if s.events[e].autoApprove == Some(true) then Approved else Awaiting)
  }

  function AdminStatus(event: Event, forced: Option<Status>, mobile: bool): Status {
    if forced.Some? then forced.value
    else if event.autoApprove == Some(true) || mobile then Approved else Awaiting
  }

  /** Registration by an administrator: the capacity is checked before the duplicate. */
  function CreateByAdmin(s: State, e: EventId, org: OrgId, f: Form, forced: Option<Status>, mobile: bool)
    : (State, Result<RegId, Error>)
  {
    if e !in s.events || s.events[e].org != org then (s, Err(NotFound))
    else
      var status := AdminStatus(s.events[e], forced, mobile);
      if status == Approved && !HasRoom(s, e) then (s, Err(Full)) else Enter(s, e, f, status)
  }

  /** The row, when the caller's organisation may see it; no organisation means every organisation. */
  predicate Visible(s: State, r: RegId, org: Option<OrgId>) {
    r in s.regs && s.regs[r].event in s.events && (org.Some? ==> s.regs[r].org == org.value)
  }

  function UpdateStatus(s: State, r: RegId, org: Option<OrgId>, status: Status): (State, Result<(), Error>) {
    if !Visible(s, r, org) then (s, Err(NotFound))
    else if status == Approved && s.regs[r].status != Approved && !HasRoom(s, s.regs[r].event) then (s, Err(Full))
    else (s.(regs := s.regs[r := s.regs[r].(status := status)]), Ok(()))
  }

  function Remove(s: State, r: RegId, org: Option<OrgId>): (State, Result<(), Error>) {
    if !Visible(s, r, org) then (s, Err(NotFound))
    else (s.(regs := s.regs[r := s.regs[r].(deleted := true)]), Ok(()))
  }

  function Restore(s: State, r: RegId, org: Option<OrgId>): (State, Result<(), Error>) {
    if !Visible(s, r, org) || !s.regs[r].deleted then (s, Err(NotFound))
    else if s.regs[r].status == Approved && !HasRoom(s, s.regs[r].event) then (s, Err(Full))
    else (s.(regs := s.regs[r := s.regs[r].(deleted := false)]), Ok(()))
  }

  function PermanentDelete(s: State, r: RegId, org: Option<OrgId>): (State, Result<(), Error>) {
    if !Visible(s, r, org) || !s.regs[r].deleted then (s, Err(NotFound))
    else (s.(regs := map q | q in s.regs && q != r :: s.regs[q]), Ok(()))
  }

  // ---------- invariants ----------

  /** The unique index: one row for each event and attendee. */
  ghost predicate UniquePairs(regs: map<RegId, Registration>) {
    forall q, r ::
      (q in regs && r in regs && regs[q].event == regs[r].event && regs[q].attendee == regs[r].attendee) ==> q == r
  }

  /** A registration carries the organisation of its event and of its attendee. */
  ghost predicate OrgsAgree(s: State) {
    forall r :: r in s.regs ==>
      && s.regs[r].event in s.events
      && s.regs[r].org == s.events[s.regs[r].event].org == s.regs[r].attendee.0
  }

  /** The registrations that occupy a place, whatever organisation they carry. */
  ghost function Seats(regs: map<RegId, Registration>, e: EventId): set<RegId> {
    set r | r in regs && regs[r].event == e && regs[r].status == Approved && !regs[r].deleted
  }

  ghost predicate WithinCapacity(s: State) {
    forall e :: e in s.events && s.events[e].capacity != 0 ==> |Seats(s.regs, e)| <= s.events[e].capacity
  }

  ghost predicate Inv(s: State) {
    && UniquePairs(s.regs) && OrgsAgree(s) && WithinCapacity(s)
    && (forall r :: r in s.regs ==> r < s.next && s.regs[r].attendee in s.attendees)
  }

  /** With one row for the pair, that row's status decides. */
  lemma TheRowDecides(regs: map<RegId, Registration>, e: EventId, a: AttendeeKey, r: RegId, status: Status)
    requires UniquePairs(regs) && r in regs && IsOf(regs[r], e, a)
    ensures RegisteredAs(regs, e, a, status) <==> regs[r].status == status
  {
  }

  // ---------- the services ----------

  class RegistrationDesk {
    const events: map<EventId, Event>
    const tokens: map<string, EventId>
    const kinds: set<TypeId>
    var attendees: map<AttendeeKey, Profile>
    var regs: map<RegId, Registration>
    var next: RegId

    constructor (events: map<EventId, Event>, tokens: map<string, EventId>, kinds: set<TypeId>)
      ensures S() == State(events, tokens, kinds, map[], map[], 0)
    {
      this.events, this.tokens, this.kinds := events, tokens, kinds;
      attendees, regs, next := map[], map[], 0;
    }

    ghost function S(): State
      reads this
    {
      State(events, tokens, kinds, attendees, regs, next)
    }

    method RegisterToEvent(link: string, f: Form) returns (res: Result<RegId, Error>)
      requires UniquePairs(regs)
      modifies this`attendees, this`regs, this`next
      ensures (S(), res) == Register(old(S()), link, f)
    {
      var found: Option<EventId> := None;
      if link in tokens && tokens[link] in events {
        found := Some(tokens[link]);
      } else if link in events && events[link].autoApprove.Some? {
        found := Some(link);
      }
      if found.None? {
        return Err(NotFound);
      }
      if !events[found.value].published {
        return Err(Closed);
      }
      var status := if events[found.value].autoApprove == Some(true) then Approved else Awaiting;
      res := EnterInTransaction(found.value, f, status);
    }

    /** The status of the row for an event and an attendee. */
    method FindStatus(id: EventId, a: AttendeeKey) returns (found: Option<Status>)
      requires UniquePairs(regs)
      ensures found.Some? <==> Registered(regs, id, a)
      ensures forall x :: RegisteredAs(regs, id, a, x) <==> found == Some(x)
    {
      if Registered(regs, id, a) {
        var r :| r in regs && IsOf(regs[r], id, a);
        forall x
          ensures RegisteredAs(regs, id, a, x) <==> regs[r].status == x
        {
          TheRowDecides(regs, id, a, r, x);
        }
        return Some(regs[r].status);
      }
      return None;
    }

    method SaveAttendee(a: AttendeeKey, p: Profile)
      modifies this`attendees
      ensures attendees == Upsert(old(attendees), a, p)
    {
      if a in attendees {
        attendees := attendees[a := attendees[a] + Filled(p)];
      } else {
        attendees := attendees[a := p];
      }
    }

    method EnterInTransaction(id: EventId, f: Form, status: Status) returns (res: Result<RegId, Error>)
      requires UniquePairs(regs) && id in events
      modifies this`attendees, this`regs, this`next
      ensures (S(), res) == Enter(old(S()), id, f, status)
    {
      var event := events[id];
      var saved := attendees;
      var key := (event.org, f.email);
      SaveAttendee(key, f.profile);
      var duplicate := FindStatus(id, key);
      if duplicate == Some(Refused) {
        attendees := saved;
        return Err(Declined);
      }
      if duplicate == Some(Awaiting) || duplicate == Some(Approved) {
        attendees := saved;
        return Err(AlreadyRegistered);
      }
      if event.capacity != 0 && status == Approved {
        if |Counted(regs, id, event.org)| >= event.capacity {
          attendees := saved;
          return Err(Full);
        }
      }
      if duplicate.Some? || (f.kind.Some? && f.kind.value !in kinds) {
        // the insert violates the unique index or the foreign key, and the transaction is rolled back
        attendees := saved;
        return Err(Constraint);
      }
      regs := regs[next := Registration(event.org, id, key, status, false)];
      next := next + 1;
      return Ok(next - 1);
    }

    method CreateRegistration(
        e: EventId, org: OrgId, f: Form, forced: Option<Status>, mobile: bool)
      returns (res: Result<RegId, Error>)
      requires UniquePairs(regs)
      modifies this`attendees, this`regs, this`next
      ensures (S(), res) == CreateByAdmin(old(S()), e, org, f, forced, mobile)
    {
      if e !in events || events[e].org != org {
        return Err(NotFound);
      }
      var byDefault := if events[e].autoApprove == Some(true) || mobile then Approved else Awaiting;
      var status := if forced.Some? then forced.value else byDefault;
      if events[e].capacity != 0 && status == Approved {
        if |Counted(regs, e, org)| >= events[e].capacity {
          return Err(Full);
        }
      }
      res := EnterInTransaction(e, f, status);
    }

    method UpdateRegistrationStatus(r: RegId, org: Option<OrgId>, status: Status) returns (res: Result<(), Error>)
      modifies this`regs
      ensures (S(), res) == UpdateStatus(old(S()), r, org, status)
    {
      if r !in regs || regs[r].event !in events || (org.Some? && regs[r].org != org.value) {
        return Err(NotFound);
      }
      if status == Approved && regs[r].status != Approved {
        var event := events[regs[r].event];
        if event.capacity != 0 {
          if |Counted(regs, regs[r].event, event.org)| >= event.capacity {
            return Err(Full);
          }
        }
      }
      regs := regs[r := regs[r].(status := status)];
      return Ok(());
    }

    method RestoreRegistration(r: RegId, org: Option<OrgId>) returns (res: Result<(), Error>)
      modifies this`regs
      ensures (S(), res) == Restore(old(S()), r, org)
    {
      if r !in regs || !regs[r].deleted || regs[r].event !in events || (org.Some? && regs[r].org != org.value) {
        return Err(NotFound);
      }
      if regs[r].status == Approved {
        var event := events[regs[r].event];
        if event.capacity != 0 {
          if |Counted(regs, regs[r].event, event.org)| >= event.capacity {
            return Err(Full);
          }
        }
      }
      regs := regs[r := regs[r].(deleted := false)];
      return Ok(());
    }
  }
}
