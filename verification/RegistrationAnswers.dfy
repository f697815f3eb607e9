/**
 Which answer each registration request gets, and what it writes, said in terms
 of the tables alone (src/modules/public/public.service.ts:156-300,
 src/modules/registrations/registrations.service.ts:188-582).
 */
module RegistrationAnswers {
  import opened Collections
  import opened Wrappers
  import opened Registrations
  import opened RegistrationRuns

  // ---------- what the tables say ----------

  /** The event behind a public link: the one with that token, else the one with that id and settings. */
  ghost predicate LinksTo(s: State, link: string, e: EventId) {
    if link in s.tokens && s.tokens[link] in s.events then e == s.tokens[link]
    else e == link && link in s.events && s.events[link].autoApprove.Some?
  }

  /** The row of an event and an attendee has this status. */
  ghost predicate RowHas(s: State, e: EventId, a: AttendeeKey, status: Status) {
    exists r :: r in s.regs && s.regs[r].event == e && s.regs[r].attendee == a && s.regs[r].status == status
  }

  /** The approved rows of an event that are not deleted fill it. */
  ghost predicate IsFull(s: State, e: EventId)
    requires e in s.events
  {
    s.events[e].capacity != 0
    && |(set r | r in s.regs && s.regs[r].event == e && s.regs[r].status == Approved && !s.regs[r].deleted)|
       >= s.events[e].capacity
  }

  ghost predicate KindUnknown(s: State, f: Form) {
    f.kind.Some? && f.kind.value !in s.kinds
  }

  lemma RoomIsExact(s: State, e: EventId)
    requires OrgsAgree(s) && e in s.events
    ensures HasRoom(s, e) <==> !IsFull(s, e)
  {
    assert Counted(s.regs, e, s.events[e].org)
        == set r | r in s.regs && s.regs[r].event == e && s.regs[r].status == Approved && !s.regs[r].deleted;
  }

  lemma RowIsExact(s: State, e: EventId, a: AttendeeKey, status: Status)
    ensures RegisteredAs(s.regs, e, a, status) <==> RowHas(s, e, a, status)
    ensures Registered(s.regs, e, a) <==>
      RowHas(s, e, a, Awaiting) || RowHas(s, e, a, Approved) || RowHas(s, e, a, Refused) || RowHas(s, e, a, Cancelled)
  {
    forall st ensures RegisteredAs(s.regs, e, a, st) <==> RowHas(s, e, a, st) {
      assert RegisteredAs(s.regs, e, a, st) ==> RowHas(s, e, a, st);
    }
    if Registered(s.regs, e, a) {
      var r :| r in s.regs && IsOf(s.regs[r], e, a);
      assert RowHas(s, e, a, s.regs[r].status);
    }
  }

  // ---------- entering ----------

  /** The answer to an entry with a given status, once the event is found. */
  ghost function EntryAnswer(s: State, e: EventId, f: Form, status: Status): Result<RegId, Error>
    requires e in s.events
  {
    var a := (s.events[e].org, f.email);
    if RowHas(s, e, a, Refused) then Err(Declined)
    else if RowHas(s, e, a, Awaiting) || RowHas(s, e, a, Approved) then Err(AlreadyRegistered)
    else if status == Approved && IsFull(s, e) then Err(Full)
    else if RowHas(s, e, a, Cancelled) || KindUnknown(s, f) then Err(Constraint)
    else Ok(s.next)
  }

  lemma EnterAnswers(s: State, e: EventId, f: Form, status: Status)
    requires OrgsAgree(s) && e in s.events
    ensures Enter(s, e, f, status).1 == EntryAnswer(s, e, f, status)
  {
    var a := (s.events[e].org, f.email);
    RoomIsExact(s, e);
    RowIsExact(s, e, a, Refused);
    RowIsExact(s, e, a, Awaiting);
    RowIsExact(s, e, a, Approved);
  }

  /**
   What an entry writes: nothing when refused; otherwise one row with the status
   asked for, and the details of the attendee: all of them for a new attendee,
   those filled in for a known one.
   */
  ghost predicate Entered(s: State, e: EventId, f: Form, status: Status, s': State)
    requires e in s.events
  {
    var a := (s.events[e].org, f.email);
    && s'.attendees.Keys == s.attendees.Keys + {a}
    && s'.attendees == s.attendees[a := s'.attendees[a]]
    && (a !in s.attendees ==> s'.attendees[a] == f.profile)
    && (a in s.attendees ==>
          forall k ::
            var filled := k in f.profile && f.profile[k] != "";
            && (k in s'.attendees[a] <==> k in s.attendees[a] || filled)
            && (k in s'.attendees[a] ==> s'.attendees[a][k] == if filled then f.profile[k] else s.attendees[a][k]))
    && s' == s.(attendees := s'.attendees, next := s.next + 1,
                regs := s.regs[s.next := Registration(s.events[e].org, e, a, status, false)])
  }

  lemma EnterWrites(s: State, e: EventId, f: Form, status: Status)
    requires e in s.events
    ensures
      var (s', res) := Enter(s, e, f, status);
      if res.Ok? then Entered(s, e, f, status, s') else s' == s
  {
  }

  // ---------- the public form ----------

  ghost function FormStatus(event: Event): Status {
    if event.autoApprove == Some(true) then Approved else Awaiting
  }

  /** Which answer the public form gives, exactly. */
  lemma RegisterAnswers(s: State, link: string, f: Form, e: EventId)
    requires Inv(s)
    ensures (forall x :: !LinksTo(s, link, x)) ==> Register(s, link, f).1 == Err(NotFound)
    ensures LinksTo(s, link, e) ==>
      Register(s, link, f).1 ==
        if !s.events[e].published then Err(Closed) else EntryAnswer(s, e, f, FormStatus(s.events[e]))
  {
    var found := FindEvent(s, link);
    assert found.Some? ==> LinksTo(s, link, found.value);
    if LinksTo(s, link, e) && s.events[e].published {
      EnterAnswers(s, e, f, FormStatus(s.events[e]));
    }
  }

  /** What the public form writes: approved with automatic approval, awaiting without. */
  lemma RegisterWrites(s: State, link: string, f: Form, e: EventId)
    requires LinksTo(s, link, e)
    ensures
      var (s', res) := Register(s, link, f);
      if res.Ok? then Entered(s, e, f, FormStatus(s.events[e]), s') else s' == s
  {
    if s.events[e].published {
      EnterWrites(s, e, f, FormStatus(s.events[e]));
    }
  }

  // ---------- administration ----------

  ghost function AdminFormStatus(event: Event, forced: Option<Status>, mobile: bool): Status {
    match forced
    case Some(status) => status
    case None => if event.autoApprove == Some(true) || mobile then Approved else Awaiting
  }

  /** Registration by an administrator: a full event is reported before anything about the attendee. */
  lemma CreateByAdminAnswers(s: State, e: EventId, org: OrgId, f: Form, forced: Option<Status>, mobile: bool)
    requires Inv(s)
    ensures
      var (s', res) := CreateByAdmin(s, e, org, f, forced, mobile);
      if e !in s.events || s.events[e].org != org then (s', res) == (s, Err(NotFound))
      else
        var status := AdminFormStatus(s.events[e], forced, mobile);
        && res == (if status == Approved && IsFull(s, e) then Err(Full) else EntryAnswer(s, e, f, status))
        && (if res.Ok? then Entered(s, e, f, status, s') else s' == s)
  {
    if e in s.events && s.events[e].org == org {
      var status := AdminFormStatus(s.events[e], forced, mobile);
      RoomIsExact(s, e);
      EnterAnswers(s, e, f, status);
      EnterWrites(s, e, f, status);
    }
  }

  /** The row is there and the caller, if bound to an organisation, belongs to its organisation. */
  ghost predicate MaySee(s: State, r: RegId, org: Option<OrgId>) {
    r in s.regs && (org.Some? ==> s.regs[r].org == org.value)
  }

  /** Changing a status: only approving a row that was not approved needs room. */
  lemma UpdateStatusAnswers(s: State, r: RegId, org: Option<OrgId>, status: Status)
    requires Inv(s)
    ensures
      UpdateStatus(s, r, org, status) ==
        if !MaySee(s, r, org) then (s, Err(NotFound))
        else if status == Approved && s.regs[r].status != Approved && IsFull(s, s.regs[r].event) then (s, Err(Full))
        else (s.(regs := s.regs[r := s.regs[r].(status := status)]), Ok(()))
  {
    if MaySee(s, r, org) {
      RoomIsExact(s, s.regs[r].event);
    }
  }

  /** Removing marks the row. */
  lemma RemoveAnswers(s: State, r: RegId, org: Option<OrgId>)
    requires Inv(s)
    ensures
      Remove(s, r, org) ==
        if !MaySee(s, r, org) then (s, Err(NotFound))
        else (s.(regs := s.regs[r := s.regs[r].(deleted := true)]), Ok(()))
  {
  }

  /** A removed row can be restored; an approved one needs room. */
  lemma RestoreAnswers(s: State, r: RegId, org: Option<OrgId>)
    requires Inv(s)
    ensures
      Restore(s, r, org) ==
        if !MaySee(s, r, org) || !s.regs[r].deleted then (s, Err(NotFound))
        else if s.regs[r].status == Approved && IsFull(s, s.regs[r].event) then (s, Err(Full))
        else (s.(regs := s.regs[r := s.regs[r].(deleted := false)]), Ok(()))
  {
    if MaySee(s, r, org) {
      RoomIsExact(s, s.regs[r].event);
    }
  }

  /** Only a removed row can be erased. */
  lemma PermanentDeleteAnswers(s: State, r: RegId, org: Option<OrgId>)
    requires Inv(s)
    ensures
      PermanentDelete(s, r, org) ==
        if !MaySee(s, r, org) || !s.regs[r].deleted then (s, Err(NotFound))
        else (s.(regs := s.regs - {r}), Ok(()))
  {
    if MaySee(s, r, org) && s.regs[r].deleted {
      assert PermanentDelete(s, r, org).0.regs == s.regs - {r};
    }
  }
}
