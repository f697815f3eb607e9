/**
 What every run of the registration services keeps
 (src/modules/public/public.service.ts,
 src/modules/registrations/registrations.service.ts).
 */
module RegistrationRuns {
  import opened Collections
  import opened Wrappers
  import opened Registrations

  datatype Op =
    | DoRegister(link: string, f: Form)
    | DoCreate(e: EventId, org: OrgId, f: Form, forced: Option<Status>, mobile: bool)
    | DoUpdateStatus(r: RegId, caller: Option<OrgId>, status: Status)
    | DoRemove(r: RegId, caller: Option<OrgId>)
    | DoRestore(r: RegId, caller: Option<OrgId>)
    | DoPermanentDelete(r: RegId, caller: Option<OrgId>)

  function Step(s: State, op: Op): State {
    match op
    case DoRegister(link, f) => Register(s, link, f).0
    case DoCreate(e, org, f, forced, mobile) => CreateByAdmin(s, e, org, f, forced, mobile).0
    case DoUpdateStatus(r, caller, status) => UpdateStatus(s, r, caller, status).0
    case DoRemove(r, caller) => Remove(s, r, caller).0
    case DoRestore(r, caller) => Restore(s, r, caller).0
    case DoPermanentDelete(r, caller) => PermanentDelete(s, r, caller).0
  }

  function Run(s: State, ops: seq<Op>): State
    decreases |ops|
  {
    if ops == [] then s else Run(Step(s, ops[0]), ops[1..])
  }

  // ---------- the capacity ----------

  /** The count filtered by organisation misses no seat, because organisations agree. */
  lemma CountedAreTheSeats(s: State, e: EventId)
    requires OrgsAgree(s) && e in s.events
    ensures Counted(s.regs, e, s.events[e].org) == Seats(s.regs, e)
  {
  }

  /** Giving a seat to one registration, when there is room, stays within the capacity. */
  lemma SeatingKeepsCapacity(s: State, regs': map<RegId, Registration>, r: RegId)
    requires OrgsAgree(s) && WithinCapacity(s)
    requires r in regs' && regs'[r].event in s.events
    requires forall q :: q in regs' && q != r ==> q in s.regs && regs'[q] == s.regs[q]
    requires r in Seats(regs', regs'[r].event) && r !in Seats(s.regs, regs'[r].event) ==> HasRoom(s, regs'[r].event)
    requires r in s.regs ==> s.regs[r].event == regs'[r].event
    ensures WithinCapacity(s.(regs := regs'))
  {
    forall e | e in s.events && s.events[e].capacity != 0 ensures |Seats(regs', e)| <= s.events[e].capacity {
      if r in Seats(regs', e) && r !in Seats(s.regs, e) {
        CountedAreTheSeats(s, e);
        SubsetIsNoLarger(Seats(regs', e), Seats(s.regs, e) + {r});
      } else {
        SubsetIsNoLarger(Seats(regs', e), Seats(s.regs, e));
      }
    }
  }

  /** The other parts of the invariant, after one row was inserted or changed. */
  lemma RowKeepsShape(s: State, r: RegId, row: Registration)
    requires Inv(s)
    requires if r in s.regs
             then row.event == s.regs[r].event && row.attendee == s.regs[r].attendee && row.org == s.regs[r].org
             else r < s.next && row.event in s.events && row.org == s.events[row.event].org == row.attendee.0
                  && row.attendee in s.attendees && !Registered(s.regs, row.event, row.attendee)
    ensures UniquePairs(s.regs[r := row]) && OrgsAgree(s.(regs := s.regs[r := row]))
  {
    if r !in s.regs {
      assert forall q :: q in s.regs ==> !IsOf(s.regs[q], row.event, row.attendee);
    }
  }

  /** A row may change its status or come back when it has a seat already, or there is room. */
  lemma RowKeepsInv(s: State, r: RegId, row: Registration)
    requires Inv(s) && r in s.regs
    requires row.event == s.regs[r].event && row.attendee == s.regs[r].attendee && row.org == s.regs[r].org
    requires row.status == Approved && !row.deleted && !(s.regs[r].status == Approved && !s.regs[r].deleted) ==>
      HasRoom(s, row.event)
    ensures Inv(s.(regs := s.regs[r := row]))
  {
    RowKeepsShape(s, r, row);
    SeatingKeepsCapacity(s, s.regs[r := row], r);
  }

  lemma InsertKeepsInv(s: State, attendees': map<AttendeeKey, Profile>, row: Registration)
    requires Inv(s) && s.attendees.Keys <= attendees'.Keys && row.attendee in attendees'
    requires row.event in s.events && row.org == s.events[row.event].org == row.attendee.0
    requires !Registered(s.regs, row.event, row.attendee)
    requires row.status == Approved && !row.deleted ==> HasRoom(s, row.event)
    ensures Inv(s.(attendees := attendees', regs := s.regs[s.next := row], next := s.next + 1))
  {
    var s1 := s.(attendees := attendees', next := s.next + 1);
    assert Inv(s1);
    RowKeepsShape(s1, s.next, row);
    SeatingKeepsCapacity(s, s.regs[s.next := row], s.next);
  }

  lemma EnterKeepsInv(s: State, e: EventId, f: Form, status: Status)
    requires Inv(s) && e in s.events
    ensures Inv(Enter(s, e, f, status).0)
  {
    if Enter(s, e, f, status).1.Ok? {
      var a := (s.events[e].org, f.email);
      InsertKeepsInv(s, Upsert(s.attendees, a, f.profile), Registration(s.events[e].org, e, a, status, false));
    }
  }

  lemma DeletingKeepsInv(s: State, r: RegId)
    requires Inv(s)
    ensures Inv(s.(regs := map q | q in s.regs && q != r :: s.regs[q]))
  {
    var regs' := map q | q in s.regs && q != r :: s.regs[q];
    forall e ensures |Seats(regs', e)| <= |Seats(s.regs, e)| { SubsetIsNoLarger(Seats(regs', e), Seats(s.regs, e)); }
  }

  lemma UpdateStatusKeepsInv(s: State, r: RegId, caller: Option<OrgId>, status: Status)
    requires Inv(s)
    ensures Inv(UpdateStatus(s, r, caller, status).0)
  {
    if UpdateStatus(s, r, caller, status).1.Ok? { RowKeepsInv(s, r, s.regs[r].(status := status)); }
  }

  lemma RemoveKeepsInv(s: State, r: RegId, caller: Option<OrgId>)
    requires Inv(s)
    ensures Inv(Remove(s, r, caller).0)
  {
    if Remove(s, r, caller).1.Ok? { RowKeepsInv(s, r, s.regs[r].(deleted := true)); }
  }

  lemma RestoreKeepsInv(s: State, r: RegId, caller: Option<OrgId>)
    requires Inv(s)
    ensures Inv(Restore(s, r, caller).0)
  {
    if Restore(s, r, caller).1.Ok? { RowKeepsInv(s, r, s.regs[r].(deleted := false)); }
  }

  lemma RegisterKeepsInv(s: State, link: string, f: Form)
    requires Inv(s)
    ensures Inv(Register(s, link, f).0)
  {
    var e := FindEvent(s, link);
    if e.Some? {
      EnterKeepsInv(s, e.value, f, if s.events[e.value].autoApprove == Some(true) then Approved else Awaiting);
    }
  }

  lemma CreateKeepsInv(s: State, e: EventId, org: OrgId, f: Form, forced: Option<Status>, mobile: bool)
    requires Inv(s)
    ensures Inv(CreateByAdmin(s, e, org, f, forced, mobile).0)
  {
    if e in s.events { EnterKeepsInv(s, e, f, AdminStatus(s.events[e], forced, mobile)); }
  }

  lemma StepKeepsInv(s: State, op: Op)
    requires Inv(s)
    ensures Inv(Step(s, op))
  {
    match op
    case DoRegister(link, f) => RegisterKeepsInv(s, link, f);
    case DoCreate(e, org, f, forced, mobile) => CreateKeepsInv(s, e, org, f, forced, mobile);
    case DoUpdateStatus(r, caller, status) => UpdateStatusKeepsInv(s, r, caller, status);
    case DoRemove(r, caller) => RemoveKeepsInv(s, r, caller);
    case DoRestore(r, caller) => RestoreKeepsInv(s, r, caller);
    case DoPermanentDelete(r, caller) => if Step(s, op) != s { DeletingKeepsInv(s, r); }
  }

  lemma EventsAreFixed(s: State, op: Op)
    ensures Step(s, op).events == s.events
  {
  }

  lemma {:induction false} RunKeepsInv(s: State, ops: seq<Op>)
    requires Inv(s)
    ensures Inv(Run(s, ops)) && Run(s, ops).events == s.events
    decreases |ops|
  {
    if ops != [] {
      StepKeepsInv(s, ops[0]);
      EventsAreFixed(s, ops[0]);
      RunKeepsInv(Step(s, ops[0]), ops[1..]);
    }
  }

  /**
   In every run of registrations, approvals, removals and restorations, the
   approved registrations of an event never exceed its capacity.
   */
  lemma CapacityIsNeverExceeded(s: State, ops: seq<Op>, e: EventId)
    requires Inv(s) && e in s.events && s.events[e].capacity != 0
    ensures |Seats(Run(s, ops).regs, e)| <= s.events[e].capacity
  {
    RunKeepsInv(s, ops);
  }

  /** Nobody has registered yet. */
  lemma EmptyDeskSatisfiesInv(events: map<EventId, Event>, tokens: map<string, EventId>, kinds: set<TypeId>)
    ensures Inv(State(events, tokens, kinds, map[], map[], 0))
  {
    forall e ensures Seats(map[], e) == {} {}
  }

  // ---------- the public form ----------

  /**
   The form accepts exactly a published event, an attendee without any row for
   it, an existing type of participant if one is given, and, with automatic
   approval, a free seat.
   */
  lemma RegistrationSucceedsExactly(s: State, link: string, f: Form)
    requires Inv(s)
    ensures Register(s, link, f).1.Ok? <==>
      var e := FindEvent(s, link);
      && e.Some? && s.events[e.value].published
      && !Registered(s.regs, e.value, (s.events[e.value].org, f.email)) && KindOk(s, f)
      && (s.events[e.value].autoApprove == Some(true) && s.events[e.value].capacity != 0 ==>
            |Seats(s.regs, e.value)| < s.events[e.value].capacity)
  {
    var e := FindEvent(s, link);
    if e.Some? {
      CountedAreTheSeats(s, e.value);
    }
  }

  /** A refused or failed call changes no table; a successful one adds one row and touches one attendee. */
  lemma RegistrationChangesOneRow(s: State, link: string, f: Form)
    requires Inv(s)
    ensures var (s', res) := Register(s, link, f);
      if res.Err? then s' == s
      else
        var e := FindEvent(s, link).value; var a := (s.events[e].org, f.email);
        && res == Ok(s.next) && s.next !in s.regs
        && s'.regs.Keys == s.regs.Keys + {s.next} && (forall r :: r in s.regs ==> s'.regs[r] == s.regs[r])
        && IsOf(s'.regs[s.next], e, a) && !s'.regs[s.next].deleted && s'.regs[s.next].org == s.events[e].org
        && (s'.regs[s.next].status == Approved <==> s.events[e].autoApprove == Some(true))
        && s'.attendees.Keys == s.attendees.Keys + {a}
        && (forall b :: b in s.attendees && b != a ==> s'.attendees[b] == s.attendees[b])
        && s'.events == s.events && s'.tokens == s.tokens && s'.kinds == s.kinds
  {
  }

  /** The operation neither changes the status of row `r` nor erases it. */
  predicate Spares(op: Op, r: RegId) {
    && (op.DoUpdateStatus? ==> op.r != r)
    && (op.DoPermanentDelete? ==> op.r != r)
  }

  lemma SparedInOneStep(s: State, op: Op, r: RegId)
    requires (forall q :: q in s.regs ==> q < s.next) && r in s.regs && Spares(op, r)
    ensures var s' := Step(s, op);
      && r in s'.regs && s'.regs[r].status == s.regs[r].status
      && s'.regs[r].event == s.regs[r].event && s'.regs[r].attendee == s.regs[r].attendee
  {
  }

  lemma {:induction false} CancelledRowStays(s: State, ops: seq<Op>, r: RegId)
    requires Inv(s) && r in s.regs && s.regs[r].status == Cancelled
    requires forall i :: 0 <= i < |ops| ==> Spares(ops[i], r)
    ensures var s' := Run(s, ops);
      && r in s'.regs && s'.regs[r].status == Cancelled
      && s'.regs[r].event == s.regs[r].event && s'.regs[r].attendee == s.regs[r].attendee
    decreases |ops|
  {
    if ops != [] {
      StepKeepsInv(s, ops[0]);
      SparedInOneStep(s, ops[0], r);
      CancelledRowStays(Step(s, ops[0]), ops[1..], r);
    }
  }

  lemma {:induction false} TokensAreFixed(s: State, ops: seq<Op>)
    ensures Run(s, ops).tokens == s.tokens
    decreases |ops|
  {
    if ops != [] { TokensAreFixed(Step(s, ops[0]), ops[1..]); }
  }

  /**
   A cancelled registration blocks the public form: until that row changes
   status or is erased, the attendee is refused, although no rule of the
   service says so; where the event is not full the insert fails on the unique
   index.
   */
  lemma CancelledAttendeesCannotReturn(s: State, ops: seq<Op>, r: RegId, link: string, f: Form)
    requires Inv(s) && r in s.regs && s.regs[r].status == Cancelled
    requires forall i :: 0 <= i < |ops| ==> Spares(ops[i], r)
    requires FindEvent(s, link) == Some(s.regs[r].event) && s.events[s.regs[r].event].published
    requires f.email == s.regs[r].attendee.1
    ensures
      var s', e := Run(s, ops), s.regs[r].event;
      && e in s'.events
      && Register(s', link, f) == (s', Err(
           if s'.events[e].autoApprove == Some(true) && !HasRoom(s', e) then Full else Constraint))
  {
    CancelledRowStays(s, ops, r);
    RunKeepsInv(s, ops);
    TokensAreFixed(s, ops);
    var s' := Run(s, ops);
    var e, a := s.regs[r].event, s.regs[r].attendee;
    forall status ensures RegisteredAs(s'.regs, e, a, status) <==> status == Cancelled {
      TheRowDecides(s'.regs, e, a, r, status);
    }
  }
}
