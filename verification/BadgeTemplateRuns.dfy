/**
 Default templates, codes and references over every run of the template
 service, wherever its calls throw, and exactly when a default is lost
 (src/modules/badge-templates/badge-templates.service.ts:15-67, 153-229, 501-525).
 */
module BadgeTemplateRuns {
  import opened Wrappers
  import opened Slugs
  import opened BadgeTemplates

  // ---------- runs ----------

  datatype Op =
    | CreateOp(org: OrgId, code: string, dto: NewTemplate, fails: Option<Await>)
    | UpdateOp(org: OrgId, id: TemplateId, changes: Changes, fails: Option<Await>)
    | RemoveOp(org: OrgId, id: TemplateId)
    | EventOp(event: EventId, assign: Option<TemplateId>)
    | PrintOp(badge: BadgeId, from: TemplateId)
    | DropOp(badge: BadgeId)
    | RegistrationOp(reg: RegId, assign: Option<TemplateId>)

  function Step(s: State, op: Op): State {
    match op
    case CreateOp(org, code, dto, fails) => Create(s, org, code, dto, fails).0
    case UpdateOp(org, id, c, fails) => Update(s, org, id, c, fails).0
    case RemoveOp(org, id) => Remove(s, org, id).0
    case EventOp(e, t) => AssignToEvent(s, e, t)
    case PrintOp(b, t) => PrintBadge(s, b, t)
    case DropOp(b) => DropBadge(s, b)
    case RegistrationOp(r, t) => AssignToRegistration(s, r, t)
  }

  function Run(s: State, ops: seq<Op>): State {
    if ops == [] then s else Step(Run(s, ops[..|ops| - 1]), ops[|ops| - 1])
  }

  predicate InScope(t: Template, org: OrgId, event: Option<EventId>) {
    t.org == org && t.event == event
  }

  ghost predicate OneDefaultPerScope(templates: map<TemplateId, Template>) {
    forall a, b ::
      (a in templates && b in templates && templates[a].isDefault && templates[b].isDefault
       && InScope(templates[a], templates[b].org, templates[b].event)) ==> a == b
  }

  ghost predicate CodesUnique(templates: map<TemplateId, Template>) {
    forall a, b ::
      (a in templates && b in templates && templates[a].org == templates[b].org
       && templates[a].code == templates[b].code) ==> a == b
  }

  /** A template of an event belongs to the event's organisation. */
  ghost predicate EventsOk(s: State) {
    forall t :: t in s.templates ==> t < s.next && EventOk(s, s.templates[t].org, s.templates[t].event)
  }

  /** References lead to templates; those of event settings, to one of the event's organisation. */
  ghost predicate ReferencesOk(s: State) {
    && (forall e :: e in s.settings ==> e in s.events && Owned(s, s.events[e], s.settings[e]))
    && (forall b :: b in s.badges ==> s.badges[b] in s.templates)
    && (forall r :: r in s.regs ==> s.regs[r] in s.templates)
  }

  ghost predicate Inv(s: State) {
    EventsOk(s) && OneDefaultPerScope(s.templates) && CodesUnique(s.templates) && ReferencesOk(s)
  }

  predicate SameIdentity(t: Template, t': Template) {
    t'.org == t.org && t'.event == t.event && t'.code == t.code
  }

  /** Every row that stays keeps its organisation, event and code. */
  ghost predicate Evolves(before: map<TemplateId, Template>, after: map<TemplateId, Template>) {
    forall t :: t in before && t in after ==> SameIdentity(before[t], after[t])
  }

  lemma UnsetOnlyClears(templates: map<TemplateId, Template>, org: OrgId, event: Option<EventId>)
    ensures
      var after := Unset(templates, org, event);
      && after.Keys == templates.Keys && Evolves(templates, after)
      && forall t :: t in templates ==>
           (after[t].isDefault <==> templates[t].isDefault && !InScope(templates[t], org, event))
  {
  }

  lemma CodesAfterEvolution(before: map<TemplateId, Template>, after: map<TemplateId, Template>)
    requires CodesUnique(before) && after.Keys <= before.Keys && Evolves(before, after)
    ensures CodesUnique(after)
  {
    forall a, b | a in after && b in after && after[a].org == after[b].org && after[a].code == after[b].code
      ensures a == b
    {
      assert SameIdentity(before[a], after[a]) && SameIdentity(before[b], after[b]);
    }
  }

  /** A row written as a default needs a scope where no other row is one. */
  lemma DefaultWritten(templates: map<TemplateId, Template>, id: TemplateId, t: Template)
    requires OneDefaultPerScope(templates)
    requires t.isDefault ==>
      forall a :: a in templates && a != id && InScope(templates[a], t.org, t.event) ==> !templates[a].isDefault
    ensures OneDefaultPerScope(templates[id := t])
  {
  }

  lemma ClearedKeepsOneDefault(before: map<TemplateId, Template>, after: map<TemplateId, Template>)
    requires OneDefaultPerScope(before) && after.Keys <= before.Keys && Evolves(before, after)
    requires forall t :: t in after && after[t].isDefault ==> before[t].isDefault
    ensures OneDefaultPerScope(after)
  {
    forall a, b | a in after && b in after && after[a].isDefault && after[b].isDefault
                  && InScope(after[a], after[b].org, after[b].event)
      ensures a == b
    {
      assert SameIdentity(before[a], after[a]) && SameIdentity(before[b], after[b]);
    }
  }

  lemma CodeWritten(templates: map<TemplateId, Template>, id: TemplateId, t: Template)
    requires CodesUnique(templates) && id !in templates && !CodeInUse(templates, t.org, t.code)
    ensures CodesUnique(templates[id := t]) && Evolves(templates, templates[id := t])
  {
    assert forall a :: a in templates && templates[a].org == t.org ==> templates[a].code != t.code;
  }

  lemma CodeStaysFree(before: map<TemplateId, Template>, after: map<TemplateId, Template>, org: OrgId, code: string)
    requires Evolves(before, after) && after.Keys <= before.Keys && !CodeInUse(before, org, code)
    ensures !CodeInUse(after, org, code)
  {
    assert forall t :: t in after ==> SameIdentity(before[t], after[t]);
  }

  /** The table a creation leaves when it gets as far as the insertion. */
  lemma RowCreated(templates: map<TemplateId, Template>, before: map<TemplateId, Template>, id: TemplateId, t: Template)
    requires OneDefaultPerScope(templates) && CodesUnique(templates) && !CodeInUse(templates, t.org, t.code)
    requires before == if t.isDefault then Unset(templates, t.org, t.event) else templates
    requires id !in templates
    ensures OneDefaultPerScope(before) && CodesUnique(before) && Evolves(templates, before)
    ensures OneDefaultPerScope(before[id := t]) && CodesUnique(before[id := t]) && Evolves(templates, before[id := t])
  {
    UnsetOnlyClears(templates, t.org, t.event);
    CodesAfterEvolution(templates, before);
    ClearedKeepsOneDefault(templates, before);
    CodeStaysFree(templates, before, t.org, t.code);
    CodeWritten(before, id, t);
    DefaultWritten(before, id, t);
  }

  lemma ReferencesAfterEvolution(s: State, s': State)
    requires ReferencesOk(s) && Evolves(s.templates, s'.templates) && s.templates.Keys <= s'.templates.Keys
    requires s'.events == s.events && s'.settings == s.settings && s'.badges == s.badges && s'.regs == s.regs
    ensures ReferencesOk(s')
  {
    forall e | e in s'.settings ensures e in s'.events && Owned(s', s'.events[e], s'.settings[e]) {
      assert Owned(s, s.events[e], s.settings[e]);
      assert SameIdentity(s.templates[s.settings[e]], s'.templates[s.settings[e]]);
    }
  }

  lemma EventsAfterEvolution(s: State, s': State)
    requires EventsOk(s) && Evolves(s.templates, s'.templates) && s'.events == s.events && s.next <= s'.next
    requires forall t :: t in s'.templates && t !in s.templates ==>
      t < s'.next && EventOk(s, s'.templates[t].org, s'.templates[t].event)
    ensures EventsOk(s')
  {
    forall t | t in s'.templates ensures t < s'.next && EventOk(s', s'.templates[t].org, s'.templates[t].event) {
      assert t in s.templates ==> SameIdentity(s.templates[t], s'.templates[t]);
    }
  }

  /** The table of templates after a creation that reached it. */
  ghost predicate CreatedTable(s: State, s': State, org: OrgId, code: string, dto: NewTemplate) {
    var before := if dto.isDefault then Unset(s.templates, org, dto.event) else s.templates;
    var t := Template(org, dto.event, code, dto.name, dto.isDefault, dto.active);
    && !CodeInUse(s.templates, org, code)
    && s'.events == s.events && s'.settings == s.settings && s'.badges == s.badges && s'.regs == s.regs
    && (|| (s'.templates == before && s'.next == s.next)
        || (s'.templates == before[s.next := t] && s'.next == s.next + 1 && EventOk(s, org, dto.event)))
  }

  lemma CreateShape(s: State, org: OrgId, code: string, dto: NewTemplate, fails: Option<Await>)
    ensures var s' := Create(s, org, code, dto, fails).0;
      s' == s || CreatedTable(s, s', org, code, dto)
  {
  }

  lemma CreatedTableKeepsInv(s: State, s': State, org: OrgId, code: string, dto: NewTemplate)
    requires Inv(s) && CreatedTable(s, s', org, code, dto)
    ensures Inv(s') && Evolves(s.templates, s'.templates)
  {
    var before := if dto.isDefault then Unset(s.templates, org, dto.event) else s.templates;
    var t := Template(org, dto.event, code, dto.name, dto.isDefault, dto.active);
    assert s.next !in s.templates;
    RowCreated(s.templates, before, s.next, t);
    assert before.Keys == s.templates.Keys;
    ReferencesAfterEvolution(s, s');
    EventsAfterEvolution(s, s');
  }

  lemma CreateKeepsInv(s: State, org: OrgId, code: string, dto: NewTemplate, fails: Option<Await>)
    requires Inv(s)
    ensures var s' := Create(s, org, code, dto, fails).0; Inv(s') && Evolves(s.templates, s'.templates)
  {
    CreateShape(s, org, code, dto, fails);
    var s' := Create(s, org, code, dto, fails).0;
    if s' != s {
      CreatedTableKeepsInv(s, s', org, code, dto);
    }
  }

  /** The table of templates after an update that reached it. */
  ghost predicate UpdatedTable(s: State, s': State, org: OrgId, id: TemplateId, c: Changes)
    requires id in s.templates
  {
    var t := s.templates[id];
    var before := if Promotes(t, c) then Unset(s.templates, org, t.event) else s.templates;
    t.org == org && s' == s.(templates := s'.templates)
    && (s'.templates == before || s'.templates == before[id := Merged(t, c)])
  }

  lemma UpdatedTableKeepsInv(s: State, s': State, org: OrgId, id: TemplateId, c: Changes)
    requires Inv(s) && id in s.templates && UpdatedTable(s, s', org, id, c)
    ensures Inv(s') && Evolves(s.templates, s'.templates)
  {
    var t := s.templates[id];
    UnsetOnlyClears(s.templates, org, t.event);
    var before := if Promotes(t, c) then Unset(s.templates, org, t.event) else s.templates;
    ClearedKeepsOneDefault(s.templates, before);
    DefaultWritten(before, id, Merged(t, c));
    CodesAfterEvolution(s.templates, s'.templates);
    ReferencesAfterEvolution(s, s');
    EventsAfterEvolution(s, s');
  }

  lemma UpdateKeepsInv(s: State, org: OrgId, id: TemplateId, c: Changes, fails: Option<Await>)
    requires Inv(s)
    ensures var s' := Update(s, org, id, c, fails).0; Inv(s') && Evolves(s.templates, s'.templates)
  {
    var s' := Update(s, org, id, c, fails).0;
    if s' != s {
      UpdatedTableKeepsInv(s, s', org, id, c);
    }
  }

  lemma ReferencesAfterRemoval(s: State, id: TemplateId)
    requires ReferencesOk(s)
    requires (forall e :: e in s.settings ==> s.settings[e] != id)
             && (forall b :: b in s.badges ==> s.badges[b] != id) && (forall r :: r in s.regs ==> s.regs[r] != id)
    ensures ReferencesOk(s.(templates := s.templates - {id}))
  {
    assert forall e :: e in s.settings ==> Owned(s, s.events[e], s.settings[e]);
  }

  /** A template is removed exactly when it is the organisation's and no event, badge or registration refers to it. */
  lemma RemovalSucceedsExactly(s: State, org: OrgId, id: TemplateId)
    requires Inv(s)
    ensures
      Remove(s, org, id).1.Ok? <==>
        && Owned(s, org, id)
        && (forall e :: e in s.settings ==> s.settings[e] != id)
        && (forall b :: b in s.badges ==> s.badges[b] != id)
        && (forall r :: r in s.regs ==> s.regs[r] != id)
  {
    assert forall e :: e in s.settings ==> Owned(s, s.events[e], s.settings[e]);
  }

  /** A template is removed only when no table refers to it. */
  lemma RemoveKeepsInv(s: State, org: OrgId, id: TemplateId)
    requires Inv(s)
    ensures Inv(Remove(s, org, id).0) && Evolves(s.templates, Remove(s, org, id).0.templates)
  {
    RemovalSucceedsExactly(s, org, id);
    var s' := Remove(s, org, id).0;
    if s' != s {
      EventsAfterEvolution(s, s');
      ReferencesAfterRemoval(s, id);
    }
  }

  ghost predicate Refers(op: Op) {
    op.EventOp? || op.PrintOp? || op.DropOp? || op.RegistrationOp?
  }

  lemma AssigningKeepsReferences(s: State, e: EventId, t: Option<TemplateId>)
    requires ReferencesOk(s)
    ensures ReferencesOk(AssignToEvent(s, e, t))
  {
    var s' := AssignToEvent(s, e, t);
    forall f | f in s'.settings ensures f in s'.events && Owned(s', s'.events[f], s'.settings[f]) {
      assert f in s.settings ==> Owned(s, s.events[f], s.settings[f]);
    }
  }

  lemma PrintingKeepsReferences(s: State, b: BadgeId, t: TemplateId)
    requires ReferencesOk(s)
    ensures ReferencesOk(PrintBadge(s, b, t)) && ReferencesOk(DropBadge(s, b))
  {
    assert forall e :: e in s.settings ==> Owned(s, s.events[e], s.settings[e]);
  }

  lemma RegisteringKeepsReferences(s: State, r: RegId, t: Option<TemplateId>)
    requires ReferencesOk(s)
    ensures ReferencesOk(AssignToRegistration(s, r, t))
  {
    assert forall e :: e in s.settings ==> Owned(s, s.events[e], s.settings[e]);
  }

  lemma ReferringKeepsReferences(s: State, op: Op)
    requires ReferencesOk(s) && Refers(op)
    ensures ReferencesOk(Step(s, op))
    ensures Step(s, op).templates == s.templates && Step(s, op).events == s.events && Step(s, op).next == s.next
  {
    match op
    case EventOp(e, t) => AssigningKeepsReferences(s, e, t);
    case PrintOp(b, t) => PrintingKeepsReferences(s, b, t);
    case DropOp(b) => PrintingKeepsReferences(s, b, 0);
    case RegistrationOp(r, t) => RegisteringKeepsReferences(s, r, t);
  }

  lemma ReferringKeepsInv(s: State, op: Op)
    requires Inv(s) && Refers(op)
    ensures Inv(Step(s, op)) && Step(s, op).templates == s.templates
  {
    ReferringKeepsReferences(s, op);
    EventsAfterEvolution(s, Step(s, op));
  }

  lemma StepKeepsInv(s: State, op: Op)
    requires Inv(s)
    ensures Inv(Step(s, op)) && Evolves(s.templates, Step(s, op).templates)
  {
    match op
    case CreateOp(org, code, dto, fails) => CreateKeepsInv(s, org, code, dto, fails);
    case UpdateOp(org, id, c, fails) => UpdateKeepsInv(s, org, id, c, fails);
    case RemoveOp(org, id) => RemoveKeepsInv(s, org, id);
    case _ => ReferringKeepsInv(s, op);
  }

  /**
   Over every run, wherever its calls throw: at most one default per scope,
   codes unique in each organisation, templates and references in their organisation.
   */
  lemma {:induction false} RunKeepsInv(s: State, ops: seq<Op>)
    requires Inv(s)
    ensures Inv(Run(s, ops))
  {
    if ops != [] {
      RunKeepsInv(s, ops[..|ops| - 1]);
      StepKeepsInv(Run(s, ops[..|ops| - 1]), ops[|ops| - 1]);
    }
  }

  lemma NoTemplateSatisfiesInv(events: map<EventId, OrgId>)
    ensures Inv(State(events, map[], map[], map[], map[], 0))
  {
  }

  // ---------- defaults ----------

  /** The default of a scope, if it has one. */
  ghost predicate IsDefaultOf(templates: map<TemplateId, Template>, id: TemplateId, org: OrgId, event: Option<EventId>) {
    id in templates && InScope(templates[id], org, event) && templates[id].isDefault
  }

  lemma DefaultsAfterUnset(templates: map<TemplateId, Template>, org: OrgId, event: Option<EventId>,
                           a: TemplateId, o: OrgId, e: Option<EventId>)
    ensures
      IsDefaultOf(Unset(templates, org, event), a, o, e) <==> IsDefaultOf(templates, a, o, e) && (o, e) != (org, event)
  {
  }

  lemma DefaultsAfterWrite(templates: map<TemplateId, Template>, id: TemplateId, t: Template,
                           a: TemplateId, o: OrgId, e: Option<EventId>)
    ensures
      IsDefaultOf(templates[id := t], a, o, e) <==>
        if a == id then t.isDefault && InScope(t, o, e) else IsDefaultOf(templates, a, o, e)
  {
  }

  lemma NoTemplateWithoutEvent(s: State, org: OrgId, event: Option<EventId>, a: TemplateId)
    requires EventsOk(s) && !EventOk(s, org, event)
    ensures !IsDefaultOf(s.templates, a, org, event)
  {
    assert a in s.templates ==> EventOk(s, s.templates[a].org, s.templates[a].event);
  }

  lemma DefaultsAfterCreation(s: State, org: OrgId, code: string, dto: NewTemplate, fails: Option<Await>,
                              a: TemplateId, o: OrgId, e: Option<EventId>)
    requires s.next !in s.templates && EventsOk(s)
    ensures
      var (s', r) := Create(s, org, code, dto, fails);
      var hit := dto.isDefault && (o, e) == (org, dto.event);
      && (r.Ok? ==> (IsDefaultOf(s'.templates, a, o, e) <==>
            if a == s.next then hit else IsDefaultOf(s.templates, a, o, e) && !hit))
      && (r == Err(Thrown(SaveTemplate)) ==>
            (IsDefaultOf(s'.templates, a, o, e) <==> IsDefaultOf(s.templates, a, o, e) && !hit))
      && (r.Err? && r != Err(Thrown(SaveTemplate)) ==>
            (IsDefaultOf(s'.templates, a, o, e) <==> IsDefaultOf(s.templates, a, o, e)))
  {
    DefaultsAfterUnset(s.templates, org, dto.event, a, o, e);
    var before := if dto.isDefault then Unset(s.templates, org, dto.event) else s.templates;
    var t := Template(org, dto.event, code, dto.name, dto.isDefault, dto.active);
    var (s', r) := Create(s, org, code, dto, fails);
    if r.Ok? {
      assert s'.templates == before[s.next := t];
      DefaultsAfterWrite(before, s.next, t, a, o, e);
    } else if r == Err(Thrown(SaveTemplate)) {
      assert s'.templates == before;
    } else if r == Err(NoSuchEvent) {
      assert s'.templates == before;
      NoTemplateWithoutEvent(s, org, dto.event, a);
    } else {
      assert s' == s;
    }
  }

  lemma DefaultsAfterUpdate(s: State, org: OrgId, id: TemplateId, c: Changes, fails: Option<Await>,
                            a: TemplateId, o: OrgId, e: Option<EventId>)
    requires Owned(s, org, id)
    ensures
      var (s', r, t) := (Update(s, org, id, c, fails).0, Update(s, org, id, c, fails).1, s.templates[id]);
      var hit := Promotes(t, c) && (o, e) == (org, t.event);
      && (r.Ok? ==> (IsDefaultOf(s'.templates, a, o, e) <==>
            if a == id then Merged(t, c).isDefault && InScope(t, o, e) else IsDefaultOf(s.templates, a, o, e) && !hit))
      && (r == Err(Thrown(SaveTemplate)) ==>
            (IsDefaultOf(s'.templates, a, o, e) <==> IsDefaultOf(s.templates, a, o, e) && !hit))
      && (r.Err? && r != Err(Thrown(SaveTemplate)) ==> s' == s)
  {
    var t := s.templates[id];
    DefaultsAfterUnset(s.templates, org, t.event, a, o, e);
    var before := if Promotes(t, c) then Unset(s.templates, org, t.event) else s.templates;
    var (s', r) := Update(s, org, id, c, fails);
    if r.Ok? {
      assert s'.templates == before[id := Merged(t, c)];
      DefaultsAfterWrite(before, id, Merged(t, c), a, o, e);
    } else if r == Err(Thrown(SaveTemplate)) {
      assert s'.templates == before;
    }
  }

  /** The operation makes `id` the default of its scope. */
  ghost predicate Installs(s: State, op: Op, org: OrgId, event: Option<EventId>, id: TemplateId) {
    || (op.CreateOp? && op.dto.isDefault && Create(s, op.org, op.code, op.dto, op.fails).1 == Ok(id)
        && org == op.org && event == op.dto.event)
    || (op.UpdateOp? && op.changes.isDefault == Some(true) && id == op.id
        && Update(s, op.org, id, op.changes, op.fails).1.Ok?
        && org == op.org && event == s.templates[id].event)
  }

  /** A template made the default, by creation or by update, replaces the previous one; the other scopes keep theirs. */
  lemma NewDefaultReplacesTheOld(s: State, op: Op, org: OrgId, event: Option<EventId>, id: TemplateId)
    requires Inv(s) && Installs(s, op, org, event, id)
    ensures forall a :: IsDefaultOf(Step(s, op).templates, a, org, event) <==> a == id
    ensures forall a, o: OrgId, e :: (o, e) != (org, event) ==>
      (IsDefaultOf(Step(s, op).templates, a, o, e) <==> IsDefaultOf(s.templates, a, o, e))
  {
    forall a, o: OrgId, e
      ensures IsDefaultOf(Step(s, op).templates, a, o, e)
        <==> if (o, e) == (org, event) then a == id else IsDefaultOf(s.templates, a, o, e)
    {
      if op.CreateOp? {
        DefaultsAfterCreation(s, op.org, op.code, op.dto, op.fails, a, o, e);
      } else {
        DefaultsAfterUpdate(s, op.org, op.id, op.changes, op.fails, a, o, e);
      }
    }
  }

  /** The ways to take the default `d` away from its scope. */
  ghost predicate TakesTheDefault(s: State, op: Op, d: TemplateId)
    requires d in s.templates
  {
    var scope := s.templates[d];
    match op
    case CreateOp(org, code, dto, fails) =>
      InScope(scope, org, dto.event) && dto.isDefault && !CodeInUse(s.templates, org, code)
      && fails == Some(SaveTemplate)
    case UpdateOp(org, id, c, fails) =>
      && Owned(s, org, id)
      && (if id == d then c.isDefault == Some(false) && fails != Some(LookUp) && fails != Some(SaveTemplate)
          else InScope(scope, org, s.templates[id].event) && Promotes(s.templates[id], c) && fails == Some(SaveTemplate))
    case RemoveOp(org, id) => id == d && Remove(s, org, id).1.Ok?
    case _ => false
  }

  /** No template is the default of the scope that `d` has in `s`. */
  ghost predicate NoDefaultLeft(s: State, s': State, d: TemplateId)
    requires d in s.templates
  {
    forall a :: !IsDefaultOf(s'.templates, a, s.templates[d].org, s.templates[d].event)
  }

  lemma OnlyDefault(templates: map<TemplateId, Template>, d: TemplateId)
    requires OneDefaultPerScope(templates) && d in templates && templates[d].isDefault
    ensures forall a :: IsDefaultOf(templates, a, templates[d].org, templates[d].event) <==> a == d
  {
  }

  lemma LostByCreation(s: State, org: OrgId, code: string, dto: NewTemplate, fails: Option<Await>, d: TemplateId)
    requires Inv(s) && d in s.templates && s.templates[d].isDefault
    ensures NoDefaultLeft(s, Create(s, org, code, dto, fails).0, d)
      <==> TakesTheDefault(s, CreateOp(org, code, dto, fails), d)
  {
    var (s', r) := Create(s, org, code, dto, fails);
    var o, e := s.templates[d].org, s.templates[d].event;
    forall a {
      DefaultsAfterCreation(s, org, code, dto, fails, a, o, e);
    }
    assert EventOk(s, o, e) && IsDefaultOf(s.templates, d, o, e);
    OnlyDefault(s.templates, d);
    assert r.Ok? && dto.isDefault && (o, e) == (org, dto.event) ==> IsDefaultOf(s'.templates, s.next, o, e);
    assert NoDefaultLeft(s, s', d) ==> !IsDefaultOf(s'.templates, d, o, e);
  }

  lemma LostByDemotion(s: State, org: OrgId, c: Changes, fails: Option<Await>, d: TemplateId)
    requires OneDefaultPerScope(s.templates) && Owned(s, org, d) && s.templates[d].isDefault
    ensures NoDefaultLeft(s, Update(s, org, d, c, fails).0, d)
      <==> c.isDefault == Some(false) && fails != Some(LookUp) && fails != Some(SaveTemplate)
  {
    var s' := Update(s, org, d, c, fails).0;
    var o, e := s.templates[d].org, s.templates[d].event;
    OnlyDefault(s.templates, d);
    forall a ensures a != d ==> !IsDefaultOf(s'.templates, a, o, e) {
      assert a != d && a in s'.templates ==> s'.templates[a] == s.templates[a];
    }
    assert IsDefaultOf(s'.templates, d, o, e) <==> s'.templates[d].isDefault;
  }

  lemma LostByPromotion(s: State, org: OrgId, id: TemplateId, c: Changes, fails: Option<Await>, d: TemplateId)
    requires OneDefaultPerScope(s.templates) && d in s.templates && s.templates[d].isDefault
    requires Owned(s, org, id) && id != d
    ensures NoDefaultLeft(s, Update(s, org, id, c, fails).0, d)
      <==> TakesTheDefault(s, UpdateOp(org, id, c, fails), d)
  {
    var (s', r) := Update(s, org, id, c, fails);
    var o, e := s.templates[d].org, s.templates[d].event;
    OnlyDefault(s.templates, d);
    forall a {
      DefaultsAfterUpdate(s, org, id, c, fails, a, o, e);
    }
    assert IsDefaultOf(s.templates, d, o, e) && !IsDefaultOf(s.templates, id, o, e);
    assert NoDefaultLeft(s, s', d) ==> !IsDefaultOf(s'.templates, d, o, e) && !IsDefaultOf(s'.templates, id, o, e);
  }

  lemma LostByUpdate(s: State, org: OrgId, id: TemplateId, c: Changes, fails: Option<Await>, d: TemplateId)
    requires Inv(s) && d in s.templates && s.templates[d].isDefault
    ensures NoDefaultLeft(s, Update(s, org, id, c, fails).0, d)
      <==> TakesTheDefault(s, UpdateOp(org, id, c, fails), d)
  {
    var (s', r) := Update(s, org, id, c, fails);
    var o, e := s.templates[d].org, s.templates[d].event;
    OnlyDefault(s.templates, d);
    if !Owned(s, org, id) {
      assert IsDefaultOf(s'.templates, d, o, e);
    } else if id == d {
      LostByDemotion(s, org, c, fails, d);
    } else {
      LostByPromotion(s, org, id, c, fails, d);
    }
  }

  lemma LostByRemoval(s: State, org: OrgId, id: TemplateId, d: TemplateId)
    requires OneDefaultPerScope(s.templates) && d in s.templates && s.templates[d].isDefault
    ensures NoDefaultLeft(s, Remove(s, org, id).0, d) <==> id == d && Remove(s, org, id).1.Ok?
  {
    var s' := Remove(s, org, id).0;
    OnlyDefault(s.templates, d);
    assert d in s'.templates ==> IsDefaultOf(s'.templates, d, s.templates[d].org, s.templates[d].event);
    assert forall a :: a in s'.templates ==> a in s.templates && s'.templates[a] == s.templates[a];
  }

  /**
   A scope that has a default loses it exactly in these steps: the default is
   demoted or removed, or a creation or an update of another template has
   cleared it and its own write then throws.
   */
  lemma DefaultIsLostExactly(s: State, op: Op, d: TemplateId)
    requires Inv(s) && d in s.templates && s.templates[d].isDefault
    ensures NoDefaultLeft(s, Step(s, op), d) <==> TakesTheDefault(s, op, d)
  {
    var s', org, event := Step(s, op), s.templates[d].org, s.templates[d].event;
    match op
    case CreateOp(o, code, dto, fails) => LostByCreation(s, o, code, dto, fails, d);
    case UpdateOp(o, id, c, fails) => LostByUpdate(s, o, id, c, fails, d);
    case RemoveOp(o, id) => LostByRemoval(s, o, id, d);
    case _ =>
      ReferringKeepsReferences(s, op);
      assert IsDefaultOf(s'.templates, d, org, event);
  }

  // ---------- creation ----------

  /** Creation succeeds exactly when nothing it calls throws, the code is free and the event belongs to the organisation. */
  lemma CreationSucceedsExactly(s: State, org: OrgId, fold: string -> string, dto: NewTemplate, fails: Option<Await>)
    requires Inv(s)
    ensures
      var (s', r) := Create(s, org, GenerateCode(fold, dto.name), dto, fails);
      && (r.Ok? <==>
            && (fails == None || (fails == Some(ClearDefaults) && !dto.isDefault))
            && (forall t :: Owned(s, org, t) ==> s.templates[t].code != GenerateCode(fold, dto.name))
            && EventOk(s, org, dto.event))
      && (r.Ok? ==> r.value in s'.templates && IsCode(s'.templates[r.value].code)
                    && r.value !in s.templates && s'.templates.Keys == s.templates.Keys + {r.value})
  {
    assert fails.Some? ==> fails.value.LookUp? || fails.value.ClearDefaults? || fails.value.SaveTemplate?;
    CodeIsWellFormed(fold(dto.name));
  }

  lemma UnsetIsTheIdentity(templates: map<TemplateId, Template>, org: OrgId, event: Option<EventId>)
    ensures Unset(templates, org, event) == templates <==> !exists d :: IsDefaultOf(templates, d, org, event)
  {
    var after := Unset(templates, org, event);
    if after == templates {
      forall d ensures !IsDefaultOf(templates, d, org, event) {
        assert d in templates ==> after[d] == templates[d];
      }
    } else {
      assert after.Keys == templates.Keys;
      var d :| d in templates && after[d] != templates[d];
      assert IsDefaultOf(templates, d, org, event);
    }
  }

  /**
   A refused creation changes a table in one case only: the insertion throws
   after the default of the scope has been cleared.  A refusal by the code check
   or by the foreign key changes nothing.
   */
  lemma RefusedCreationClearsTheDefault(s: State, org: OrgId, code: string, dto: NewTemplate, fails: Option<Await>)
    requires Inv(s) && Create(s, org, code, dto, fails).1.Err?
    ensures
      Create(s, org, code, dto, fails).0 != s
      <==> (&& fails == Some(SaveTemplate) && dto.isDefault && !CodeInUse(s.templates, org, code)
            && exists d :: IsDefaultOf(s.templates, d, org, dto.event))
  {
    UnsetIsTheIdentity(s.templates, org, dto.event);
    if !EventOk(s, org, dto.event) {
      forall d {
        NoTemplateWithoutEvent(s, org, dto.event, d);
      }
    }
  }

  // ---------- removal ----------

  lemma BadgeAfterStep(s: State, op: Op, b: BadgeId)
    requires b in s.badges && ((op.PrintOp? || op.DropOp?) ==> op.badge != b)
    ensures b in Step(s, op).badges && Step(s, op).badges[b] == s.badges[b]
  {
  }

  /** Whatever a run does, as long as it leaves the badge alone the template of the badge stays, and removing it fails. */
  lemma {:induction false} PrintedTemplateStays(s: State, ops: seq<Op>, b: BadgeId, org: OrgId)
    requires Inv(s) && b in s.badges
    requires forall op :: op in ops && (op.PrintOp? || op.DropOp?) ==> op.badge != b
    ensures
      var s' := Run(s, ops);
      && b in s'.badges && s'.badges[b] == s.badges[b] && s.badges[b] in s'.templates
      && Remove(s', org, s.badges[b]).1.Err? && Remove(s', org, s.badges[b]).0 == s'
  {
    RunKeepsInv(s, ops);
    if ops != [] {
      PrintedTemplateStays(s, ops[..|ops| - 1], b, org);
      BadgeAfterStep(Run(s, ops[..|ops| - 1]), ops[|ops| - 1], b);
    }
    RemovalSucceedsExactly(Run(s, ops), org, s.badges[b]);
  }

  /** The deletion that the service announces for a template with generated badges fails. */
  lemma RemovingAPrintedTemplateFails(events: map<EventId, OrgId>, org: OrgId, code: string, dto: NewTemplate, b: BadgeId)
    requires EventOk(State(events, map[], map[], map[], map[], 0), org, dto.event)
    ensures
      var s := Run(State(events, map[], map[], map[], map[], 0), [CreateOp(org, code, dto, None), PrintOp(b, 0)]);
      Owned(s, org, 0) && Remove(s, org, 0) == (s, Err(ReferredToByBadges))
  {
    var s0 := State(events, map[], map[], map[], map[], 0);
    var create, use := CreateOp(org, code, dto, None), PrintOp(b, 0);
    assert [create, use][..1] == [create] && [create][..0] == [];
    var s1 := Step(s0, create);
    assert Run(s0, [create]) == Step(Run(s0, [create][..0]), create) == s1;
    assert Run(s0, [create, use]) == Step(s1, use);
    assert b in Step(s1, use).badges && Step(s1, use).badges[b] == 0;
  }

  // ---------- codes ----------

  /** Renaming keeps the code: the old name stays reserved, and the new one can be taken again. */
  lemma RenamingKeepsTheCode(s: State, org: OrgId, fold: string -> string, id: TemplateId, name: string, dto: NewTemplate)
    requires Inv(s) && Owned(s, org, id) && s.templates[id].code == GenerateCode(fold, s.templates[id].name)
    ensures
      var s1 := Update(s, org, id, Changes(Some(name), None, None), None).0;
      && s1.templates[id].name == name
      && (dto.name == s.templates[id].name ==>
            Create(s1, org, GenerateCode(fold, dto.name), dto, None).1 == Err(CodeTaken))
      && (!CodeInUse(s.templates, org, GenerateCode(fold, name)) && dto.name == name && dto.event == None ==>
            var (s2, r) := Create(s1, org, GenerateCode(fold, name), dto, None);
            r.Ok? && r.value != id && r.value in s2.templates && s2.templates[r.value].name == name
            && id in s2.templates && s2.templates[id].name == name)
  {
    var s1 := Update(s, org, id, Changes(Some(name), None, None), None).0;
    assert s1.templates[id].code == s.templates[id].code;
  }

  /** A step adds no template but the one numbered `next`. */
  lemma OnlyNewIdsAppear(s: State, op: Op, id: TemplateId)
    requires id < s.next && id in Step(s, op).templates
    ensures id in s.templates
  {
    if op.CreateOp? {
      CreateShape(s, op.org, op.code, op.dto, op.fails);
    }
  }

  lemma NextGrowsInOneStep(s: State, op: Op)
    ensures s.next <= Step(s, op).next
  {
  }

  lemma {:induction false} NextGrows(s: State, ops: seq<Op>)
    ensures s.next <= Run(s, ops).next
  {
    if ops != [] {
      NextGrows(s, ops[..|ops| - 1]);
      NextGrowsInOneStep(Run(s, ops[..|ops| - 1]), ops[|ops| - 1]);
    }
  }

  /** Over every run, a template keeps its code, its organisation and its event; a removed id never comes back. */
  lemma {:induction false} CodesAreForLife(s: State, ops: seq<Op>, id: TemplateId)
    requires Inv(s) && id < s.next && id in Run(s, ops).templates
    ensures id in s.templates && SameIdentity(s.templates[id], Run(s, ops).templates[id])
  {
    if ops != [] {
      var s1 := Run(s, ops[..|ops| - 1]);
      RunKeepsInv(s, ops[..|ops| - 1]);
      NextGrows(s, ops[..|ops| - 1]);
      OnlyNewIdsAppear(s1, ops[|ops| - 1], id);
      StepKeepsInv(s1, ops[|ops| - 1]);
      CodesAreForLife(s, ops[..|ops| - 1], id);
    }
  }
}
