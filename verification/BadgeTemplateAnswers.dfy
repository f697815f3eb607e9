/**
 Which answer each badge-template request gets and what it writes, said in
 terms of the tables alone
 (src/modules/badge-templates/badge-templates.service.ts:15-67, 153-229, 501-525).
 */
module BadgeTemplateAnswers {
  import opened Wrappers
  import opened BadgeTemplates

  ghost predicate OfOrg(s: State, t: TemplateId, org: OrgId) {
    t in s.templates && s.templates[t].org == org
  }

  ghost predicate CodeHeld(s: State, org: OrgId, code: string) {
    exists t :: OfOrg(s, t, org) && s.templates[t].code == code
  }

  /** Which answer a creation gets, exactly. */
  lemma CreateAnswers(s: State, org: OrgId, code: string, dto: NewTemplate, fails: Option<Await>)
    ensures
      Create(s, org, code, dto, fails).1 ==
        if fails == Some(LookUp) then Err(Thrown(LookUp))
        else if CodeHeld(s, org, code) then Err(CodeTaken)
        else if fails == Some(ClearDefaults) && dto.isDefault then Err(Thrown(ClearDefaults))
        else if dto.event.Some? && !(dto.event.value in s.events && s.events[dto.event.value] == org) then Err(NoSuchEvent)
        else if fails == Some(SaveTemplate) then Err(Thrown(SaveTemplate))
        else Ok(s.next)
  {
    if CodeInUse(s.templates, org, code) {
      var t :| t in s.templates && s.templates[t].org == org && s.templates[t].code == code;
      assert OfOrg(s, t, org);
    }
    if CodeHeld(s, org, code) {
      var t :| OfOrg(s, t, org) && s.templates[t].code == code;
      assert t in s.templates;
    }
  }

  /** Nothing but the default flag of a template was taken away, and that only from a template of the scope. */
  ghost predicate LosesAtMostDefault(before: Template, after: Template, org: OrgId, event: Option<EventId>, cleared: bool) {
    && after == before.(isDefault := after.isDefault)
    && (after.isDefault <==> before.isDefault && !(cleared && before.org == org && before.event == event))
  }

  /**
   A created template reads as asked.  The others stay, but for the default of
   the scope, which a new default takes away before its row is inserted.
   */
  lemma CreateWrites(s: State, org: OrgId, code: string, dto: NewTemplate, fails: Option<Await>, t: TemplateId)
    requires s.next !in s.templates
    ensures
      var (s', r) := Create(s, org, code, dto, fails);
      var cleared := dto.isDefault && (r.Ok? || r.error == NoSuchEvent || r.error == Thrown(SaveTemplate));
      && (if t in s.templates then
            t in s'.templates && LosesAtMostDefault(s.templates[t], s'.templates[t], org, dto.event, cleared)
          else if r.Ok? && t == s.next then
            t in s'.templates && s'.templates[t] == Template(org, dto.event, code, dto.name, dto.isDefault, dto.active)
          else t !in s'.templates)
      && s' == s.(templates := s'.templates, next := if r.Ok? then s.next + 1 else s.next)
  {
  }

  /** Which answer an update gets, exactly. */
  lemma UpdateAnswers(s: State, org: OrgId, id: TemplateId, c: Changes, fails: Option<Await>)
    ensures
      Update(s, org, id, c, fails).1 ==
        if fails == Some(LookUp) then Err(Thrown(LookUp))
        else if !OfOrg(s, id, org) then Err(NotFound)
        else if fails == Some(ClearDefaults) && c.isDefault == Some(true) && !s.templates[id].isDefault then
          Err(Thrown(ClearDefaults))
        else if fails == Some(SaveTemplate) then Err(Thrown(SaveTemplate))
        else Ok(())
    ensures
      var (s', r) := Update(s, org, id, c, fails);
      r.Err? && r.error != Thrown(SaveTemplate) ==> s' == s
  {
  }

  /** The given value is written, if there is one. */
  ghost predicate Reads<T>(stored: T, given: Option<T>, after: T) {
    match given
    case Some(v) => after == v
    case None => after == stored
  }

  /** An update that goes through writes the given fields of its template. */
  lemma UpdateWrites(s: State, org: OrgId, id: TemplateId, c: Changes, fails: Option<Await>)
    requires Update(s, org, id, c, fails).1.Ok?
    ensures
      var s' := Update(s, org, id, c, fails).0;
      && id in s.templates && id in s'.templates
      && var (before, after) := (s.templates[id], s'.templates[id]);
      && Reads(before.name, c.name, after.name) && Reads(before.isDefault, c.isDefault, after.isDefault)
      && Reads(before.active, c.active, after.active)
      && after.org == before.org && after.event == before.event && after.code == before.code
  {
  }

  /**
   The other templates stay, but for the default of the scope: a new default
   takes it away, also when its own write then throws.
   */
  lemma UpdateSpares(s: State, org: OrgId, id: TemplateId, c: Changes, fails: Option<Await>, t: TemplateId)
    requires t in s.templates && OfOrg(s, id, org)
    ensures
      var (s', r) := Update(s, org, id, c, fails);
      var x := s.templates[id];
      && s'.templates.Keys == s.templates.Keys && s' == s.(templates := s'.templates)
      && (r.Ok? || r.error == Thrown(SaveTemplate) ==>
            (r.Ok? && t == id)
            || LosesAtMostDefault(s.templates[t], s'.templates[t], org, x.event, c.isDefault == Some(true) && !x.isDefault))
  {
  }

  ghost predicate OnEvent(s: State, org: OrgId, id: TemplateId) {
    exists e :: e in s.settings && s.settings[e] == id && e in s.events && s.events[e] == org
  }

  ghost predicate OnBadge(s: State, id: TemplateId) {
    exists b :: b in s.badges && s.badges[b] == id
  }

  ghost predicate OnRegistration(s: State, id: TemplateId) {
    exists r :: r in s.regs && s.regs[r] == id
  }

  /** A removal takes the template and nothing else, or says which table refers to it. */
  lemma RemoveAnswers(s: State, org: OrgId, id: TemplateId)
    ensures
      Remove(s, org, id) ==
        if !OfOrg(s, id, org) then (s, Err(NotFound))
        else if OnEvent(s, org, id) then (s, Err(AssignedToEvents))
        else if OnBadge(s, id) then (s, Err(ReferredToByBadges))
        else if OnRegistration(s, id) then (s, Err(AssignedToRegistrations))
        else (State(s.events, s.templates - {id}, s.settings, s.badges, s.regs, s.next), Ok(()))
  {
  }

  // ---------- the tables that refer to templates ----------

  /** An event takes a template of its organisation or none; any other assignment changes nothing. */
  lemma AssignToEventWrites(s: State, e: EventId, t: Option<TemplateId>, f: EventId)
    ensures
      var s' := AssignToEvent(s, e, t);
      var accepted := t.None? || (e in s.events && OfOrg(s, t.value, s.events[e]));
      && s' == s.(settings := s'.settings)
      && (if f == e && accepted
          then (f in s'.settings <==> t.Some?) && (t.Some? ==> s'.settings[f] == t.value)
          else (f in s'.settings <==> f in s.settings) && (f in s.settings ==> s'.settings[f] == s.settings[f]))
  {
  }

  /** A badge refers to a template that is there; a dropped badge refers to none. */
  lemma BadgeWrites(s: State, b: BadgeId, t: TemplateId, c: BadgeId)
    ensures
      var s' := PrintBadge(s, b, t);
      && s' == s.(badges := s'.badges)
      && (if c == b && t in s.templates then c in s'.badges && s'.badges[c] == t
          else (c in s'.badges <==> c in s.badges) && (c in s.badges ==> s'.badges[c] == s.badges[c]))
    ensures
      var s' := DropBadge(s, b);
      && s' == s.(badges := s'.badges) && (c in s'.badges <==> c in s.badges && c != b)
      && (c in s'.badges ==> s'.badges[c] == s.badges[c])
  {
  }

  /** A registration takes a template that is there, or none. */
  lemma AssignToRegistrationWrites(s: State, r: RegId, t: Option<TemplateId>, q: RegId)
    ensures
      var s' := AssignToRegistration(s, r, t);
      var accepted := t.None? || t.value in s.templates;
      && s' == s.(regs := s'.regs)
      && (if q == r && accepted
          then (q in s'.regs <==> t.Some?) && (t.Some? ==> s'.regs[q] == t.value)
          else (q in s'.regs <==> q in s.regs) && (q in s.regs ==> s'.regs[q] == s.regs[q]))
  {
  }
}
