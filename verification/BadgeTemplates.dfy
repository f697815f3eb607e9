/**
 Badge templates of an organisation, with one default per scope
 (src/modules/badge-templates/badge-templates.service.ts:15-67, 153-229, 501-525).

 A scope is an organisation and an event, or the organisation alone.  The
 columns that hold the design are left out.  No method uses a transaction: what
 was written before a failing statement stays written.  Which awaited call
 throws, if any, is an argument.
 */
module BadgeTemplates {
  import opened Wrappers
  import opened Slugs

  type OrgId = nat
  type EventId = nat
  type TemplateId = nat
  type BadgeId = nat
  type RegId = nat

  datatype Template = Template(
    org: OrgId, event: Option<EventId>, code: string, name: string, isDefault: bool, active: bool)

  /**
   Three tables refer to templates: the settings of an event, a generated
   badge, and a registration with a template of its own.
   */
  datatype State = State(
    events: map<EventId, OrgId>, templates: map<TemplateId, Template>, settings: map<EventId, TemplateId>,
    badges: map<BadgeId, TemplateId>, regs: map<RegId, TemplateId>, next: TemplateId)

  /** The awaited calls of a creation or an update, in order. */
  datatype Await = LookUp | ClearDefaults | SaveTemplate

  datatype Error =
    | NotFound | CodeTaken | NoSuchEvent | AssignedToEvents | ReferredToByBadges | AssignedToRegistrations
    | Thrown(step: Await)

  datatype NewTemplate = NewTemplate(event: Option<EventId>, name: string, isDefault: bool, active: bool)

  /** A missing field is not written. */
  datatype Changes = Changes(name: Option<string>, isDefault: Option<bool>, active: Option<bool>)

  // ---------- the handlers as functions of the state ----------

  predicate CodeInUse(templates: map<TemplateId, Template>, org: OrgId, code: string) {
    exists t :: t in templates && templates[t].org == org && templates[t].code == code
  }

  /** `unsetDefaultTemplates`: no template of the scope is the default any more. */
  function Unset(templates: map<TemplateId, Template>, org: OrgId, event: Option<EventId>): map<TemplateId, Template> {
    map t | t in templates ::
      if templates[t].org == org && templates[t].event == event then templates[t].(isDefault := false)
      else templates[t]
  }

  /** The foreign key on the event and the organisation. */
  predicate EventOk(s: State, org: OrgId, event: Option<EventId>) {
    event.Some? ==> event.value in s.events && s.events[event.value] == org
  }

  function Create(s: State, org: OrgId, code: string, dto: NewTemplate, fails: Option<Await>)
    : (State, Result<TemplateId, Error>)
  {
    if fails == Some(LookUp) then (s, Err(Thrown(LookUp)))
    else if CodeInUse(s.templates, org, code) then (s, Err(CodeTaken))
    else if dto.isDefault && fails == Some(ClearDefaults) then (s, Err(Thrown(ClearDefaults)))
    else
      var s1 := if dto.isDefault then s.(templates := Unset(s.templates, org, dto.event)) else s;
      if !EventOk(s, org, dto.event) then (s1, Err(NoSuchEvent))
      else if fails == Some(SaveTemplate) then (s1, Err(Thrown(SaveTemplate)))
      else
        var t := Template(org, dto.event, code, dto.name, dto.isDefault, dto.active);
        (s1.(templates := s1.templates[s.next := t], next := s.next + 1), Ok(s.next))
  }

  predicate Owned(s: State, org: OrgId, id: TemplateId) {
    id in s.templates && s.templates[id].org == org
  }

  function Merged(t: Template, c: Changes): Template {
    t.(name := if c.name.Some? then c.name.value else t.name,
       isDefault := if c.isDefault.Some? then c.isDefault.value else t.isDefault,
       active := if c.active.Some? then c.active.value else t.active)
  }

  /** The update turns the template into the default of its scope. */
  predicate Promotes(t: Template, c: Changes) {
    c.isDefault == Some(true) && !t.isDefault
  }

  function Update(s: State, org: OrgId, id: TemplateId, c: Changes, fails: Option<Await>): (State, Result<(), Error>) {
    if fails == Some(LookUp) then (s, Err(Thrown(LookUp)))
    else if !Owned(s, org, id) then (s, Err(NotFound))
    else
      var t := s.templates[id];
      if Promotes(t, c) && fails == Some(ClearDefaults) then (s, Err(Thrown(ClearDefaults)))
      else
        var cleared := if Promotes(t, c) then Unset(s.templates, org, t.event) else s.templates;
        if fails == Some(SaveTemplate) then (s.(templates := cleared), Err(Thrown(SaveTemplate)))
        else (s.(templates := cleared[id := Merged(t, c)]), Ok(()))
  }

  predicate Assigned(s: State, org: OrgId, id: TemplateId) {
    exists e :: e in s.settings && s.settings[e] == id && e in s.events && s.events[e] == org
  }

  /**
   The service refuses while event settings use the template.  The database
   refuses while a badge refers to it, and while a registration does: the key of
   registrations would set the required organisation to null.
   */
  function Remove(s: State, org: OrgId, id: TemplateId): (State, Result<(), Error>) {
    if !Owned(s, org, id) then (s, Err(NotFound))
    else if Assigned(s, org, id) then (s, Err(AssignedToEvents))
    else if exists b :: b in s.badges && s.badges[b] == id then (s, Err(ReferredToByBadges))
    else if exists r :: r in s.regs && s.regs[r] == id then (s, Err(AssignedToRegistrations))
    else (s.(templates := s.templates - {id}), Ok(()))
  }

  // ---------- what the rest of the system does to the tables that refer to templates ----------

  /** Assigns a template of its organisation to an event, or none. */
  function AssignToEvent(s: State, e: EventId, t: Option<TemplateId>): State {
    if t.None? then s.(settings := s.settings - {e})
    else if e in s.events && Owned(s, s.events[e], t.value) then s.(settings := s.settings[e := t.value])
    else s
  }

  /** Writes a badge from a template. */
  function PrintBadge(s: State, b: BadgeId, t: TemplateId): State {
    if t in s.templates then s.(badges := s.badges[b := t]) else s
  }

  function DropBadge(s: State, b: BadgeId): State {
    s.(badges := s.badges - {b})
  }

  /** Gives a registration a template of its own, or none. */
  function AssignToRegistration(s: State, r: RegId, t: Option<TemplateId>): State {
    if t.None? then s.(regs := s.regs - {r})
    else if t.value in s.templates then s.(regs := s.regs[r := t.value])
    else s
  }

  // ---------- the service ----------

  class BadgeTemplatesService {
    var events: map<EventId, OrgId>
    var templates: map<TemplateId, Template>
    var settings: map<EventId, TemplateId>
    var badges: map<BadgeId, TemplateId>
    var regs: map<RegId, TemplateId>
    var next: TemplateId

    ghost function S(): State
      reads this
    {
      State(events, templates, settings, badges, regs, next)
    }

    constructor (s: State)
      ensures S() == s
    {
      events, templates, settings, badges, regs, next := s.events, s.templates, s.settings, s.badges, s.regs, s.next;
    }

    method UnsetDefaultTemplates(org: OrgId, event: Option<EventId>)
      modifies this`templates
      ensures templates == Unset(old(templates), org, event)
    {
      templates := map t | t in templates ::
        if templates[t].org == org && templates[t].event == event && templates[t].isDefault
        then templates[t].(isDefault := false) else templates[t];
    }

    method CreateTemplate(dto: NewTemplate, org: OrgId, fold: string -> string, fails: Option<Await>)
      returns (r: Result<TemplateId, Error>)
      modifies this`templates, this`next
      ensures (S(), r) == Create(old(S()), org, GenerateCode(fold, dto.name), dto, fails)
    {
      var code := GenerateCode(fold, dto.name);
      if fails == Some(LookUp) {
        return Err(Thrown(LookUp));
      }
      if CodeInUse(templates, org, code) {
        return Err(CodeTaken);
      }
      if dto.isDefault {
        if fails == Some(ClearDefaults) {
          return Err(Thrown(ClearDefaults));
        }
        UnsetDefaultTemplates(org, dto.event);
      }
      // the foreign key on (event, org)
      if dto.event.Some? && !(dto.event.value in events && events[dto.event.value] == org) {
        return Err(NoSuchEvent);
      }
      if fails == Some(SaveTemplate) {
        return Err(Thrown(SaveTemplate));
      }
      templates := templates[next := Template(org, dto.event, code, dto.name, dto.isDefault, dto.active)];
      next := next + 1;
      return Ok(next - 1);
    }

    method UpdateTemplate(id: TemplateId, c: Changes, org: OrgId, fails: Option<Await>) returns (r: Result<(), Error>)
      modifies this`templates
      ensures (S(), r) == Update(old(S()), org, id, c, fails)
    {
      if fails == Some(LookUp) {
        return Err(Thrown(LookUp));
      }
      if id !in templates || templates[id].org != org {
        return Err(NotFound);
      }
      var t := templates[id];
      if c.isDefault == Some(true) && !t.isDefault {
        if fails == Some(ClearDefaults) {
          return Err(Thrown(ClearDefaults));
        }
        UnsetDefaultTemplates(org, t.event);
      }
      if fails == Some(SaveTemplate) {
        return Err(Thrown(SaveTemplate));
      }
      templates := templates[id := Merged(templates[id], c)];
      return Ok(());
    }

    method RemoveTemplate(id: TemplateId, org: OrgId) returns (r: Result<(), Error>)
      modifies this`templates
      ensures (S(), r) == Remove(old(S()), org, id)
    {
      if id !in templates || templates[id].org != org {
        return Err(NotFound);
      }
      if exists e :: e in settings && settings[e] == id && e in events && events[e] == org {
        return Err(AssignedToEvents);
      }
      // badges refer to their template with onDelete: Restrict
      if exists b :: b in badges && badges[b] == id {
        return Err(ReferredToByBadges);
      }
      // the key of registrations is set to null with its organisation, which is required
      if exists g :: g in regs && regs[g] == id {
        return Err(AssignedToRegistrations);
      }
      templates := templates - {id};
      return Ok(());
    }
  }
}
