/**
 Badge rules of an event: which template a participant's badge uses
 (src/modules/events/events.service.ts:1093-1296), and the two places that apply
 them (src/modules/badge-generation/badge-generation.service.ts:887-977, 1220-1265).

 Creating a rule with its associations is one nested write, and an update runs
 in one transaction: a failed statement restores the tables.
 */
module BadgeRules {
  import opened Wrappers
  import Badges

  type OrgId = Badges.OrgId
  type EventId = Badges.EventId
  type TemplateId = Badges.TemplateId
  type TypeId = nat
  type RuleId = nat

  datatype Rule = Rule(event: EventId, org: OrgId, template: TemplateId, priority: int)

  /** `links` are the rows of the association table, by primary key. */
  datatype State = State(
    events: map<EventId, OrgId>, templates: map<TemplateId, Badges.Template>, types: map<TypeId, OrgId>,
    rules: map<RuleId, Rule>, links: set<(RuleId, TypeId)>, next: RuleId)

  datatype Error = NoEvent | NoTemplate | NoRule | BadTypes | PriorityTaken

  datatype NewRule = NewRule(template: TemplateId, types: seq<TypeId>, priority: Option<int>)

  datatype Changes = Changes(template: Option<TemplateId>, types: Option<seq<TypeId>>, priority: Option<int>)

  // ---------- the checks ----------

  /** What `findMany` returns for a list of ids: each type of the organisation once. */
  function Found(types: map<TypeId, OrgId>, org: OrgId, ids: seq<TypeId>): set<TypeId> {
    set t | t in ids && t in types && types[t] == org
  }

  predicate LengthsAgree(types: map<TypeId, OrgId>, org: OrgId, ids: seq<TypeId>) {
    |Found(types, org, ids)| == |ids|
  }

  predicate EventOk(s: State, e: EventId, org: OrgId) {
    e in s.events && s.events[e] == org
  }

  predicate TemplateOk(s: State, t: TemplateId, org: OrgId) {
    t in s.templates && s.templates[t].org == org
  }

  predicate OfEvent(r: Rule, e: EventId, org: OrgId) {
    r.event == e && r.org == org
  }

  /** Another rule of the event has the priority: the unique index refuses it. */
  predicate PriorityUsed(rules: map<RuleId, Rule>, e: EventId, org: OrgId, p: int, other: RuleId) {
    exists r :: r in rules && r != other && OfEvent(rules[r], e, org) && rules[r].priority == p
  }

  /** The greatest priority of the event's rules with a number below `below`. */
  function MaxPriority(rules: map<RuleId, Rule>, e: EventId, org: OrgId, below: RuleId): (p: Option<int>)
    ensures p.Some? <==> exists r :: r in rules && r < below && OfEvent(rules[r], e, org)
    ensures p.Some? ==> forall r :: r in rules && r < below && OfEvent(rules[r], e, org) ==> rules[r].priority <= p.value
    ensures p.Some? ==> exists r :: r in rules && OfEvent(rules[r], e, org) && rules[r].priority == p.value
  {
    if below == 0 then None
    else
      var rest := MaxPriority(rules, e, org, below - 1);
      if below - 1 in rules && OfEvent(rules[below - 1], e, org)
         && (rest.None? || rest.value < rules[below - 1].priority) then Some(rules[below - 1].priority)
      else rest
  }

  function NextPriority(s: State, e: EventId, org: OrgId): int {
    var p := MaxPriority(s.rules, e, org, s.next);
    if p.Some? then p.value + 1 else 0
  }

  // ---------- the handlers as functions of the state ----------

  function Links(r: RuleId, ids: seq<TypeId>): set<(RuleId, TypeId)> {
    set t | t in ids :: (r, t)
  }

  function Unlinked(links: set<(RuleId, TypeId)>, r: RuleId): set<(RuleId, TypeId)> {
    set l | l in links && l.0 != r
  }

  function Create(s: State, e: EventId, org: OrgId, dto: NewRule): (State, Result<RuleId, Error>) {
    if !EventOk(s, e, org) then (s, Err(NoEvent))
    else if !TemplateOk(s, dto.template, org) then (s, Err(NoTemplate))
    else if !LengthsAgree(s.types, org, dto.types) then (s, Err(BadTypes))
    else
      var p := if dto.priority.Some? then dto.priority.value else NextPriority(s, e, org);
      if PriorityUsed(s.rules, e, org, p, s.next) then (s, Err(PriorityTaken))
      else
        (s.(rules := s.rules[s.next := Rule(e, org, dto.template, p)],
            links := s.links + Links(s.next, dto.types), next := s.next + 1), Ok(s.next))
  }

  function Merged(r: Rule, c: Changes): Rule {
    r.(template := if c.template.Some? then c.template.value else r.template,
       priority := if c.priority.Some? then c.priority.value else r.priority)
  }

  function Update(s: State, e: EventId, org: OrgId, r: RuleId, c: Changes): (State, Result<(), Error>) {
    if !EventOk(s, e, org) then (s, Err(NoEvent))
    else if !(r in s.rules && OfEvent(s.rules[r], e, org)) then (s, Err(NoRule))
    else if c.template.Some? && !TemplateOk(s, c.template.value, org) then (s, Err(NoTemplate))
    else if c.types.Some? && !LengthsAgree(s.types, org, c.types.value) then (s, Err(BadTypes))
    else if c.priority.Some? && PriorityUsed(s.rules, e, org, c.priority.value, r) then (s, Err(PriorityTaken))
    else
      (s.(rules := s.rules[r := Merged(s.rules[r], c)],
          links := if c.types.Some? then Unlinked(s.links, r) + Links(r, c.types.value) else s.links), Ok(()))
  }

  function Delete(s: State, e: EventId, org: OrgId, r: RuleId): (State, Result<(), Error>) {
    if !EventOk(s, e, org) then (s, Err(NoEvent))
    else if !(r in s.rules && OfEvent(s.rules[r], e, org)) then (s, Err(NoRule))
    else (s.(rules := s.rules - {r}, links := Unlinked(s.links, r)), Ok(()))
  }

  // ---------- the service ----------

  class EventBadgeRules {
    var events: map<EventId, OrgId>
    var templates: map<TemplateId, Badges.Template>
    var types: map<TypeId, OrgId>
    var rules: map<RuleId, Rule>
    var links: set<(RuleId, TypeId)>
    var next: RuleId

    ghost function S(): State
      reads this
    {
      State(events, templates, types, rules, links, next)
    }

    constructor (events: map<EventId, OrgId>, templates: map<TemplateId, Badges.Template>, types: map<TypeId, OrgId>)
      ensures S() == State(events, templates, types, map[], {}, 0)
    {
      this.events, this.templates, this.types := events, templates, types;
      rules, links, next := map[], {}, 0;
    }

    /** Inserts one association row per id. */
    method InsertLinks(r: RuleId, ids: seq<TypeId>)
      modifies this`links
      ensures links == old(links) + Links(r, ids)
    {
      for k := 0 to |ids|
        invariant links == old(links) + Links(r, ids[..k])
      {
        links := links + {(r, ids[k])};
        assert ids[..k + 1] == ids[..k] + [ids[k]];
        assert Links(r, ids[..k + 1]) == Links(r, ids[..k]) + {(r, ids[k])};
      }
      assert ids[..|ids|] == ids;
    }

    method CreateBadgeRule(e: EventId, org: OrgId, dto: NewRule) returns (res: Result<RuleId, Error>)
      modifies this`rules, this`links, this`next
      ensures (S(), res) == Create(old(S()), e, org, dto)
    {
      if e !in events || events[e] != org {
        return Err(NoEvent);
      }
      if dto.template !in templates || templates[dto.template].org != org {
        return Err(NoTemplate);
      }
      if |Found(types, org, dto.types)| != |dto.types| {
        return Err(BadTypes);
      }
      var priority: int;
      if dto.priority.Some? {
        priority := dto.priority.value;
      } else {
        var max := MaxPriority(rules, e, org, next);
        priority := if max.Some? then max.value + 1 else 0;
      }
      if PriorityUsed(rules, e, org, priority, next) {
        return Err(PriorityTaken);
      }
      rules := rules[next := Rule(e, org, dto.template, priority)];
      InsertLinks(next, dto.types);
      next := next + 1;
      return Ok(next - 1);
    }

    method UpdateBadgeRule(e: EventId, org: OrgId, r: RuleId, c: Changes) returns (res: Result<(), Error>)
      modifies this`rules, this`links
      ensures (S(), res) == Update(old(S()), e, org, r, c)
    {
      if e !in events || events[e] != org {
        return Err(NoEvent);
      }
      if r !in rules || !OfEvent(rules[r], e, org) {
        return Err(NoRule);
      }
      if c.template.Some? && (c.template.value !in templates || templates[c.template.value].org != org) {
        return Err(NoTemplate);
      }
      if c.types.Some? && |Found(types, org, c.types.value)| != |c.types.value| {
        return Err(BadTypes);
      }
      if c.priority.Some? && PriorityUsed(rules, e, org, c.priority.value, r) {
        return Err(PriorityTaken);
      }
      rules := rules[r := Merged(rules[r], c)];
      if c.types.Some? {
        links := set l | l in links && l.0 != r;
        InsertLinks(r, c.types.value);
      }
      return Ok(());
    }

    method DeleteBadgeRule(e: EventId, org: OrgId, r: RuleId) returns (res: Result<(), Error>)
      modifies this`rules, this`links
      ensures (S(), res) == Delete(old(S()), e, org, r)
    {
      if e !in events || events[e] != org {
        return Err(NoEvent);
      }
      if r !in rules || !OfEvent(rules[r], e, org) {
        return Err(NoRule);
      }
      rules := rules - {r};
      links := set l | l in links && l.0 != r;
      return Ok(());
    }
  }

  // ---------- applying the rules ----------

  predicate Covers(s: State, r: RuleId, t: TypeId) {
    (r, t) in s.links
  }

  /** The rules of an event as the query returns them: each once, by ascending priority. */
  ghost predicate IsAscending(s: State, e: EventId, org: OrgId, order: seq<RuleId>) {
    && (forall r :: r in order <==> r in s.rules && OfEvent(s.rules[r], e, org))
    && (forall i, j :: 0 <= i < j < |order| && order[i] in s.rules && order[j] in s.rules ==>
          order[i] != order[j] && s.rules[order[i]].priority <= s.rules[order[j]].priority)
  }

  /** `rules.find(rule => rule covers the type)`. */
  function FirstMatch(s: State, order: seq<RuleId>, t: TypeId): Option<RuleId> {
    if order == [] then None
    else if Covers(s, order[0], t) then Some(order[0])
    else FirstMatch(s, order[1..], t)
  }

  function MatchFor(s: State, order: seq<RuleId>, t: Option<TypeId>): Option<RuleId> {
    if t.Some? then FirstMatch(s, order, t.value) else None
  }

  /** `findOne`: a template of the organisation. */
  function FindTemplate(s: State, t: TemplateId, org: OrgId): Option<TemplateId> {
    if TemplateOk(s, t, org) then Some(t) else None
  }

  /** The template of a preview: override, template of the registration, first matching rule, template of the event. */
  function PreviewTemplate(s: State, settings: map<EventId, TemplateId>, below: TemplateId, reg: Badges.Registration,
                           order: seq<RuleId>, t: Option<TypeId>, override: Option<TemplateId>)
    : Option<TemplateId>
  {
    if override.Some? then FindTemplate(s, override.value, reg.org)
    else if reg.template.Some? then FindTemplate(s, reg.template.value, reg.org)
    else
      var m := MatchFor(s, order, t);
      if m.Some? && m.value in s.rules then FindTemplate(s, s.rules[m.value].template, reg.org)
      else Badges.TemplateForEvent(s.templates, settings, below, reg.event, reg.org)
  }

  /** The template of a badge in the PDF of an event: that of the first matching rule, else of the event's settings. */
  function PdfTemplate(s: State, settings: map<EventId, TemplateId>, e: EventId, order: seq<RuleId>, t: Option<TypeId>)
    : Option<TemplateId>
  {
    var m := MatchFor(s, order, t);
    if m.Some? && m.value in s.rules then Some(s.rules[m.value].template)
    else if e in settings then Some(settings[e]) else None
  }

  /** The selection loop of the PDF, which stops at the first rule that matches. */
  method SelectTemplate(s: State, settings: map<EventId, TemplateId>, e: EventId, order: seq<RuleId>, t: Option<TypeId>)
    returns (selected: Option<TemplateId>)
    requires forall r :: r in order ==> r in s.rules
    ensures selected == PdfTemplate(s, settings, e, order, t)
  {
    selected := if e in settings then Some(settings[e]) else None;
    var k := 0;
    while k < |order|
      invariant 0 <= k <= |order|
      invariant MatchFor(s, order, t) == MatchFor(s, order[k..], t)
      invariant selected == if e in settings then Some(settings[e]) else None
    {
      var matches := t.Some? && Covers(s, order[k], t.value);
      if matches {
        selected := Some(s.rules[order[k]].template);
        break;
      }
      k := k + 1;
    }
  }
}
