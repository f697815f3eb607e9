/**
 Which answer each badge-rule request gets and what it writes, and which
 template a preview and a PDF use, said in terms of the tables alone
 (src/modules/events/events.service.ts:1093-1296,
 src/modules/badge-generation/badge-generation.service.ts:905-982, 1224-1248).
 */
module BadgeRuleAnswers {
  import opened Collections
  import opened Wrappers
  import opened BadgeRules
  import opened BadgeRuleRuns
  import Badges

  // ---------- the checks ----------

  ghost predicate EventKnown(s: State, e: EventId, org: OrgId) {
    e in s.events && s.events[e] == org
  }

  ghost predicate TemplateKnown(s: State, t: TemplateId, org: OrgId) {
    t in s.templates && s.templates[t].org == org
  }

  /** Every id is a type of the organisation, and none is repeated. */
  ghost predicate TypesKnown(s: State, org: OrgId, ids: seq<TypeId>) {
    Distinct(ids) && forall t :: t in ids ==> t in s.types && s.types[t] == org
  }

  ghost predicate IsRuleOf(s: State, r: RuleId, e: EventId, org: OrgId) {
    r in s.rules && s.rules[r].event == e && s.rules[r].org == org
  }

  /** A rule of the event other than `r` has the priority. */
  ghost predicate Collides(s: State, e: EventId, org: OrgId, p: int, r: RuleId) {
    exists q: RuleId :: q != r && IsRuleOf(s, q, e, org) && s.rules[q].priority == p
  }

  lemma ChecksAreExact(s: State, e: EventId, org: OrgId, t: TemplateId, ids: seq<TypeId>, p: int, r: RuleId)
    ensures EventOk(s, e, org) <==> EventKnown(s, e, org)
    ensures TemplateOk(s, t, org) <==> TemplateKnown(s, t, org)
    ensures LengthsAgree(s.types, org, ids) <==> TypesKnown(s, org, ids)
    ensures PriorityUsed(s.rules, e, org, p, r) <==> Collides(s, e, org, p, r)
    ensures r in s.rules && OfEvent(s.rules[r], e, org) <==> IsRuleOf(s, r, e, org)
  {
    LengthsAgreeExactly(s.types, org, ids);
    if PriorityUsed(s.rules, e, org, p, r) {
      var q :| q in s.rules && q != r && OfEvent(s.rules[q], e, org) && s.rules[q].priority == p;
      assert IsRuleOf(s, q, e, org);
    }
    if Collides(s, e, org, p, r) {
      var q :| q != r && IsRuleOf(s, q, e, org) && s.rules[q].priority == p;
      assert OfEvent(s.rules[q], e, org);
    }
  }

  // ---------- creating ----------

  /** Which answer a creation gets, exactly: only a priority that was asked for can be taken. */
  lemma CreateAnswers(s: State, e: EventId, org: OrgId, dto: NewRule)
    requires Inv(s)
    ensures
      Create(s, e, org, dto).1 ==
        if !EventKnown(s, e, org) then Err(NoEvent)
        else if !TemplateKnown(s, dto.template, org) then Err(NoTemplate)
        else if !TypesKnown(s, org, dto.types) then Err(BadTypes)
        else if dto.priority.Some? && Collides(s, e, org, dto.priority.value, s.next) then Err(PriorityTaken)
        else Ok(s.next)
  {
    var p := if dto.priority.Some? then dto.priority.value else NextPriority(s, e, org);
    ChecksAreExact(s, e, org, dto.template, dto.types, p, s.next);
    NextPriorityIsFree(s, e, org);
  }

  /** The priority of a new rule: the one asked for, else one above the greatest of the event, else zero. */
  ghost predicate IsPriorityFor(s: State, e: EventId, org: OrgId, asked: Option<int>, p: int) {
    match asked
    case Some(q) => p == q
    case None =>
      if exists r :: IsRuleOf(s, r, e, org) then
        && (forall r :: IsRuleOf(s, r, e, org) ==> s.rules[r].priority < p)
        && (exists r :: IsRuleOf(s, r, e, org) && s.rules[r].priority == p - 1)
      else p == 0
  }

  lemma DefaultPriorityIsExact(s: State, e: EventId, org: OrgId)
    requires RulesOk(s)
    ensures IsPriorityFor(s, e, org, None, NextPriority(s, e, org))
  {
    var p := MaxPriority(s.rules, e, org, s.next);
    forall r: RuleId ensures IsRuleOf(s, r, e, org) <==> r in s.rules && r < s.next && OfEvent(s.rules[r], e, org) {}
    if p.Some? {
      var r :| r in s.rules && OfEvent(s.rules[r], e, org) && s.rules[r].priority == p.value;
      assert IsRuleOf(s, r, e, org);
    }
  }

  /** A created rule reads as asked; the other rules and associations stay; a refused creation writes nothing. */
  lemma CreateWrites(s: State, e: EventId, org: OrgId, dto: NewRule)
    requires Inv(s)
    ensures
      var (s', res) := Create(s, e, org, dto);
      if res.Err? then s' == s
      else
        && s.next !in s.rules && s.next in s'.rules
        && s'.rules == s.rules[s.next := Rule(e, org, dto.template, s'.rules[s.next].priority)]
        && IsPriorityFor(s, e, org, dto.priority, s'.rules[s.next].priority)
        && (forall r: RuleId, t: TypeId :: (r, t) in s'.links <==> (r, t) in s.links || (r == s.next && t in dto.types))
        && s' == s.(rules := s'.rules, links := s'.links, next := s.next + 1)
  {
    var (s', res) := Create(s, e, org, dto);
    if res.Ok? && dto.priority.None? {
      DefaultPriorityIsExact(s, e, org);
    }
  }

  /** A rule created before every rule that covers one of its types becomes the match of that type. */
  lemma CreatedRuleTakesOver(s: State, e: EventId, org: OrgId, dto: NewRule, t: TypeId)
    requires Inv(s) && Create(s, e, org, dto).1.Ok? && dto.priority.Some? && t in dto.types
    requires forall q :: IsRuleOf(s, q, e, org) && (q, t) in s.links ==> dto.priority.value < s.rules[q].priority
    ensures forall r :: IsMatch(Create(s, e, org, dto).0, e, org, t, r) <==> r == s.next
  {
    var s' := Create(s, e, org, dto).0;
    CreateWrites(s, e, org, dto);
    CreateKeepsInv(s, e, org, dto);
    forall q | q in s'.rules && q != s.next && OfEvent(s'.rules[q], e, org) && Covers(s', q, t)
      ensures s'.rules[s.next].priority < s'.rules[q].priority
    {
      assert IsRuleOf(s, q, e, org) && (q, t) in s.links;
    }
    assert IsMatch(s', e, org, t, s.next);
    forall r | IsMatch(s', e, org, t, r) ensures r == s.next {
      MatchIsUnique(s', e, org, t, r, s.next);
    }
  }

  // ---------- updating and deleting ----------

  /** Which answer an update gets, exactly. */
  lemma UpdateAnswers(s: State, e: EventId, org: OrgId, r: RuleId, c: Changes)
    ensures
      Update(s, e, org, r, c).1 ==
        if !EventKnown(s, e, org) then Err(NoEvent)
        else if !IsRuleOf(s, r, e, org) then Err(NoRule)
        else if c.template.Some? && !TemplateKnown(s, c.template.value, org) then Err(NoTemplate)
        else if c.types.Some? && !TypesKnown(s, org, c.types.value) then Err(BadTypes)
        else if c.priority.Some? && Collides(s, e, org, c.priority.value, r) then Err(PriorityTaken)
        else Ok(())
  {
    var t := if c.template.Some? then c.template.value else 0;
    var ids := if c.types.Some? then c.types.value else [];
    var p := if c.priority.Some? then c.priority.value else 0;
    ChecksAreExact(s, e, org, t, ids, p, r);
  }

  /** The associations after an update: those given replace those of the rule; a refused update writes nothing. */
  lemma UpdateWrites(s: State, e: EventId, org: OrgId, r: RuleId, c: Changes, q: RuleId, t: TypeId)
    ensures
      var (s', res) := Update(s, e, org, r, c);
      && (res.Err? ==> s' == s)
      && (res.Ok? ==>
            && ((q, t) in s'.links <==> if q == r && c.types.Some? then t in c.types.value else (q, t) in s.links)
            && s' == s.(rules := s'.rules, links := s'.links))
  {
  }

  /** Deleting a rule of the event takes the rule and its associations, and nothing else. */
  lemma DeleteAnswers(s: State, e: EventId, org: OrgId, r: RuleId)
    ensures
      var (s', res) := Delete(s, e, org, r);
      if !EventKnown(s, e, org) then (s', res) == (s, Err(NoEvent))
      else if !IsRuleOf(s, r, e, org) then (s', res) == (s, Err(NoRule))
      else
        && res == Ok(()) && s' == s.(rules := s.rules - {r}, links := s'.links)
        && forall q: RuleId, t: TypeId :: (q, t) in s'.links <==> q != r && (q, t) in s.links
  {
  }

  // ---------- which template ----------

  /** `r` covers the type and comes before every other rule of the event that does. */
  ghost predicate Applies(s: State, e: EventId, org: OrgId, t: TypeId, r: RuleId) {
    && IsRuleOf(s, r, e, org) && (r, t) in s.links
    && forall q: RuleId :: q != r && IsRuleOf(s, q, e, org) && (q, t) in s.links ==> s.rules[r].priority < s.rules[q].priority
  }

  ghost predicate SomeRuleApplies(s: State, e: EventId, org: OrgId, t: Option<TypeId>) {
    t.Some? && exists r: RuleId :: IsRuleOf(s, r, e, org) && (r, t.value) in s.links
  }

  /** The first rule in ascending order that covers the type comes before every other that does. */
  lemma FirstMatchApplies(s: State, e: EventId, org: OrgId, order: seq<RuleId>, t: TypeId)
    requires PrioritiesUnique(s.rules) && IsAscending(s, e, org, order) && FirstMatch(s, order, t).Some?
    ensures Applies(s, e, org, t, FirstMatch(s, order, t).value)
  {
    FirstMatchIsLeast(s, e, org, order, t);
    var m := FirstMatch(s, order, t).value;
    forall q: RuleId | q != m && IsRuleOf(s, q, e, org) && (q, t) in s.links
      ensures s.rules[m].priority < s.rules[q].priority
    {
      assert OfEvent(s.rules[q], e, org) && Covers(s, q, t);
    }
  }

  lemma CoveredIsExact(s: State, e: EventId, org: OrgId, t: TypeId)
    ensures Covered(s, e, org, t) <==> SomeRuleApplies(s, e, org, Some(t))
  {
    if Covered(s, e, org, t) {
      var r :| r in s.rules && OfEvent(s.rules[r], e, org) && Covers(s, r, t);
      assert IsRuleOf(s, r, e, org) && (r, t) in s.links;
    }
    if SomeRuleApplies(s, e, org, Some(t)) {
      var r: RuleId :| IsRuleOf(s, r, e, org) && (r, t) in s.links;
      assert OfEvent(s.rules[r], e, org) && Covers(s, r, t);
    }
  }

  lemma MatchIsExact(s: State, e: EventId, org: OrgId, order: seq<RuleId>, t: Option<TypeId>)
    requires Inv(s) && IsAscending(s, e, org, order)
    ensures var m := MatchFor(s, order, t);
      && (m.Some? <==> SomeRuleApplies(s, e, org, t))
      && (m.Some? ==> m.value in s.rules && Applies(s, e, org, t.value, m.value))
  {
    if t.Some? {
      FirstMatchIsLeast(s, e, org, order, t.value);
      CoveredIsExact(s, e, org, t.value);
      if FirstMatch(s, order, t.value).Some? {
        FirstMatchApplies(s, e, org, order, t.value);
      }
    }
  }

  /**
   A preview uses the override if there is one, else the registration's own
   template, else that of the rule that applies; an override or a template of
   another organisation is none.
   */
  lemma PreviewAnswers(s: State, settings: map<EventId, TemplateId>, below: TemplateId, reg: Badges.Registration,
                       order: seq<RuleId>, t: Option<TypeId>, override: Option<TemplateId>, r: RuleId)
    requires Inv(s) && IsAscending(s, reg.event, reg.org, order)
    ensures
      var shown := PreviewTemplate(s, settings, below, reg, order, t, override);
      var asked := if override.Some? then override else reg.template;
      && (asked.Some? ==> shown == if TemplateKnown(s, asked.value, reg.org) then asked else None)
      && (asked.None? && t.Some? && Applies(s, reg.event, reg.org, t.value, r) ==> shown == Some(s.rules[r].template))
      && (asked.None? && !SomeRuleApplies(s, reg.event, reg.org, t) ==>
            shown == Badges.TemplateForEvent(s.templates, settings, below, reg.event, reg.org))
  {
    MatchIsExact(s, reg.event, reg.org, order, t);
    if t.Some? && Applies(s, reg.event, reg.org, t.value, r) {
      assert SomeRuleApplies(s, reg.event, reg.org, t);
      var m := MatchFor(s, order, t).value;
      assert m == r;
      assert TemplateOk(s, s.rules[r].template, reg.org);
    }
  }

  /** A PDF uses the template of the rule that applies, else the one in the settings of the event. */
  lemma PdfAnswers(s: State, settings: map<EventId, TemplateId>, e: EventId, org: OrgId, order: seq<RuleId>,
                   t: Option<TypeId>, r: RuleId)
    requires Inv(s) && IsAscending(s, e, org, order)
    ensures
      var printed := PdfTemplate(s, settings, e, order, t);
      && (t.Some? && Applies(s, e, org, t.value, r) ==> printed == Some(s.rules[r].template))
      && (!SomeRuleApplies(s, e, org, t) ==> printed == if e in settings then Some(settings[e]) else None)
  {
    MatchIsExact(s, e, org, order, t);
    if t.Some? && Applies(s, e, org, t.value, r) {
      assert SomeRuleApplies(s, e, org, t);
      assert MatchFor(s, order, t).value == r;
    }
  }
}
