/**
 Badge rules over every run of create, update and delete, and the agreement of
 the two places that apply them
 (src/modules/events/events.service.ts:1093-1296,
 src/modules/badge-generation/badge-generation.service.ts:887-977, 1220-1265).
 */
module BadgeRuleRuns {
  import opened Collections
  import opened Wrappers
  import opened BadgeRules
  import Badges

  datatype Op =
    | CreateOp(event: EventId, org: OrgId, dto: NewRule)
    | UpdateOp(event: EventId, org: OrgId, rule: RuleId, changes: Changes)
    | DeleteOp(event: EventId, org: OrgId, rule: RuleId)

  function Step(s: State, op: Op): State {
    match op
    case CreateOp(e, org, dto) => Create(s, e, org, dto).0
    case UpdateOp(e, org, r, c) => Update(s, e, org, r, c).0
    case DeleteOp(e, org, r) => Delete(s, e, org, r).0
  }

  function Run(s: State, ops: seq<Op>): State {
    if ops == [] then s else Step(Run(s, ops[..|ops| - 1]), ops[|ops| - 1])
  }

  // ---------- the length comparison ----------

  lemma FoundAppend(types: map<TypeId, OrgId>, org: OrgId, ids: seq<TypeId>, last: TypeId)
    ensures |Found(types, org, ids + [last])|
            == |Found(types, org, ids)| + if last in types && types[last] == org && last !in ids then 1 else 0
  {
    var known := last in types && types[last] == org;
    assert forall t :: t in ids + [last] <==> t in ids || t == last;
    if known {
      assert Found(types, org, ids + [last]) == Found(types, org, ids) + {last};
    } else {
      assert Found(types, org, ids + [last]) == Found(types, org, ids);
    }
  }

  lemma {:induction false} FoundIsNoLonger(types: map<TypeId, OrgId>, org: OrgId, ids: seq<TypeId>)
    ensures |Found(types, org, ids)| <= |ids|
    ensures |Found(types, org, ids)| == |ids| <==>
      Distinct(ids) && forall t :: t in ids ==> t in types && types[t] == org
  {
    if ids != [] {
      var front, last := ids[..|ids| - 1], ids[|ids| - 1];
      FoundIsNoLonger(types, org, front);
      FoundAppend(types, org, front, last);
      DistinctAppend(front, last);
      assert ids == front + [last];
      assert forall t :: t in ids <==> t in front || t == last;
    }
  }

  /** Comparing the two lengths accepts a list exactly when every id is a type of the organisation and none is repeated. */
  lemma LengthsAgreeExactly(types: map<TypeId, OrgId>, org: OrgId, ids: seq<TypeId>)
    ensures LengthsAgree(types, org, ids) <==>
      Distinct(ids) && forall t :: t in ids ==> t in types && types[t] == org
  {
    FoundIsNoLonger(types, org, ids);
  }

  // ---------- the invariant ----------

  ghost predicate RulesOk(s: State) {
    forall r :: r in s.rules ==>
      r < s.next && EventOk(s, s.rules[r].event, s.rules[r].org) && TemplateOk(s, s.rules[r].template, s.rules[r].org)
  }

  ghost predicate PrioritiesUnique(rules: map<RuleId, Rule>) {
    forall q, r ::
      (q in rules && r in rules && rules[q].event == rules[r].event && rules[q].org == rules[r].org
       && rules[q].priority == rules[r].priority) ==> q == r
  }

  /** An association belongs to a rule and names a type of the rule's organisation. */
  ghost predicate LinksOk(s: State) {
    forall l :: l in s.links ==> l.0 in s.rules && l.1 in s.types && s.types[l.1] == s.rules[l.0].org
  }

  ghost predicate Inv(s: State) {
    RulesOk(s) && PrioritiesUnique(s.rules) && LinksOk(s)
  }

  lemma RuleWritten(rules: map<RuleId, Rule>, r: RuleId, x: Rule)
    requires PrioritiesUnique(rules) && !PriorityUsed(rules, x.event, x.org, x.priority, r)
    ensures PrioritiesUnique(rules[r := x])
  {
    assert forall q :: q in rules && q != r && OfEvent(rules[q], x.event, x.org) ==> rules[q].priority != x.priority;
  }

  lemma CreateKeepsInv(s: State, e: EventId, org: OrgId, dto: NewRule)
    requires Inv(s)
    ensures Inv(Create(s, e, org, dto).0)
  {
    var (s', res) := Create(s, e, org, dto);
    if res.Ok? {
      LengthsAgreeExactly(s.types, org, dto.types);
      RuleWritten(s.rules, s.next, s'.rules[s.next]);
    }
  }

  lemma UpdateKeepsInv(s: State, e: EventId, org: OrgId, r: RuleId, c: Changes)
    requires Inv(s)
    ensures Inv(Update(s, e, org, r, c).0)
  {
    var (s', res) := Update(s, e, org, r, c);
    if res.Ok? {
      if c.types.Some? {
        LengthsAgreeExactly(s.types, org, c.types.value);
      }
      assert s'.rules[r].priority == s.rules[r].priority || !PriorityUsed(s.rules, e, org, s'.rules[r].priority, r);
      RuleWritten(s.rules, r, s'.rules[r]);
    }
  }

  lemma StepKeepsInv(s: State, op: Op)
    requires Inv(s)
    ensures Inv(Step(s, op))
  {
    match op
    case CreateOp(e, org, dto) => CreateKeepsInv(s, e, org, dto);
    case UpdateOp(e, org, r, c) => UpdateKeepsInv(s, e, org, r, c);
    case DeleteOp(e, org, r) =>
  }

  /** Over every run: priorities are unique in each event, templates and types belong to the rule's organisation. */
  lemma {:induction false} RunKeepsInv(s: State, ops: seq<Op>)
    requires Inv(s)
    ensures Inv(Run(s, ops))
  {
    if ops != [] {
      RunKeepsInv(s, ops[..|ops| - 1]);
      StepKeepsInv(Run(s, ops[..|ops| - 1]), ops[|ops| - 1]);
    }
  }

  // ---------- associations ----------

  ghost function TypesOf(s: State, r: RuleId): set<TypeId> {
    set l | l in s.links && l.0 == r :: l.1
  }

  /** A created rule has one association per requested type; those of the other rules stay. */
  lemma CreatedRuleHasTheTypes(s: State, e: EventId, org: OrgId, dto: NewRule)
    requires Inv(s) && Create(s, e, org, dto).1.Ok?
    ensures
      var (s', res) := Create(s, e, org, dto);
      && (forall t :: t in TypesOf(s', res.value) <==> t in dto.types) && |TypesOf(s', res.value)| == |dto.types|
      && forall q :: q in s.rules ==> TypesOf(s', q) == TypesOf(s, q)
  {
    var (s', res) := Create(s, e, org, dto);
    assert forall l :: l in Links(s.next, dto.types) <==> l.0 == s.next && l.1 in dto.types;
    assert forall t :: t in TypesOf(s', s.next) <==> (s.next, t) in s'.links;
    LengthsAgreeExactly(s.types, org, dto.types);
    assert TypesOf(s', s.next) == Found(s.types, org, dto.types);
    forall q | q in s.rules
      ensures TypesOf(s', q) == TypesOf(s, q)
    {
      assert forall t :: t in TypesOf(s', q) <==> (q, t) in s'.links;
      assert forall t :: t in TypesOf(s, q) <==> (q, t) in s.links;
    }
  }

  /** An update with types leaves exactly those on the rule, without types it leaves them alone; other rules keep theirs. */
  lemma UpdatedRuleHasTheTypes(s: State, e: EventId, org: OrgId, r: RuleId, c: Changes, q: RuleId)
    requires Inv(s) && Update(s, e, org, r, c).1.Ok?
    ensures
      var s' := Update(s, e, org, r, c).0;
      if q == r && c.types.Some? then
        (forall t :: t in TypesOf(s', r) <==> t in c.types.value) && |TypesOf(s', r)| == |c.types.value|
      else TypesOf(s', q) == TypesOf(s, q)
  {
    var s' := Update(s, e, org, r, c).0;
    assert forall t :: t in TypesOf(s', q) <==> (q, t) in s'.links;
    assert forall t :: t in TypesOf(s, q) <==> (q, t) in s.links;
    if c.types.Some? {
      assert forall l :: l in Links(r, c.types.value) <==> l.0 == r && l.1 in c.types.value;
      LengthsAgreeExactly(s.types, org, c.types.value);
      if q == r {
        assert TypesOf(s', r) == Found(s.types, org, c.types.value);
      }
    }
  }

  /** An update writes the template and the priority it is given, keeps the others, and leaves the other rules alone. */
  lemma UpdatedRuleReads(s: State, e: EventId, org: OrgId, r: RuleId, c: Changes)
    requires Update(s, e, org, r, c).1.Ok?
    ensures
      var s' := Update(s, e, org, r, c).0;
      && s'.rules.Keys == s.rules.Keys && (forall q :: q in s.rules && q != r ==> s'.rules[q] == s.rules[q])
      && s'.rules[r].event == s.rules[r].event && s'.rules[r].org == s.rules[r].org
      && s'.rules[r].template == (match c.template case Some(t) => t case None => s.rules[r].template)
      && s'.rules[r].priority == (match c.priority case Some(p) => p case None => s.rules[r].priority)
  {
  }

  // ---------- which rule applies ----------

  /** `r` covers the type, with the least priority among the rules of the event that do. */
  ghost predicate IsMatch(s: State, e: EventId, org: OrgId, t: TypeId, r: RuleId) {
    && r in s.rules && OfEvent(s.rules[r], e, org) && Covers(s, r, t)
    && forall q :: q in s.rules && OfEvent(s.rules[q], e, org) && Covers(s, q, t) ==>
         s.rules[r].priority <= s.rules[q].priority
  }

  ghost predicate Covered(s: State, e: EventId, org: OrgId, t: TypeId) {
    exists r :: r in s.rules && OfEvent(s.rules[r], e, org) && Covers(s, r, t)
  }

  lemma MatchIsUnique(s: State, e: EventId, org: OrgId, t: TypeId, q: RuleId, r: RuleId)
    requires PrioritiesUnique(s.rules) && IsMatch(s, e, org, t, q) && IsMatch(s, e, org, t, r)
    ensures q == r
  {
  }

  lemma {:induction false} FirstMatchInOrder(s: State, order: seq<RuleId>, t: TypeId)
    ensures
      var m := FirstMatch(s, order, t);
      && (m.Some? <==> exists k :: 0 <= k < |order| && Covers(s, order[k], t))
      && (m.Some? ==> exists k :: 0 <= k < |order| && order[k] == m.value && Covers(s, order[k], t)
                        && forall i :: 0 <= i < k ==> !Covers(s, order[i], t))
  {
    if order != [] && !Covers(s, order[0], t) {
      FirstMatchInOrder(s, order[1..], t);
      assert forall i :: 0 < i < |order| ==> order[i] == order[1..][i - 1];
      var m := FirstMatch(s, order[1..], t);
      if m.Some? {
        var k :| 0 <= k < |order[1..]| && order[1..][k] == m.value && Covers(s, order[1..][k], t)
                 && forall i :: 0 <= i < k ==> !Covers(s, order[1..][i], t);
        assert order[k + 1] == m.value;
        assert forall i :: 0 <= i < k + 1 ==> !Covers(s, order[i], t);
      }
    }
  }

  /** The first rule found in the sorted list is the one of least priority among those covering the type. */
  lemma FirstMatchIsLeast(s: State, e: EventId, org: OrgId, order: seq<RuleId>, t: TypeId)
    requires IsAscending(s, e, org, order)
    ensures FirstMatch(s, order, t).Some? <==> Covered(s, e, org, t)
    ensures FirstMatch(s, order, t).Some? ==> IsMatch(s, e, org, t, FirstMatch(s, order, t).value)
  {
    FirstMatchInOrder(s, order, t);
    var m := FirstMatch(s, order, t);
    if Covered(s, e, org, t) {
      var r :| r in s.rules && OfEvent(s.rules[r], e, org) && Covers(s, r, t);
      assert r in order;
    }
    if m.Some? {
      var k :| 0 <= k < |order| && order[k] == m.value && Covers(s, order[k], t)
               && forall i :: 0 <= i < k ==> !Covers(s, order[i], t);
      assert m.value in order;
      forall q | q in s.rules && OfEvent(s.rules[q], e, org) && Covers(s, q, t)
        ensures s.rules[m.value].priority <= s.rules[q].priority
      {
        assert q in order;
        var i :| 0 <= i < |order| && order[i] == q;
      }
    }
  }

  /** Without a priority of its own, a rule is never refused for its priority. */
  lemma NextPriorityIsFree(s: State, e: EventId, org: OrgId)
    requires RulesOk(s)
    ensures forall r :: r in s.rules && OfEvent(s.rules[r], e, org) ==> s.rules[r].priority < NextPriority(s, e, org)
    ensures !PriorityUsed(s.rules, e, org, NextPriority(s, e, org), s.next)
  {
    var p := MaxPriority(s.rules, e, org, s.next);
  }

  /**
   A rule created without a priority never changes the match of a type that was
   covered, and becomes the match of a requested type that was not.
   */
  lemma AppendedRuleYields(s: State, e: EventId, org: OrgId, dto: NewRule, t: TypeId)
    requires Inv(s) && dto.priority == None && Create(s, e, org, dto).1.Ok?
    ensures
      var (s', res) := Create(s, e, org, dto);
      && (Covered(s, e, org, t) ==> forall r :: IsMatch(s', e, org, t, r) <==> IsMatch(s, e, org, t, r))
      && (!Covered(s, e, org, t) ==> forall r :: IsMatch(s', e, org, t, r) <==> r == res.value && t in dto.types)
  {
    var (s', res) := Create(s, e, org, dto);
    NextPriorityIsFree(s, e, org);
    assert forall l :: l in Links(s.next, dto.types) <==> l.0 == s.next && l.1 in dto.types;
    assert forall q :: q in s.rules ==> (Covers(s', q, t) <==> Covers(s, q, t));
    assert Covers(s', s.next, t) <==> t in dto.types;
    assert forall q :: q in s.rules ==> s'.rules[q] == s.rules[q];
  }

  /** A rule moved before every other rule that covers a type becomes the match of that type, if it covers it. */
  lemma MovedRuleTakesOver(s: State, e: EventId, org: OrgId, r: RuleId, c: Changes, t: TypeId)
    requires Inv(s) && Update(s, e, org, r, c).1.Ok? && c.priority.Some?
    requires t in TypesOf(Update(s, e, org, r, c).0, r)
    requires forall q ::
      q in s.rules && q != r && OfEvent(s.rules[q], e, org) && Covers(s, q, t) ==> c.priority.value < s.rules[q].priority
    ensures IsMatch(Update(s, e, org, r, c).0, e, org, t, r)
  {
    var s' := Update(s, e, org, r, c).0;
    UpdatedRuleReads(s, e, org, r, c);
    forall q | q in s'.rules && q != r && Covers(s', q, t)
      ensures Covers(s, q, t)
    {
      if c.types.Some? {
        assert forall l :: l in Links(r, c.types.value) ==> l.0 == r;
      }
    }
  }

  /** Deleting a rule that was not the match of a type leaves the match; deleting the match leaves the next rule. */
  lemma DeletionKeepsOtherMatches(s: State, e: EventId, org: OrgId, r: RuleId, t: TypeId, m: RuleId)
    requires Inv(s) && Delete(s, e, org, r).1.Ok?
    ensures IsMatch(Delete(s, e, org, r).0, e, org, t, m) <==>
      && m != r && m in s.rules && OfEvent(s.rules[m], e, org) && Covers(s, m, t)
      && forall q :: q in s.rules && q != r && OfEvent(s.rules[q], e, org) && Covers(s, q, t) ==>
           s.rules[m].priority <= s.rules[q].priority
  {
    var s' := Delete(s, e, org, r).0;
    assert forall q :: q in s'.rules <==> q in s.rules && q != r;
    assert forall q :: q != r ==> (Covers(s', q, t) <==> Covers(s, q, t));
  }

  // ---------- preview and PDF ----------

  /** With no override and no template of its own, a badge covered by a rule looks the same in the preview and the PDF. */
  lemma PreviewAndPdfUseTheRule(s: State, settings: map<EventId, TemplateId>, below: TemplateId, reg: Badges.Registration,
                                order: seq<RuleId>, order': seq<RuleId>, t: TypeId, r: RuleId)
    requires Inv(s) && reg.template == None
    requires IsAscending(s, reg.event, reg.org, order) && IsAscending(s, reg.event, reg.org, order')
    requires IsMatch(s, reg.event, reg.org, t, r)
    ensures PreviewTemplate(s, settings, below, reg, order, Some(t), None) == Some(s.rules[r].template)
    ensures PdfTemplate(s, settings, reg.event, order', Some(t)) == Some(s.rules[r].template)
  {
    FirstMatchIsLeast(s, reg.event, reg.org, order, t);
    FirstMatchIsLeast(s, reg.event, reg.org, order', t);
    MatchIsUnique(s, reg.event, reg.org, t, r, FirstMatch(s, order, t).value);
    MatchIsUnique(s, reg.event, reg.org, t, r, FirstMatch(s, order', t).value);
  }

  ghost predicate SomeActive(templates: map<TemplateId, Badges.Template>, org: OrgId, below: TemplateId) {
    exists i: TemplateId :: i < below && Badges.Eligible(templates, org, false, i)
  }

  /** The fall-back of the preview finds nothing exactly when the organisation has no active template. */
  lemma FallBackFinds(templates: map<TemplateId, Badges.Template>, settings: map<EventId, TemplateId>, below: TemplateId,
                      e: EventId, org: OrgId)
    requires forall i: TemplateId :: i in templates ==> i < below
    requires e in settings && settings[e] in templates ==> templates[settings[e]].org == org
    ensures Badges.TemplateForEvent(templates, settings, below, e, org).None? <==> !SomeActive(templates, org, below)
  {
    var byDefault := Badges.FirstActive(templates, org, true, 0, below);
    var fromSettings := e in settings && settings[e] in templates && templates[settings[e]].active;
    assert fromSettings ==> Badges.Eligible(templates, org, false, settings[e]);
    assert byDefault.Some? ==> Badges.Eligible(templates, org, false, byDefault.value);
  }

  /**
   Where no rule matches, the two differ: the PDF takes the template of the
   event's settings whether it is active or not, and nothing else.  They agree
   exactly when that template is active, or when there is neither such a
   template nor any active one.
   */
  lemma PreviewAndPdfAgreeExactly(s: State, settings: map<EventId, TemplateId>, below: TemplateId, reg: Badges.Registration,
                                  order: seq<RuleId>, t: Option<TypeId>)
    requires reg.template == None && MatchFor(s, order, t).None?
    requires forall i: TemplateId :: i in s.templates ==> i < below
    requires reg.event in settings ==> TemplateOk(s, settings[reg.event], reg.org)
    ensures
      PreviewTemplate(s, settings, below, reg, order, t, None) == PdfTemplate(s, settings, reg.event, order, t)
      <==> (if reg.event in settings then s.templates[settings[reg.event]].active
            else !SomeActive(s.templates, reg.org, below))
  {
    FallBackFinds(s.templates, settings, below, reg.event, reg.org);
  }
}
