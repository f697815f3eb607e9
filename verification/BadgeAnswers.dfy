/**
 What a badge generation answers, and with which template, said in terms of the
 tables alone (src/modules/badge-generation/badge-generation.service.ts:263-578).
 */
module BadgeAnswers {
  import opened Wrappers
  import opened Badges
  import opened BadgeRuns

  // ---------- which template ----------

  ghost predicate Usable(templates: map<TemplateId, Template>, org: OrgId, t: TemplateId) {
    t in templates && templates[t].org == org && templates[t].active
  }

  ghost predicate UsableDefault(templates: map<TemplateId, Template>, org: OrgId, t: TemplateId) {
    Usable(templates, org, t) && templates[t].isDefault
  }

  /** The event has a template of its own, and it is active. */
  ghost predicate AssignedIsActive(s: State, e: EventId) {
    e in s.settings && s.settings[e] in s.templates && s.templates[s.settings[e]].active
  }

  /**
   The template a registration's badge is printed from: its own, if it has one
   and it belongs to the organisation; else the active one assigned to the
   event; else the oldest active default; else the oldest active one.
   */
  ghost predicate IsChosen(s: State, r: RegId, t: TemplateId)
    requires r in s.regs
  {
    var reg := s.regs[r];
    match reg.template
    case Some(own) => t == own && t in s.templates && s.templates[t].org == reg.org
    case None =>
      if AssignedIsActive(s, reg.event) then t == s.settings[reg.event]
      else if exists d :: UsableDefault(s.templates, reg.org, d) then
        UsableDefault(s.templates, reg.org, t) && forall d :: UsableDefault(s.templates, reg.org, d) ==> t <= d
      else
        Usable(s.templates, reg.org, t) && forall u :: Usable(s.templates, reg.org, u) ==> t <= u
  }

  /** There is a template to print from. */
  ghost predicate HasTemplate(s: State, r: RegId)
    requires r in s.regs
  {
    var reg := s.regs[r];
    match reg.template
    case Some(own) => own in s.templates && s.templates[own].org == reg.org
    case None => AssignedIsActive(s, reg.event) || exists t :: Usable(s.templates, reg.org, t)
  }

  ghost predicate IdsBelow(s: State) {
    forall t :: t in s.templates ==> t < s.nextTemplate
  }

  lemma ChoiceIsExact(s: State, r: RegId, org: Option<OrgId>)
    requires IdsBelow(s) && Visible(s, r, org)
    ensures ChooseTemplate(s, r, org).Ok? <==> HasTemplate(s, r)
    ensures ChooseTemplate(s, r, org).Ok? ==> IsChosen(s, r, ChooseTemplate(s, r, org).value)
    ensures ChooseTemplate(s, r, org).Err? ==>
      ChooseTemplate(s, r, org).error == if s.regs[r].template.Some? then TemplateNotFound else NoTemplate
  {
    var reg := s.regs[r];
    forall t ensures Eligible(s.templates, reg.org, true, t) <==> UsableDefault(s.templates, reg.org, t) {}
    forall t ensures Eligible(s.templates, reg.org, false, t) <==> Usable(s.templates, reg.org, t) {}
    var byDefault := FirstActive(s.templates, reg.org, true, 0, s.nextTemplate);
    var oldest := FirstActive(s.templates, reg.org, false, 0, s.nextTemplate);
    assert byDefault.Some? ==> UsableDefault(s.templates, reg.org, byDefault.value);
    assert oldest.Some? ==> Usable(s.templates, reg.org, oldest.value);
  }

  // ---------- the answer ----------

  /** Which answer a call gives, exactly. */
  lemma GenerateAnswers(s: State, r: RegId, org: Option<OrgId>, w: World, step: Await)
    requires IdsBelow(s) && !w.catchFails
    ensures
      var res := Generate(s, r, org, w).1;
      var visible := r in s.regs && (org.Some? ==> s.regs[r].org == org.value);
      var reached := visible && w.fails != Some(ReadRegistration) && w.fails != Some(ReadTemplate);
      && (res.Ok? <==> w.fails.None? && visible && HasTemplate(s, r))
      && (res == Err(RegistrationNotFound) <==> w.fails != Some(ReadRegistration) && !visible)
      && (res == Err(TemplateNotFound) <==> reached && s.regs[r].template.Some? && !HasTemplate(s, r))
      && (res == Err(NoTemplate) <==> reached && s.regs[r].template.None? && !HasTemplate(s, r))
      && (res == Err(Thrown(step)) <==>
            w.fails == Some(step)
            && (step.ReadRegistration? || (visible && (step.ReadTemplate? || HasTemplate(s, r)))))
  {
    TryShape(s, r, org, w);
    if r in s.regs && (org.Some? ==> s.regs[r].org == org.value) {
      ChoiceIsExact(s, r, org);
      if w.fails != Some(ReadRegistration) && w.fails != Some(ReadTemplate) && HasTemplate(s, r) {
        WorkShape(s, r, ChooseTemplate(s, r, org).value, w);
      }
    }
  }

  /** When the catch block throws as well, a failed call says so and nothing more. */
  lemma CatchHidesTheAnswer(s: State, r: RegId, org: Option<OrgId>, w: World)
    requires w.catchFails
    ensures Generate(s, r, org, w).1.Err? ==> Generate(s, r, org, w).1 == Err(CatchThrown)
  {
  }

  /**
   A successful call prints the badge from the chosen template, counts one use of
   it, and stores the new addresses on the badge and on the registration.
   */
  lemma GenerateWrites(s: State, r: RegId, org: Option<OrgId>, w: World)
    requires Core(s) && IdsBelow(s) && Generate(s, r, org, w).1.Ok?
    ensures
      var s' := Generate(s, r, org, w).0;
      && r in s.regs && Row(s', r).Some?
      && var x := Row(s', r).value;
      && IsChosen(s, r, x.template) && x.template in s.templates
      && x == Badge(r, x.template, Completed, Some(w.pdf), Some(w.image), None)
      && s'.templates == s.templates[x.template := s.templates[x.template].(usage := s.templates[x.template].usage + 1)]
      && s'.regs == s.regs[r := s.regs[r].(pdf := Some(w.pdf), image := Some(w.image))]
      && s'.settings == s.settings
  {
    GenerateShape(s, r, org, w);
    GenerateKeepsCore(s, r, org, w);
    ChoiceIsExact(s, r, org);
    var (s', res) := Generate(s, r, org, w);
    RowIs(s', r, res.value);
  }

  lemma WorkFailureWrites(s: State, r: RegId, t: TemplateId, w: World, e: Error)
    requires Core(s) && r in s.regs && t in s.templates && w.fails.Some? && !FailsBeforeTheFirstWrite(w)
    ensures
      var s', b := MarkFailed(Work(s, r, t, w).0, r, e), Target(s, r);
      && b in s'.badges && s'.badges[b].reg == r && s'.badges[b].template == t
      && s'.badges[b].status == Failed && s'.badges[b].error == Some(e)
      && s'.regs == s.regs && s'.settings == s.settings
      && (if Counts(w) then UsedOnce(s, s', t) else s'.templates == s.templates)
  {
    WorkShape(s, r, t, w);
    CatchAfterMid(s, Work(s, r, t, w).0, r, t, w, e);
  }

  /** A call that throws after its first write leaves the chosen template on the badge, counted if the uploads went through. */
  lemma FailureWrites(s: State, r: RegId, org: Option<OrgId>, w: World, step: Await)
    requires Core(s) && IdsBelow(s) && !w.catchFails && Generate(s, r, org, w).1 == Err(Thrown(step))
    requires !step.ReadRegistration? && !step.ReadTemplate? && !step.ReadBadge? && !step.SaveGenerating?
    ensures
      var s' := Generate(s, r, org, w).0;
      && r in s.regs && Row(s', r).Some?
      && var x := Row(s', r).value;
      && IsChosen(s, r, x.template) && x.template in s.templates && x.status == Failed && x.error == Some(Thrown(step))
      && s'.regs == s.regs && s'.settings == s.settings
      && (if step.SaveCompleted? || step.SaveUrls? then UsedOnce(s, s', x.template) else s'.templates == s.templates)
  {
    GenerateAnswers(s, r, org, w, step);
    ChoiceIsExact(s, r, org);
    WorkFailureWrites(s, r, ChooseTemplate(s, r, org).value, w, Thrown(step));
    GenerateKeepsCore(s, r, org, w);
    var s' := Generate(s, r, org, w).0;
    assert s' == MarkFailed(Work(s, r, ChooseTemplate(s, r, org).value, w).0, r, Thrown(step));
    RowIs(s', r, Target(s, r));
  }

  // ---------- deletions ----------

  /** A badge goes exactly when it is the one named and its registration belongs to the organisation. */
  lemma DeletionWrites(s: State, b: BadgeId, org: OrgId, c: BadgeId)
    requires RowsOk(s) && c in s.badges
    ensures
      var s' := Delete(s, b, org);
      && (c in s'.badges <==> !(c == b && s.regs[s.badges[c].reg].org == org))
      && (c in s'.badges ==> s'.badges[c] == s.badges[c])
      && s' == s.(badges := s'.badges) && s'.badges.Keys <= s.badges.Keys
  {
  }

  /** Clearing takes exactly the badges of the registration. */
  lemma ClearingWrites(s: State, r: RegId, c: BadgeId)
    requires c in s.badges
    ensures
      var s' := Clear(s, r);
      && (c in s'.badges <==> s.badges[c].reg != r) && (c in s'.badges ==> s'.badges[c] == s.badges[c])
      && s' == s.(badges := s'.badges) && s'.badges.Keys <= s.badges.Keys
  {
  }

  /** A template can be dropped exactly when no badge refers to it. */
  lemma DroppingWrites(s: State, t: TemplateId, u: TemplateId)
    requires u in s.templates
    ensures
      var s' := DropTemplate(s, t);
      && (u in s'.templates <==> u != t || exists b :: b in s.badges && s.badges[b].template == t)
      && (u in s'.templates ==> s'.templates[u] == s.templates[u]) && s' == s.(templates := s'.templates)
  {
  }
}
