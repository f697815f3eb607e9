/**
 Generation of the badge of a registration, one row updated step by step while
 any statement, the rendering or an upload may fail
 (src/modules/badge-generation/badge-generation.service.ts).

 Rendering and uploads are opaque: the upload addresses and the step that
 throws, if any, are arguments.  Ids are numbered in creation order.
 */
module Badges {
  import opened Wrappers

  type OrgId = nat
  type EventId = nat
  type TemplateId = nat
  type RegId = nat
  type BadgeId = nat
  type Url = string

  datatype Template = Template(org: OrgId, active: bool, isDefault: bool, usage: nat)

  datatype Registration = Registration(
    org: OrgId, event: EventId, template: Option<TemplateId>, pdf: Option<Url>, image: Option<Url>)

  datatype Status = Pending | Generating | Completed | Failed

  datatype Badge = Badge(
    reg: RegId, template: TemplateId, status: Status, pdf: Option<Url>, image: Option<Url>, error: Option<Error>)

  /** `settings` gives the template assigned to an event, if any. */
  datatype State = State(
    templates: map<TemplateId, Template>, settings: map<EventId, TemplateId>,
    regs: map<RegId, Registration>, badges: map<BadgeId, Badge>, nextTemplate: TemplateId, next: BadgeId)

  /** The awaited calls of the try block, in order. */
  datatype Await =
    | ReadRegistration | ReadTemplate | ReadBadge | SaveGenerating
    | RenderPage | UploadPdf | UploadImage | CountUsage | SaveCompleted | SaveUrls

  datatype Error = RegistrationNotFound | TemplateNotFound | NoTemplate | Thrown(step: Await) | CatchThrown

  /**
   What the outside world does during a call: the step of the try block that
   throws, whether the catch block throws too, and the addresses of the uploads.
   */
  datatype World = World(fails: Option<Await>, catchFails: bool, pdf: Url, image: Url)

  // ---------- queries ----------

  predicate Visible(s: State, r: RegId, org: Option<OrgId>) {
    r in s.regs && (org.Some? ==> s.regs[r].org == org.value)
  }

  predicate Eligible(templates: map<TemplateId, Template>, org: OrgId, onlyDefault: bool, t: TemplateId) {
    t in templates && templates[t].org == org && templates[t].active && (onlyDefault ==> templates[t].isDefault)
  }

  /** The oldest eligible template with a number from `from` to `below`. */
  function FirstActive(templates: map<TemplateId, Template>, org: OrgId, onlyDefault: bool,
                       from: TemplateId, below: TemplateId)
    : (t: Option<TemplateId>)
    ensures t.Some? ==> from <= t.value < below && Eligible(templates, org, onlyDefault, t.value)
    ensures forall i: TemplateId ::
      from <= i < (if t.Some? then t.value else below) ==> !Eligible(templates, org, onlyDefault, i)
    decreases below - from
  {
    if from >= below then None
    else if Eligible(templates, org, onlyDefault, from) then Some(from)
    else FirstActive(templates, org, onlyDefault, from + 1, below)
  }

  /** The first active one of: the template assigned to the event, the default, the oldest of the organisation. */
  function TemplateForEvent(templates: map<TemplateId, Template>, settings: map<EventId, TemplateId>, below: TemplateId,
                            e: EventId, org: OrgId)
    : Option<TemplateId>
  {
    if e in settings && settings[e] in templates && templates[settings[e]].active then Some(settings[e])
    else
      var byDefault := FirstActive(templates, org, true, 0, below);
      if byDefault.Some? then byDefault else FirstActive(templates, org, false, 0, below)
  }

  function ChooseTemplate(s: State, r: RegId, org: Option<OrgId>): Result<TemplateId, Error>
    requires Visible(s, r, org)
  {
    var reg := s.regs[r];
    match reg.template
    case Some(t) =>
      if t in s.templates && s.templates[t].org == reg.org then Ok(t) else Err(TemplateNotFound)
    case None =>
      match TemplateForEvent(s.templates, s.settings, s.nextTemplate, reg.event, reg.org)
      case Some(t) => if t in s.templates then Ok(t) else Err(NoTemplate)
      case None => Err(NoTemplate)
  }

  /** The badge of a registration. */
  function BadgeOf(badges: map<BadgeId, Badge>, r: RegId, below: BadgeId): (b: Option<BadgeId>)
    ensures b.Some? ==> b.value < below && b.value in badges && badges[b.value].reg == r
    ensures b.None? ==> forall i :: i < below && i in badges ==> badges[i].reg != r
  {
    if below == 0 then None
    else if below - 1 in badges && badges[below - 1].reg == r then Some(below - 1)
    else BadgeOf(badges, r, below - 1)
  }

  // ---------- statements ----------

  /** Creates the badge of the registration, or takes the existing one, with status `Generating`. */
  function Start(s: State, r: RegId, t: TemplateId): (State, BadgeId) {
    match BadgeOf(s.badges, r, s.next)
    case Some(b) =>
      (s.(badges := s.badges[b := s.badges[b].(status := Generating, error := None, template := t)]), b)
    case None =>
      (s.(badges := s.badges[s.next := Badge(r, t, Generating, None, None, None)], next := s.next + 1), s.next)
  }

  function Count(s: State, t: TemplateId): State
    requires t in s.templates
  {
    s.(templates := s.templates[t := s.templates[t].(usage := s.templates[t].usage + 1)])
  }

  function Finish(s: State, b: BadgeId, w: World): State
    requires b in s.badges
  {
    s.(badges := s.badges[b := s.badges[b].(pdf := Some(w.pdf), image := Some(w.image), status := Completed)])
  }

  function Publish(s: State, r: RegId, w: World): State
    requires r in s.regs
  {
    s.(regs := s.regs[r := s.regs[r].(pdf := Some(w.pdf), image := Some(w.image))])
  }

  /** The catch block: an existing badge of the registration is marked as failed. */
  function MarkFailed(s: State, r: RegId, e: Error): State {
    match BadgeOf(s.badges, r, s.next)
    case Some(b) => s.(badges := s.badges[b := s.badges[b].(status := Failed, error := Some(e))])
    case None => s
  }

  // ---------- the handler as a function of the state ----------

  function Work(s: State, r: RegId, t: TemplateId, w: World): (State, Result<BadgeId, Error>)
    requires r in s.regs && t in s.templates
  {
    if w.fails == Some(ReadBadge) || w.fails == Some(SaveGenerating) then (s, Err(Thrown(w.fails.value)))
    else
      var (s1, b) := Start(s, r, t);
      if w.fails == Some(RenderPage) || w.fails == Some(UploadPdf) || w.fails == Some(UploadImage)
         || w.fails == Some(CountUsage) then (s1, Err(Thrown(w.fails.value)))
      else
        var s2 := Count(s1, t);
        if w.fails == Some(SaveCompleted) then (s2, Err(Thrown(SaveCompleted)))
        else
          var s3 := Finish(s2, b, w);
          if w.fails == Some(SaveUrls) then (s3, Err(Thrown(SaveUrls)))
          else (Publish(s3, r, w), Ok(b))
  }

  /** The try block: what has been written when it ends or throws. */
  function Try(s: State, r: RegId, org: Option<OrgId>, w: World): (State, Result<BadgeId, Error>) {
    if w.fails == Some(ReadRegistration) then (s, Err(Thrown(ReadRegistration)))
    else if !Visible(s, r, org) then (s, Err(RegistrationNotFound))
    else if w.fails == Some(ReadTemplate) then (s, Err(Thrown(ReadTemplate)))
    else
      var choice := ChooseTemplate(s, r, org);
      if choice.Err? then (s, Err(choice.error))
      else Work(s, r, choice.value, w)
  }

  function Generate(s: State, r: RegId, org: Option<OrgId>, w: World): (State, Result<BadgeId, Error>) {
    var (s1, res) := Try(s, r, org, w);
    if res.Ok? then (s1, res)
    else if w.catchFails then (s1, Err(CatchThrown))
    else (MarkFailed(s1, r, res.error), res)
  }

  /** `generateBulk`: each registration in turn, whatever happens to the others, with one report line each. */
  function Bulk(s: State, ids: seq<RegId>, org: Option<OrgId>, worlds: seq<World>): (State, seq<(RegId, bool)>)
    requires |worlds| == |ids|
  {
    if ids == [] then (s, [])
    else
      var k := |ids| - 1;
      var (s1, lines) := Bulk(s, ids[..k], org, worlds[..k]);
      var (s2, res) := Generate(s1, ids[k], org, worlds[k]);
      (s2, lines + [(ids[k], res.Ok?)])
  }

  /** The number of report lines saying `ok`. */
  function Tally(lines: seq<(RegId, bool)>, ok: bool): nat {
    if lines == [] then 0
    else Tally(lines[..|lines| - 1], ok) + if lines[|lines| - 1].1 == ok then 1 else 0
  }

  /** `deleteBadge`: one badge of the organisation, by id. */
  function Delete(s: State, b: BadgeId, org: OrgId): State {
    if b in s.badges && s.badges[b].reg in s.regs && s.regs[s.badges[b].reg].org == org
    then s.(badges := s.badges - {b}) else s
  }

  /** The deletion before a forced preview: every badge of the registration. */
  function Clear(s: State, r: RegId): State {
    s.(badges := map b | b in s.badges && s.badges[b].reg != r :: s.badges[b])
  }

  /** The database refuses to delete a template that a badge refers to. */
  function DropTemplate(s: State, t: TemplateId): State {
    if exists b :: b in s.badges && s.badges[b].template == t then s
    else s.(templates := s.templates - {t})
  }

  // ---------- the service ----------

  class BadgeGenerationService {
    var templates: map<TemplateId, Template>
    var settings: map<EventId, TemplateId>
    var regs: map<RegId, Registration>
    var badges: map<BadgeId, Badge>
    var nextTemplate: TemplateId
    var next: BadgeId

    ghost function S(): State
      reads this
    {
      State(templates, settings, regs, badges, nextTemplate, next)
    }

    constructor (templates: map<TemplateId, Template>, settings: map<EventId, TemplateId>,
                 regs: map<RegId, Registration>, nextTemplate: TemplateId)
      ensures S() == State(templates, settings, regs, map[], nextTemplate, 0)
    {
      this.templates, this.settings, this.regs := templates, settings, regs;
      this.badges, this.nextTemplate, this.next := map[], nextTemplate, 0;
    }

    method FindTemplate(e: EventId, org: OrgId) returns (t: Option<TemplateId>)
      ensures t == TemplateForEvent(templates, settings, nextTemplate, e, org)
    {
      if e in settings && settings[e] in templates && templates[settings[e]].active {
        return Some(settings[e]);
      }
      t := FirstActive(templates, org, true, 0, nextTemplate);
      if t.None? {
        t := FirstActive(templates, org, false, 0, nextTemplate);
      }
    }

    /** The body of the try block; `Err` is the exception it throws. */
    method TryGenerate(r: RegId, org: Option<OrgId>, w: World) returns (res: Result<BadgeId, Error>)
      modifies this`templates, this`regs, this`badges, this`next
      ensures (S(), res) == Try(old(S()), r, org, w)
    {
      if w.fails == Some(ReadRegistration) {
        return Err(Thrown(ReadRegistration));
      }
      if r !in regs || (org.Some? && regs[r].org != org.value) {
        return Err(RegistrationNotFound);
      }
      if w.fails == Some(ReadTemplate) {
        return Err(Thrown(ReadTemplate));
      }
      var t: TemplateId;
      if regs[r].template.Some? {
        t := regs[r].template.value;
        if t !in templates || templates[t].org != regs[r].org {
          return Err(TemplateNotFound);
        }
      } else {
        var found := FindTemplate(regs[r].event, regs[r].org);
        if found.None? || found.value !in templates {
          return Err(NoTemplate);
        }
        t := found.value;
      }
      res := FillBadge(r, t, w);
    }

    method FillBadge(r: RegId, t: TemplateId, w: World) returns (res: Result<BadgeId, Error>)
      requires r in regs && t in templates
      modifies this`templates, this`regs, this`badges, this`next
      ensures (S(), res) == Work(old(S()), r, t, w)
    {
      if w.fails == Some(ReadBadge) {
        return Err(Thrown(ReadBadge));
      }
      var existing := BadgeOf(badges, r, next);
      if w.fails == Some(SaveGenerating) {
        return Err(Thrown(SaveGenerating));
      }
      var b: BadgeId;
      if existing.Some? {
        b := existing.value;
        badges := badges[b := badges[b].(status := Generating, error := None, template := t)];
      } else {
        b := next;
        badges := badges[b := Badge(r, t, Generating, None, None, None)];
        next := next + 1;
      }
      if w.fails == Some(RenderPage) || w.fails == Some(UploadPdf) || w.fails == Some(UploadImage) {
        return Err(Thrown(w.fails.value));
      }
      if w.fails == Some(CountUsage) {
        return Err(Thrown(CountUsage));
      }
      templates := templates[t := templates[t].(usage := templates[t].usage + 1)];
      if w.fails == Some(SaveCompleted) {
        return Err(Thrown(SaveCompleted));
      }
      badges := badges[b := badges[b].(pdf := Some(w.pdf), image := Some(w.image), status := Completed)];
      if w.fails == Some(SaveUrls) {
        return Err(Thrown(SaveUrls));
      }
      regs := regs[r := regs[r].(pdf := Some(w.pdf), image := Some(w.image))];
      return Ok(b);
    }

    method GenerateBadge(r: RegId, org: Option<OrgId>, w: World) returns (res: Result<BadgeId, Error>)
      modifies this`templates, this`regs, this`badges, this`next
      ensures (S(), res) == Generate(old(S()), r, org, w)
    {
      res := TryGenerate(r, org, w);
      if res.Err? {
        // the two statements of the catch block: whichever throws, nothing is written
        if w.catchFails {
          return Err(CatchThrown);
        }
        var existing := BadgeOf(badges, r, next);
        if existing.Some? {
          var b := existing.value;
          badges := badges[b := badges[b].(status := Failed, error := Some(res.error))];
        }
      }
    }

    method DeleteBadge(b: BadgeId, org: OrgId) returns (ok: bool)
      modifies this`badges
      ensures S() == Delete(old(S()), b, org)
      ensures ok <==> b in old(badges) && old(badges)[b].reg in regs && regs[old(badges)[b].reg].org == org
    {
      ok := b in badges && badges[b].reg in regs && regs[badges[b].reg].org == org;
      if ok {
        badges := badges - {b};
      }
    }

    /** The deletion step of a preview with a template override or a forced regeneration. */
    method ClearBadges(r: RegId)
      modifies this`badges
      ensures S() == Clear(old(S()), r)
    {
      badges := map b | b in badges && badges[b].reg != r :: badges[b];
    }

    /** Generates the badges of `ids` one by one and reports on each. */
    method GenerateBulk(ids: seq<RegId>, org: Option<OrgId>, worlds: seq<World>)
      returns (generated: nat, failed: nat, results: seq<(RegId, bool)>)
      requires |worlds| == |ids|
      modifies this`templates, this`regs, this`badges, this`next
      ensures (S(), results) == Bulk(old(S()), ids, org, worlds)
      ensures generated == Tally(results, true) && failed == Tally(results, false)
    {
      generated, failed, results := 0, 0, [];
      for k := 0 to |ids|
        invariant (S(), results) == Bulk(old(S()), ids[..k], org, worlds[..k])
        invariant generated == Tally(results, true) && failed == Tally(results, false)
      {
        ghost var before := results;
        var res := GenerateBadge(ids[k], org, worlds[k]);
        assert ids[..k + 1][..k] == ids[..k] && worlds[..k + 1][..k] == worlds[..k];
        results := results + [(ids[k], res.Ok?)];
        assert results[..|results| - 1] == before;
        if res.Ok? {
          generated := generated + 1;
        } else {
          failed := failed + 1;
        }
      }
      assert ids[..|ids|] == ids && worlds[..|ids|] == worlds;
    }
  }
}
