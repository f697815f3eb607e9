/**
 What every run of badge generation keeps, wherever the try block fails, and
 what one call does to the badge of its registration and to everything else
 (src/modules/badge-generation/badge-generation.service.ts:290-672).
 */
module BadgeRuns {
  import opened Collections
  import opened Wrappers
  import opened Badges

  // ---------- runs ----------

  datatype Op =
    | GenerateOp(reg: RegId, scope: Option<OrgId>, world: World)
    | BulkOp(ids: seq<RegId>, scope: Option<OrgId>, worlds: seq<World>)
    | DeleteOp(badge: BadgeId, org: OrgId)
    | ClearOp(reg: RegId)
    | DropTemplateOp(template: TemplateId)

  predicate ValidOp(op: Op) {
    op.BulkOp? ==> |op.worlds| == |op.ids|
  }

  ghost function Step(s: State, op: Op): State
    requires ValidOp(op)
  {
    match op
    case GenerateOp(r, scope, w) => Generate(s, r, scope, w).0
    case BulkOp(ids, scope, worlds) => Bulk(s, ids, scope, worlds).0
    case DeleteOp(b, org) => Delete(s, b, org)
    case ClearOp(r) => Clear(s, r)
    case DropTemplateOp(t) => DropTemplate(s, t)
  }

  ghost function Run(s: State, ops: seq<Op>): State
    requires forall op :: op in ops ==> ValidOp(op)
  {
    if ops == [] then s else Step(Run(s, ops[..|ops| - 1]), ops[|ops| - 1])
  }

  // ---------- the invariant ----------

  ghost predicate RowsOk(s: State) {
    forall b :: b in s.badges ==>
      b < s.next && s.badges[b].reg in s.regs && s.badges[b].template in s.templates
  }

  ghost predicate OnePerRegistration(badges: map<BadgeId, Badge>) {
    forall b, c :: b in badges && c in badges && badges[b].reg == badges[c].reg ==> b == c
  }

  ghost predicate NoneGenerating(badges: map<BadgeId, Badge>) {
    forall b :: b in badges ==> !badges[b].status.Generating?
  }

  /** A completed badge carries addresses, and its registration the same ones. */
  ghost predicate AddressesAgree(s: State) {
    forall b :: b in s.badges && s.badges[b].status.Completed? ==>
      var x := s.badges[b];
      x.pdf.Some? && x.image.Some? && x.reg in s.regs && s.regs[x.reg].pdf == x.pdf && s.regs[x.reg].image == x.image
  }

  ghost function CompletedWith(badges: map<BadgeId, Badge>, t: TemplateId): set<BadgeId> {
    set b | b in badges && badges[b].status.Completed? && badges[b].template == t
  }

  ghost predicate UsageCovers(s: State) {
    forall t :: t in s.templates ==> |CompletedWith(s.badges, t)| <= s.templates[t].usage
  }

  /** What every call keeps, whatever throws. */
  ghost predicate Core(s: State) {
    RowsOk(s) && OnePerRegistration(s.badges) && UsageCovers(s)
  }

  /** What every call keeps unless its catch block throws as well. */
  ghost predicate Inv(s: State) {
    Core(s) && NoneGenerating(s.badges) && AddressesAgree(s)
  }

  // ---------- the shape of one call ----------

  /** The id of the badge a call writes: the existing one, or a new one. */
  ghost function Target(s: State, r: RegId): BadgeId {
    var b := BadgeOf(s.badges, r, s.next);
    if b.Some? then b.value else s.next
  }

  /** Nothing differs but the badge of `r`, which now reads `x`. */
  ghost predicate OnlyBadge(s: State, s': State, r: RegId, x: Badge) {
    && s'.badges == s.badges[Target(s, r) := x]
    && s'.settings == s.settings && s'.nextTemplate == s.nextTemplate
    && s'.next == (if Target(s, r) == s.next then s.next + 1 else s.next)
  }

  ghost predicate UsedOnce(s: State, s': State, t: TemplateId) {
    t in s.templates && s'.templates == s.templates[t := s.templates[t].(usage := s.templates[t].usage + 1)]
  }

  /** A failed call that found or left no badge changes nothing. */
  ghost predicate Untouched(s: State, s': State, r: RegId) {
    s' == s && BadgeOf(s.badges, r, s.next).None?
  }

  /** The addresses a badge of `r` had, none if there was no badge. */
  ghost function Addresses(s: State, r: RegId): (Option<Url>, Option<Url>) {
    var b := BadgeOf(s.badges, r, s.next);
    if b.Some? then (s.badges[b.value].pdf, s.badges[b.value].image) else (None, None)
  }

  /** The registration is visible and a template is found: the call starts writing unless something throws. */
  predicate Accepted(s: State, r: RegId, org: Option<OrgId>) {
    Visible(s, r, org) && ChooseTemplate(s, r, org).Ok?
  }

  /** The addresses a failed call leaves: the new ones only when the last statement is the one that threw. */
  ghost function AddressesLeft(s: State, r: RegId, started: bool, w: World): (Option<Url>, Option<Url>) {
    if started && w.fails == Some(SaveUrls) then (Some(w.pdf), Some(w.image)) else Addresses(s, r)
  }

  /** The usage count moves in every call whose rendering and uploads went through. */
  ghost predicate Counts(w: World) {
    w.fails.None? || w.fails == Some(SaveCompleted) || w.fails == Some(SaveUrls)
  }

  /** A failed call that found or left a badge: it is `Failed` and says why. */
  ghost predicate FailedShape(s: State, s': State, r: RegId, e: Error, left: (Option<Url>, Option<Url>)) {
    var b := Target(s, r);
    && b in s'.badges && OnlyBadge(s, s', r, s'.badges[b]) && s'.regs == s.regs
    && var x := s'.badges[b];
    && x.reg == r && x.status == Failed && x.error == Some(e) && (x.pdf, x.image) == left
    && (s'.templates == s.templates || UsedOnce(s, s', x.template))
    && (if BadgeOf(s.badges, r, s.next).Some?
        then x.template == s.badges[b].template || x.template in s.templates
        else r in s.regs && x.template in s.templates)
  }

  ghost predicate DoneShape(s: State, s': State, r: RegId, b: BadgeId, t: TemplateId, w: World) {
    && r in s.regs && b == Target(s, r) && UsedOnce(s, s', t)
    && b in s'.badges && OnlyBadge(s, s', r, s'.badges[b])
    && s'.badges[b] == Badge(r, t, Completed, Some(w.pdf), Some(w.image), None)
    && s'.regs == s.regs[r := s.regs[r].(pdf := Some(w.pdf), image := Some(w.image))]
  }

  lemma BadgeOfIsUnique(badges: map<BadgeId, Badge>, r: RegId, below: BadgeId, b: BadgeId)
    requires b in badges && b < below && badges[b].reg == r
    requires OnePerRegistration(badges)
    ensures BadgeOf(badges, r, below) == Some(b)
  {
  }

  lemma StartShape(s: State, r: RegId, t: TemplateId)
    requires r in s.regs && t in s.templates
    ensures
      var (s1, b) := Start(s, r, t);
      && b == Target(s, r) && b in s1.badges && OnlyBadge(s, s1, r, s1.badges[b])
      && s1.regs == s.regs && s1.templates == s.templates
      && s1.badges[b] == Badge(r, t, Generating, Addresses(s, r).0, Addresses(s, r).1, None)
  {
  }

  /** The search of the catch block finds the badge the try block was working on. */
  lemma CatchFindsTheBadge(s: State, s1: State, r: RegId, b: BadgeId)
    requires RowsOk(s) && OnePerRegistration(s.badges)
    requires b == Target(s, r) && b in s1.badges && s1.badges[b].reg == r
    requires OnlyBadge(s, s1, r, s1.badges[b])
    ensures BadgeOf(s1.badges, r, s1.next) == Some(b)
  {
    forall c | c in s1.badges && s1.badges[c].reg == r
      ensures c == b
    {
    }
    var found := BadgeOf(s1.badges, r, s1.next);
    assert b < s1.next;
    assert found.Some?;
  }

  /** The catch block before the first write. */
  lemma FailureBeforeTheFirstWrite(s: State, r: RegId, e: Error)
    ensures Untouched(s, MarkFailed(s, r, e), r) || FailedShape(s, MarkFailed(s, r, e), r, e, Addresses(s, r))
  {
    var after := MarkFailed(s, r, e);
    var b := BadgeOf(s.badges, r, s.next);
    if b.Some? {
      assert after.badges == s.badges[b.value := after.badges[b.value]];
    }
  }

  /** The catch block after the badge was taken or created. */
  lemma FailureAfterTheFirstWrite(s: State, s1: State, r: RegId, t: TemplateId, b: BadgeId, e: Error)
    requires RowsOk(s) && OnePerRegistration(s.badges)
    requires r in s.regs && t in s.templates && b == Target(s, r) && b in s1.badges
    requires OnlyBadge(s, s1, r, s1.badges[b]) && s1.regs == s.regs
    requires s1.badges[b].reg == r && s1.badges[b].template == t
    requires s1.templates == s.templates || UsedOnce(s, s1, t)
    ensures FailedShape(s, MarkFailed(s1, r, e), r, e, (s1.badges[b].pdf, s1.badges[b].image))
  {
    CatchFindsTheBadge(s, s1, r, b);
    var after := MarkFailed(s1, r, e);
    assert after.badges == s.badges[b := after.badges[b]];
  }

  ghost predicate FailsBeforeTheFirstWrite(w: World) {
    w.fails == Some(ReadRegistration) || w.fails == Some(ReadTemplate)
    || w.fails == Some(ReadBadge) || w.fails == Some(SaveGenerating)
  }

  /** The try block gets as far as writing. */
  ghost predicate Started(s: State, r: RegId, org: Option<OrgId>, w: World) {
    Accepted(s, r, org) && !FailsBeforeTheFirstWrite(w)
  }

  /** What a try block that started and threw has written. */
  ghost predicate MidShape(s: State, s': State, r: RegId, t: TemplateId, w: World) {
    var b, left := Target(s, r), AddressesLeft(s, r, true, w);
    && r in s.regs && t in s.templates && b in s'.badges && OnlyBadge(s, s', r, s'.badges[b]) && s'.regs == s.regs
    && s'.badges[b] == Badge(r, t, if w.fails == Some(SaveUrls) then Completed else Generating, left.0, left.1, None)
    && (if Counts(w) then UsedOnce(s, s', t) else s'.templates == s.templates)
  }

  lemma WorkShape(s: State, r: RegId, t: TemplateId, w: World)
    requires r in s.regs && t in s.templates
    requires w.fails != Some(ReadRegistration) && w.fails != Some(ReadTemplate)
    ensures
      var (s', res) := Work(s, r, t, w);
      match res
      case Ok(b) => w.fails.None? && DoneShape(s, s', r, b, t, w)
      case Err(e) =>
        w.fails.Some? && e == Thrown(w.fails.value)
        && (if FailsBeforeTheFirstWrite(w) then s' == s else MidShape(s, s', r, t, w))
  {
    assert w.fails.Some? ==> w.fails.value.SaveUrls? || w.fails != Some(SaveUrls);
    var (s', res) := Work(s, r, t, w);
    if !FailsBeforeTheFirstWrite(w) {
      StartShape(s, r, t);
      var (s1, b) := Start(s, r, t);
      assert s'.badges == s.badges[b := s'.badges[b]];
    }
  }

  /** The try block alone: a success, or an exception before or after the first write. */
  lemma TryShape(s: State, r: RegId, org: Option<OrgId>, w: World)
    ensures
      var (s', res) := Try(s, r, org, w);
      && (res.Ok? <==> w.fails.None? && Accepted(s, r, org))
      && match res
         case Ok(b) => DoneShape(s, s', r, b, ChooseTemplate(s, r, org).value, w)
         case Err(e) =>
           e != CatchThrown
           && if Started(s, r, org, w) then MidShape(s, s', r, ChooseTemplate(s, r, org).value, w) else s' == s
  {
    if w.fails != Some(ReadRegistration) && w.fails != Some(ReadTemplate) && Accepted(s, r, org) {
      WorkShape(s, r, ChooseTemplate(s, r, org).value, w);
    }
  }

  lemma CatchAfterMid(s: State, s1: State, r: RegId, t: TemplateId, w: World, e: Error)
    requires RowsOk(s) && OnePerRegistration(s.badges) && MidShape(s, s1, r, t, w)
    ensures FailedShape(s, MarkFailed(s1, r, e), r, e, AddressesLeft(s, r, true, w))
    ensures MarkFailed(s1, r, e).templates == s1.templates
    ensures MarkFailed(s1, r, e).badges[Target(s, r)].template == t
  {
    CatchFindsTheBadge(s, s1, r, Target(s, r));
    FailureAfterTheFirstWrite(s, s1, r, t, Target(s, r), e);
  }

  /**
   One call, whatever fails: it succeeds exactly when nothing throws, the
   registration is visible and a template is found; otherwise the badge of the
   registration, if it existed or was created, ends `Failed`, unless the catch
   block throws too and what the try block wrote stays.
   */
  lemma GenerateShape(s: State, r: RegId, org: Option<OrgId>, w: World)
    requires RowsOk(s) && OnePerRegistration(s.badges)
    ensures
      var (s', res) := Generate(s, r, org, w);
      var started := Started(s, r, org, w);
      && (res.Ok? <==> w.fails.None? && Accepted(s, r, org))
      && (s'.templates != s.templates <==> Counts(w) && Accepted(s, r, org))
      && match res
         case Ok(b) => DoneShape(s, s', r, b, ChooseTemplate(s, r, org).value, w)
         case Err(e) =>
           if w.catchFails then
             e == CatchThrown && if started then MidShape(s, s', r, ChooseTemplate(s, r, org).value, w) else s' == s
           else Untouched(s, s', r) || FailedShape(s, s', r, e, AddressesLeft(s, r, started, w))
  {
    TryShape(s, r, org, w);
    var (s1, res) := Try(s, r, org, w);
    if res.Err? && !w.catchFails {
      if Started(s, r, org, w) {
        CatchAfterMid(s, s1, r, ChooseTemplate(s, r, org).value, w, res.error);
      } else {
        FailureBeforeTheFirstWrite(s, r, res.error);
      }
    }
  }

  // ---------- the invariant is kept ----------

  /** Writing one badge adds at most itself to the completed badges of its template. */
  lemma CompletedAfterWrite(badges: map<BadgeId, Badge>, b: BadgeId, x: Badge, t: TemplateId)
    ensures |CompletedWith(badges[b := x], t)|
            <= |CompletedWith(badges, t)| + if x.status.Completed? && x.template == t then 1 else 0
  {
    var before, after := CompletedWith(badges, t), CompletedWith(badges[b := x], t);
    if x.status.Completed? && x.template == t {
      SubsetIsNoLarger(after, before + {b});
    } else {
      SubsetIsNoLarger(after, before);
    }
  }

  lemma UsageAfterWrite(s: State, s': State, b: BadgeId, x: Badge)
    requires UsageCovers(s) && s'.badges == s.badges[b := x]
    requires UsedOnce(s, s', x.template) || (s'.templates == s.templates && !x.status.Completed?)
    ensures UsageCovers(s')
  {
    forall t | t in s'.templates
      ensures |CompletedWith(s'.badges, t)| <= s'.templates[t].usage
    {
      CompletedAfterWrite(s.badges, b, x, t);
    }
  }

  /** Removing badges keeps the usage counts ahead. */
  lemma UsageAfterRemoval(s: State, s': State)
    requires UsageCovers(s) && s'.templates.Keys <= s.templates.Keys
    requires forall t :: t in s'.templates ==> s'.templates[t] == s.templates[t]
    requires forall b :: b in s'.badges ==> b in s.badges && s'.badges[b] == s.badges[b]
    ensures UsageCovers(s')
  {
    forall t | t in s'.templates
      ensures |CompletedWith(s'.badges, t)| <= s'.templates[t].usage
    {
      SubsetIsNoLarger(CompletedWith(s'.badges, t), CompletedWith(s.badges, t));
    }
  }

  lemma OneBadgeAfterWrite(s: State, s': State, r: RegId, x: Badge)
    requires RowsOk(s) && OnePerRegistration(s.badges) && OnlyBadge(s, s', r, x) && x.reg == r
    ensures OnePerRegistration(s'.badges)
    ensures forall c :: c in s.badges && c != Target(s, r) ==> s.badges[c].reg != r
  {
    forall c | c in s.badges && c != Target(s, r)
      ensures s.badges[c].reg != r
    {
    }
  }

  /** One badge is written, and counted if it is completed. */
  lemma WriteKeepsCore(s: State, s': State, r: RegId, x: Badge)
    requires Core(s) && OnlyBadge(s, s', r, x) && x.reg == r && r in s.regs && s'.regs.Keys == s.regs.Keys
    requires x.template in s.templates
    requires UsedOnce(s, s', x.template) || (s'.templates == s.templates && !x.status.Completed?)
    ensures Core(s')
  {
    OneBadgeAfterWrite(s, s', r, x);
    UsageAfterWrite(s, s', Target(s, r), x);
  }

  lemma FailureKeepsInv(s: State, s': State, r: RegId, e: Error, left: (Option<Url>, Option<Url>))
    requires Core(s) && FailedShape(s, s', r, e, left)
    ensures Core(s') && (Inv(s) ==> Inv(s'))
  {
    var b := Target(s, r);
    WriteKeepsCore(s, s', r, s'.badges[b]);
    OneBadgeAfterWrite(s, s', r, s'.badges[b]);
  }

  lemma SuccessKeepsInv(s: State, s': State, r: RegId, b: BadgeId, t: TemplateId, w: World)
    requires Core(s) && DoneShape(s, s', r, b, t, w)
    ensures Core(s') && (Inv(s) ==> Inv(s'))
  {
    WriteKeepsCore(s, s', r, s'.badges[b]);
    OneBadgeAfterWrite(s, s', r, s'.badges[b]);
  }

  /** A try block that threw midway leaves a generating badge, or a completed one whose addresses are not the registration's. */
  lemma MidKeepsCore(s: State, s': State, r: RegId, t: TemplateId, w: World)
    requires Core(s) && MidShape(s, s', r, t, w)
    ensures Core(s')
    ensures Inv(s) ==> (Inv(s') <==>
      w.fails == Some(SaveUrls) && s.regs[r].pdf == Some(w.pdf) && s.regs[r].image == Some(w.image))
  {
    var b := Target(s, r);
    WriteKeepsCore(s, s', r, s'.badges[b]);
    OneBadgeAfterWrite(s, s', r, s'.badges[b]);
  }

  lemma GenerateKeepsCore(s: State, r: RegId, org: Option<OrgId>, w: World)
    requires Core(s)
    ensures Core(Generate(s, r, org, w).0)
  {
    GenerateShape(s, r, org, w);
    var (s', res) := Generate(s, r, org, w);
    match res
    case Ok(b) => SuccessKeepsInv(s, s', r, b, ChooseTemplate(s, r, org).value, w);
    case Err(e) =>
      if s' != s {
        if w.catchFails {
          MidKeepsCore(s, s', r, ChooseTemplate(s, r, org).value, w);
        } else {
          FailureKeepsInv(s, s', r, e, AddressesLeft(s, r, Started(s, r, org, w), w));
        }
      }
  }

  /** Both blocks throw, after the first write and without the registration already carrying the new addresses. */
  ghost predicate Stuck(s: State, r: RegId, org: Option<OrgId>, w: World) {
    && w.catchFails && w.fails.Some? && Started(s, r, org, w)
    && !(w.fails == Some(SaveUrls) && s.regs[r].pdf == Some(w.pdf) && s.regs[r].image == Some(w.image))
  }

  /**
   A call leaves no badge generating, and completed badges with the addresses
   of their registrations, exactly when it does not get stuck.
   */
  lemma GenerateKeepsInv(s: State, r: RegId, org: Option<OrgId>, w: World)
    requires Inv(s)
    ensures Inv(Generate(s, r, org, w).0) <==> !Stuck(s, r, org, w)
  {
    GenerateShape(s, r, org, w);
    var (s', res) := Generate(s, r, org, w);
    match res
    case Ok(b) => SuccessKeepsInv(s, s', r, b, ChooseTemplate(s, r, org).value, w);
    case Err(e) =>
      if w.catchFails && Started(s, r, org, w) {
        MidKeepsCore(s, s', r, ChooseTemplate(s, r, org).value, w);
      } else if s' != s {
        FailureKeepsInv(s, s', r, e, AddressesLeft(s, r, Started(s, r, org, w), w));
      }
  }

  // ---------- runs keep it ----------

  ghost predicate BulkStuck(s: State, ids: seq<RegId>, org: Option<OrgId>, worlds: seq<World>)
    requires |worlds| == |ids|
  {
    ids != []
    && var k := |ids| - 1;
       BulkStuck(s, ids[..k], org, worlds[..k]) || Stuck(Bulk(s, ids[..k], org, worlds[..k]).0, ids[k], org, worlds[k])
  }

  lemma {:induction false} BulkKeepsInv(s: State, ids: seq<RegId>, org: Option<OrgId>, worlds: seq<World>)
    requires |worlds| == |ids| && Core(s)
    ensures Core(Bulk(s, ids, org, worlds).0)
    ensures Inv(s) && !BulkStuck(s, ids, org, worlds) ==> Inv(Bulk(s, ids, org, worlds).0)
    ensures |Bulk(s, ids, org, worlds).1| == |ids|
  {
    if ids != [] {
      var k := |ids| - 1;
      var s1 := Bulk(s, ids[..k], org, worlds[..k]).0;
      BulkKeepsInv(s, ids[..k], org, worlds[..k]);
      GenerateKeepsCore(s1, ids[k], org, worlds[k]);
      if Inv(s1) {
        GenerateKeepsInv(s1, ids[k], org, worlds[k]);
      }
    }
  }

  /** Badges and templates are only removed, and no badge loses its template. */
  ghost predicate OnlyRemoves(s: State, s': State) {
    && s'.regs == s.regs && s'.next == s.next
    && (forall b :: b in s'.badges ==> b in s.badges && s'.badges[b] == s.badges[b])
    && (forall t :: t in s'.templates ==> t in s.templates && s'.templates[t] == s.templates[t])
    && (forall b :: b in s'.badges ==> s'.badges[b].template in s'.templates)
  }

  lemma RemovalsOnlyRemove(s: State, op: Op)
    requires RowsOk(s) && (op.DeleteOp? || op.ClearOp? || op.DropTemplateOp?)
    ensures OnlyRemoves(s, Step(s, op))
  {
  }

  lemma RemovalsKeepInv(s: State, op: Op)
    requires Core(s) && (op.DeleteOp? || op.ClearOp? || op.DropTemplateOp?)
    ensures Core(Step(s, op)) && (Inv(s) ==> Inv(Step(s, op)))
  {
    RemovalsOnlyRemove(s, op);
    UsageAfterRemoval(s, Step(s, op));
  }

  ghost predicate StuckStep(s: State, op: Op)
    requires ValidOp(op)
  {
    match op
    case GenerateOp(r, scope, w) => Stuck(s, r, scope, w)
    case BulkOp(ids, scope, worlds) => BulkStuck(s, ids, scope, worlds)
    case _ => false
  }

  lemma StepKeepsInv(s: State, op: Op)
    requires Core(s) && ValidOp(op)
    ensures Core(Step(s, op))
    ensures Inv(s) && !StuckStep(s, op) ==> Inv(Step(s, op))
  {
    match op
    case GenerateOp(r, scope, w) =>
      GenerateKeepsCore(s, r, scope, w);
      if Inv(s) {
        GenerateKeepsInv(s, r, scope, w);
      }
    case BulkOp(ids, scope, worlds) => BulkKeepsInv(s, ids, scope, worlds);
    case _ => RemovalsKeepInv(s, op);
  }

  ghost predicate NeverStuck(s: State, ops: seq<Op>)
    requires forall op :: op in ops ==> ValidOp(op)
  {
    ops == [] || (NeverStuck(s, ops[..|ops| - 1]) && !StuckStep(Run(s, ops[..|ops| - 1]), ops[|ops| - 1]))
  }

  /**
   Wherever the calls of a run throw: there is at most one badge per
   registration, and no template has more completed badges than its usage count.
   Unless a call gets stuck, no badge is left generating either, and completed
   badges and their registrations agree on the addresses.
   */
  lemma {:induction false} RunKeepsInv(s: State, ops: seq<Op>)
    requires Core(s) && forall op :: op in ops ==> ValidOp(op)
    ensures Core(Run(s, ops))
    ensures Inv(s) && NeverStuck(s, ops) ==> Inv(Run(s, ops))
  {
    if ops != [] {
      RunKeepsInv(s, ops[..|ops| - 1]);
      StepKeepsInv(Run(s, ops[..|ops| - 1]), ops[|ops| - 1]);
    }
  }

  ghost predicate CatchWorks(op: Op) {
    match op
    case GenerateOp(_, _, w) => !w.catchFails
    case BulkOp(_, _, worlds) => forall w :: w in worlds ==> !w.catchFails
    case _ => true
  }

  lemma {:induction false} BulkWithWorkingCatch(s: State, ids: seq<RegId>, org: Option<OrgId>, worlds: seq<World>)
    requires |worlds| == |ids| && forall w :: w in worlds ==> !w.catchFails
    ensures !BulkStuck(s, ids, org, worlds)
  {
    if ids != [] {
      var front := worlds[..|ids| - 1];
      assert forall w :: w in front ==> w in worlds;
      BulkWithWorkingCatch(s, ids[..|ids| - 1], org, front);
    }
  }

  lemma WorkingCatchIsNotStuck(s: State, op: Op)
    requires ValidOp(op) && CatchWorks(op)
    ensures !StuckStep(s, op)
  {
    if op.BulkOp? {
      BulkWithWorkingCatch(s, op.ids, op.scope, op.worlds);
    }
  }

  /** Only a catch block that throws can get a run stuck. */
  lemma {:induction false} WorkingCatchNeverSticks(s: State, ops: seq<Op>)
    requires (forall op :: op in ops ==> ValidOp(op)) && forall op :: op in ops ==> CatchWorks(op)
    ensures NeverStuck(s, ops)
  {
    if ops != [] {
      var front := ops[..|ops| - 1];
      assert forall op :: op in front ==> op in ops;
      WorkingCatchNeverSticks(s, front);
      WorkingCatchIsNotStuck(Run(s, front), ops[|ops| - 1]);
    }
  }

  lemma NoBadgeSatisfiesInv(s: State)
    requires s.badges == map[]
    ensures Inv(s)
  {
    forall t | t in s.templates
      ensures |CompletedWith(s.badges, t)| <= s.templates[t].usage
    {
      assert CompletedWith(s.badges, t) == {};
    }
  }

  // ---------- what one call means ----------

  /** The badge of a registration, as a value. */
  ghost function Row(s: State, r: RegId): Option<Badge> {
    var b := BadgeOf(s.badges, r, s.next);
    if b.Some? then Some(s.badges[b.value]) else None
  }

  ghost predicate HasStatus(s: State, r: RegId, status: Status) {
    Row(s, r).Some? && Row(s, r).value.status == status
  }

  lemma RowIs(s: State, r: RegId, b: BadgeId)
    requires RowsOk(s) && OnePerRegistration(s.badges) && b in s.badges && s.badges[b].reg == r
    ensures Row(s, r) == Some(s.badges[b])
  {
    BadgeOfIsUnique(s.badges, r, s.next, b);
  }

  lemma RowOfAnother(s: State, s': State, r: RegId, x: Badge, other: RegId)
    requires RowsOk(s) && OnePerRegistration(s.badges) && RowsOk(s') && OnePerRegistration(s'.badges)
    requires OnlyBadge(s, s', r, x) && x.reg == r && other != r
    ensures Row(s', other) == Row(s, other)
  {
    var before := BadgeOf(s.badges, other, s.next);
    if before.Some? {
      RowIs(s', other, before.value);
    }
  }

  /** A call leaves the badge and the addresses of every other registration as they were. */
  lemma OthersAreUntouched(s: State, r: RegId, org: Option<OrgId>, w: World, other: RegId)
    requires Core(s) && other != r
    ensures Row(Generate(s, r, org, w).0, other) == Row(s, other)
    ensures other in s.regs ==> other in Generate(s, r, org, w).0.regs
                                && Generate(s, r, org, w).0.regs[other] == s.regs[other]
  {
    GenerateShape(s, r, org, w);
    GenerateKeepsCore(s, r, org, w);
    var s' := Generate(s, r, org, w).0;
    if s' != s {
      RowOfAnother(s, s', r, s'.badges[Target(s, r)], other);
    }
  }

  /** A call that fails can leave a completed badge only if its catch block throws too. */
  ghost predicate LeavesCompleted(s: State, r: RegId, org: Option<OrgId>, w: World) {
    w.catchFails && if Started(s, r, org, w) then w.fails == Some(SaveUrls) else HasStatus(s, r, Completed)
  }

  lemma RowAfterCall(s: State, r: RegId, org: Option<OrgId>, w: World)
    requires Core(s)
    ensures
      var (s', res) := Generate(s, r, org, w);
      s' == s || Row(s', r) == (if Target(s, r) in s'.badges then Some(s'.badges[Target(s, r)]) else None)
  {
    GenerateShape(s, r, org, w);
    GenerateKeepsCore(s, r, org, w);
    var s' := Generate(s, r, org, w).0;
    if s' != s {
      RowIs(s', r, Target(s, r));
    }
  }

  /**
   After a call the badge is completed exactly if the call succeeded, with the
   new addresses, or its catch block left a completed badge behind; a failed
   call leaves the registration alone.
   */
  lemma CompletedExactlyOnSuccess(s: State, r: RegId, org: Option<OrgId>, w: World)
    requires Core(s)
    ensures
      var (s', res) := Generate(s, r, org, w);
      && (HasStatus(s', r, Completed) <==> res.Ok? || LeavesCompleted(s, r, org, w))
      && (res.Ok? ==> Row(s', r).value.pdf == Some(w.pdf) && Row(s', r).value.image == Some(w.image)
                      && Row(s', r).value.template == ChooseTemplate(s, r, org).value)
      && (res.Err? && !w.catchFails && Row(s', r).Some? ==>
            Row(s', r).value.status == Failed && Row(s', r).value.error == Some(res.error))
      && (res.Err? ==> s'.regs == s.regs)
  {
    RowAfterCall(s, r, org, w);
    GenerateShape(s, r, org, w);
  }

  /** Whatever earlier calls left behind, a call whose catch block works leaves its own registration in order. */
  lemma NextCallRepairs(s: State, r: RegId, org: Option<OrgId>, w: World)
    requires Core(s) && !w.catchFails
    ensures
      var s' := Generate(s, r, org, w).0;
      && !HasStatus(s', r, Generating)
      && (HasStatus(s', r, Completed) ==>
            r in s'.regs && s'.regs[r].pdf == Row(s', r).value.pdf == Some(w.pdf)
            && s'.regs[r].image == Row(s', r).value.image == Some(w.image))
  {
    RowAfterCall(s, r, org, w);
    GenerateShape(s, r, org, w);
    CompletedExactlyOnSuccess(s, r, org, w);
  }

  // ---------- calls for another organisation ----------

  /**
   The catch block does not look at the organisation: a call refused because
   the registration belongs to another one still turns its badge into a failed
   one.
   */
  lemma ForeignCallFailsTheBadge(s: State, r: RegId, org: OrgId, w: World)
    requires Core(s) && r in s.regs && s.regs[r].org != org && Row(s, r).Some?
    requires w.fails != Some(ReadRegistration) && !w.catchFails
    ensures
      var (s', res) := Generate(s, r, Some(org), w);
      && res == Err(RegistrationNotFound)
      && Row(s', r) == Some(Row(s, r).value.(status := Failed, error := Some(RegistrationNotFound)))
      && s'.regs == s.regs && s'.templates == s.templates
  {
    var s' := Generate(s, r, Some(org), w).0;
    GenerateKeepsCore(s, r, Some(org), w);
    RowIs(s', r, Target(s, r));
  }

  /** The error a refused call would write on the badge. */
  function RefusalOf(w: World): Error {
    if w.fails == Some(ReadRegistration) then Thrown(ReadRegistration) else RegistrationNotFound
  }

  /**
   A call for a registration that its caller may not see leaves the tables alone
   exactly when its catch block throws, or there is no badge, or the badge
   already says that it failed for this reason.
   */
  lemma ForeignCallChangesExactly(s: State, r: RegId, org: OrgId, w: World)
    requires !Visible(s, r, Some(org))
    ensures
      Generate(s, r, Some(org), w).0 == s <==>
        || w.catchFails || Row(s, r).None?
        || (Row(s, r).value.status == Failed && Row(s, r).value.error == Some(RefusalOf(w)))
  {
    var s', b := Generate(s, r, Some(org), w).0, BadgeOf(s.badges, r, s.next);
    assert Try(s, r, Some(org), w) == (s, Err(RefusalOf(w)));
    if !w.catchFails && b.Some? {
      var x := s.badges[b.value];
      assert s'.badges[b.value] == x.(status := Failed, error := Some(RefusalOf(w)));
      if x.status == Failed && x.error == Some(RefusalOf(w)) {
        assert s'.badges == s.badges;
      }
    }
  }

  /** Deleting the badges of a registration touches no other, and the next call starts from nothing. */
  lemma ClearedRegistration(s: State, r: RegId, other: RegId)
    requires Core(s)
    ensures Row(Clear(s, r), r) == None
    ensures other != r ==> Row(Clear(s, r), other) == Row(s, other)
  {
    RemovalsKeepInv(s, ClearOp(r));
    var b := BadgeOf(s.badges, other, s.next);
    if b.Some? && other != r {
      RowIs(Clear(s, r), other, b.value);
    }
  }

  // ---------- the template of an event ----------

  /**
   Without an active template assigned to the event, an active default is used
   if the organisation has one, otherwise its oldest active template.
   */
  lemma FallBackPrefersTheDefault(s: State, e: EventId, org: OrgId, t: TemplateId)
    requires !(e in s.settings && s.settings[e] in s.templates && s.templates[s.settings[e]].active)
    requires TemplateForEvent(s.templates, s.settings, s.nextTemplate, e, org) == Some(t)
    ensures Eligible(s.templates, org, false, t)
    ensures (exists i: TemplateId :: i < s.nextTemplate && Eligible(s.templates, org, true, i)) ==> s.templates[t].isDefault
    ensures !s.templates[t].isDefault ==> forall i: TemplateId :: i < t ==> !Eligible(s.templates, org, false, i)
  {
  }

  // ---------- bulk generation ----------

  /** The states that a bulk call goes through, one before each registration and one at the end. */
  ghost predicate IsTrace(s: State, ids: seq<RegId>, org: Option<OrgId>, worlds: seq<World>, st: seq<State>)
    requires |worlds| == |ids|
  {
    && |st| == |ids| + 1 && st[0] == s
    && forall i :: 0 <= i < |ids| ==> st[i + 1] == Generate(st[i], ids[i], org, worlds[i]).0
  }

  /** A bulk call ends where its trace ends, with one report line for each call of the trace. */
  lemma {:induction false} BulkFollowsTheTrace(s: State, ids: seq<RegId>, org: Option<OrgId>, worlds: seq<World>,
                                               st: seq<State>)
    requires |worlds| == |ids| && IsTrace(s, ids, org, worlds, st)
    ensures
      var (s', lines) := Bulk(s, ids, org, worlds);
      && s' == st[|ids|] && |lines| == |ids|
      && forall i :: 0 <= i < |ids| ==> lines[i] == (ids[i], Generate(st[i], ids[i], org, worlds[i]).1.Ok?)
  {
    if ids != [] {
      var k := |ids| - 1;
      BulkFollowsTheTrace(s, ids[..k], org, worlds[..k], st[..k + 1]);
    }
  }

  lemma TraceStep(s: State, ids: seq<RegId>, org: Option<OrgId>, worlds: seq<World>, st: seq<State>, i: nat)
    requires |worlds| == |ids| && IsTrace(s, ids, org, worlds, st) && i < |ids|
    ensures st[i + 1] == Generate(st[i], ids[i], org, worlds[i]).0
  {
  }

  lemma TraceGrows(s: State, ids: seq<RegId>, org: Option<OrgId>, worlds: seq<World>, front: seq<State>, last: State)
    requires |worlds| == |ids| > 0 && IsTrace(s, ids[..|ids| - 1], org, worlds[..|ids| - 1], front)
    requires last == Generate(front[|ids| - 1], ids[|ids| - 1], org, worlds[|ids| - 1]).0
    ensures IsTrace(s, ids, org, worlds, front + [last])
  {
    var st, k := front + [last], |ids| - 1;
    assert st[0] == s && st[k] == front[k] && st[k + 1] == last;
    forall i | 0 <= i < k
      ensures st[i + 1] == Generate(st[i], ids[i], org, worlds[i]).0
    {
      TraceStep(s, ids[..k], org, worlds[..k], front, i);
      assert st[i] == front[i] && st[i + 1] == front[i + 1];
    }
  }

  lemma {:induction false} TraceExists(s: State, ids: seq<RegId>, org: Option<OrgId>, worlds: seq<World>)
    returns (st: seq<State>)
    requires |worlds| == |ids|
    ensures IsTrace(s, ids, org, worlds, st)
  {
    if ids == [] {
      st := [s];
    } else {
      var k := |ids| - 1;
      var front := TraceExists(s, ids[..k], org, worlds[..k]);
      var last := Generate(front[k], ids[k], org, worlds[k]).0;
      TraceGrows(s, ids, org, worlds, front, last);
      st := front + [last];
    }
  }

  lemma {:induction false} TraceKeepsCore(s: State, ids: seq<RegId>, org: Option<OrgId>, worlds: seq<World>,
                                          st: seq<State>, i: nat)
    requires |worlds| == |ids| && IsTrace(s, ids, org, worlds, st) && Core(s) && i <= |ids|
    ensures Core(st[i])
  {
    if i > 0 {
      TraceKeepsCore(s, ids, org, worlds, st, i - 1);
      GenerateKeepsCore(st[i - 1], ids[i - 1], org, worlds[i - 1]);
    }
  }

  /** What a line says of a call made in the state `at` is right in the state `s'`. */
  ghost predicate LineIsRight(at: State, id: RegId, org: Option<OrgId>, w: World, s': State, line: (RegId, bool)) {
    line.0 == id && (HasStatus(s', id, Completed) <==> line.1 || LeavesCompleted(at, id, org, w))
  }

  lemma OwnLineIsRight(at: State, id: RegId, org: Option<OrgId>, w: World)
    requires Core(at)
    ensures var (s', res) := Generate(at, id, org, w); LineIsRight(at, id, org, w, s', (id, res.Ok?))
  {
    CompletedExactlyOnSuccess(at, id, org, w);
  }

  /** A later call, for another registration, leaves a line right. */
  lemma LineStaysRight(at: State, id: RegId, org: Option<OrgId>, w: World, line: (RegId, bool),
                       s1: State, other: RegId, w': World)
    requires Core(s1) && other != id && LineIsRight(at, id, org, w, s1, line)
    ensures LineIsRight(at, id, org, w, Generate(s1, other, org, w').0, line)
  {
    OthersAreUntouched(s1, other, org, w', id);
  }

  lemma {:induction false} RightFromThenOn(s: State, ids: seq<RegId>, org: Option<OrgId>, worlds: seq<World>,
                                           st: seq<State>, i: nat, m: nat)
    requires |worlds| == |ids| && IsTrace(s, ids, org, worlds, st) && Core(s) && Distinct(ids) && i < m <= |ids|
    ensures LineIsRight(st[i], ids[i], org, worlds[i], st[m], (ids[i], Generate(st[i], ids[i], org, worlds[i]).1.Ok?))
  {
    TraceKeepsCore(s, ids, org, worlds, st, m - 1);
    if m == i + 1 {
      OwnLineIsRight(st[i], ids[i], org, worlds[i]);
    } else {
      RightFromThenOn(s, ids, org, worlds, st, i, m - 1);
      LineStaysRight(st[i], ids[i], org, worlds[i], (ids[i], Generate(st[i], ids[i], org, worlds[i]).1.Ok?),
                     st[m - 1], ids[m - 1], worlds[m - 1]);
    }
  }

  /**
   The report of a bulk call is right: a badge is completed when the call ends
   exactly if its line says success, or its own catch block threw and left a
   completed badge behind.
   */
  lemma ReportIsAccurate(s: State, ids: seq<RegId>, org: Option<OrgId>, worlds: seq<World>, st: seq<State>, i: nat)
    requires |worlds| == |ids| && IsTrace(s, ids, org, worlds, st) && Core(s) && Distinct(ids) && i < |ids|
    ensures
      var (s', lines) := Bulk(s, ids, org, worlds);
      |lines| == |ids| && LineIsRight(st[i], ids[i], org, worlds[i], s', lines[i])
  {
    BulkFollowsTheTrace(s, ids, org, worlds, st);
    RightFromThenOn(s, ids, org, worlds, st, i, |ids|);
  }

  lemma {:induction false} TalliesAddUp(lines: seq<(RegId, bool)>)
    ensures Tally(lines, true) + Tally(lines, false) == |lines|
  {
    if lines != [] {
      TalliesAddUp(lines[..|lines| - 1]);
    }
  }

  /** The positions of the lines saying `ok`. */
  ghost function LinesSaying(lines: seq<(RegId, bool)>, ok: bool): set<nat> {
    set i: nat | i < |lines| && lines[i].1 == ok
  }

  /** The counters of the report count its lines. */
  lemma {:induction false} TalliesCountTheLines(lines: seq<(RegId, bool)>, ok: bool)
    ensures Tally(lines, ok) == |LinesSaying(lines, ok)|
  {
    if lines != [] {
      var front, k := lines[..|lines| - 1], |lines| - 1;
      TalliesCountTheLines(front, ok);
      assert k !in LinesSaying(front, ok);
      if lines[k].1 == ok {
        assert LinesSaying(lines, ok) == LinesSaying(front, ok) + {k};
      } else {
        assert LinesSaying(lines, ok) == LinesSaying(front, ok);
      }
    }
  }
}
