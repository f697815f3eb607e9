/**
 Tags of events, with the number of uses cached on each tag
 (src/modules/tags/tags.service.ts).

 `updateEventTags` runs in one transaction: a failed statement restores the
 tables.  Ids are numbered in creation order.
 */
module Tags {
  import opened Collections
  import opened Wrappers
  import opened Text

  type OrgId = nat
  type EventId = nat
  type TagId = nat

  /** A colour, or the null one. */
  type Color = Option<string>

  datatype Tag = Tag(org: OrgId, name: string, color: Color, usage: int)

  /** Primary key of `event_tags`. */
  type Key = (EventId, TagId)

  /** `rows` gives the organisation column of each row of `event_tags`. */
  datatype State = State(
    events: map<EventId, OrgId>, tags: map<TagId, Tag>, rows: map<Key, OrgId>, next: TagId)

  // ---------- names ----------

  /** Trimmed, without empty names. */
  function Cleaned(names: seq<string>): seq<string> {
    if names == [] then []
    else (if Trim(names[0]) == "" then [] else [Trim(names[0])]) + Cleaned(names[1..])
  }

  /** Keeps the first occurrence of each name, as a JavaScript `Set` does. */
  function Dedup(names: seq<string>): (r: seq<string>)
    ensures forall n :: n in r <==> n in names
    ensures Distinct(r)
  {
    if names == [] then []
    else
      var front := Dedup(names[..|names| - 1]);
      var last := names[|names| - 1];
      assert names == names[..|names| - 1] + [last];
      if last in front then front else front + [last]
  }

  /** The set of names that a list stands for. */
  function NameSet(names: seq<string>): set<string> {
    set n | n in names && Trim(n) != "" :: Trim(n)
  }

  lemma {:induction false} CleanedIsTheNameSet(names: seq<string>)
    ensures forall n :: n in Cleaned(names) <==> n in NameSet(names)
  {
    if names != [] {
      CleanedIsTheNameSet(names[1..]);
      assert forall n :: n in names <==> n == names[0] || n in names[1..];
    }
  }

  // ---------- what the tables say ----------

  function FindTag(tags: map<TagId, Tag>, org: OrgId, name: string, below: TagId): (r: Option<TagId>)
    ensures r.Some? ==> r.value in tags && tags[r.value].org == org && tags[r.value].name == name
    ensures r.None? ==> forall t :: t < below && t in tags ==> !(tags[t].org == org && tags[t].name == name)
  {
    if below == 0 then None
    else if below - 1 in tags && tags[below - 1].org == org && tags[below - 1].name == name then Some(below - 1)
    else FindTag(tags, org, name, below - 1)
  }

  /** The rows that use a tag. */
  ghost function RowsOf(rows: map<Key, OrgId>, t: TagId): set<Key> {
    set k | k in rows && k.1 == t
  }

  /** The names of the tags of an event. */
  ghost function NamesOf(s: State, e: EventId): set<string> {
    set k | k in s.rows && k.0 == e && k.1 in s.tags :: s.tags[k.1].name
  }

  // ---------- invariants ----------

  ghost predicate NamesUnique(tags: map<TagId, Tag>) {
    forall t, u :: (t in tags && u in tags && tags[t].org == tags[u].org && tags[t].name == tags[u].name) ==> t == u
  }

  /** A row joins an event and a tag of the same organisation. */
  ghost predicate RowsOk(s: State) {
    forall k :: k in s.rows ==>
      && k.0 in s.events && s.events[k.0] == s.rows[k]
      && k.1 in s.tags && s.tags[k.1].org == s.rows[k]
  }

  /** The cached number of uses is the number of rows, plus one for each pending decrement. */
  ghost predicate CountsUpTo(s: State, todo: set<TagId>) {
    forall t :: t in s.tags ==> s.tags[t].usage == |RowsOf(s.rows, t)| + if t in todo then 1 else 0
  }

  ghost predicate Shape(s: State) {
    && NamesUnique(s.tags) && RowsOk(s)
    && (forall t :: t in s.tags ==> t < s.next)
  }

  ghost predicate Inv(s: State) {
    Shape(s) && CountsUpTo(s, {})
  }

  // ---------- what the operations do to the tables ----------

  /** Existing tags keep their organisation, name and colour; new ones are named in `names`. */
  ghost predicate TagsGrow(s: State, s': State, org: OrgId, names: set<string>) {
    && (forall t :: t in s.tags ==> t in s'.tags && s'.tags[t] == s.tags[t].(usage := s'.tags[t].usage))
    && (forall t :: t in s'.tags && t !in s.tags ==>
          s'.tags[t].org == org && s'.tags[t].name in names && s'.tags[t].color == None)
  }

  ghost predicate OthersUntouched(rows: map<Key, OrgId>, rows': map<Key, OrgId>, e: EventId) {
    forall k: Key :: k.0 != e ==> ((k in rows <==> k in rows') && (k in rows ==> rows'[k] == rows[k]))
  }

  /** The event now has the tags `names`, new tags are named in `allowed`, and nothing else changed. */
  ghost predicate Updated(s: State, s': State, e: EventId, org: OrgId, names: set<string>, allowed: set<string>) {
    && Inv(s')
    && s'.events == s.events
    && NamesOf(s', e) == names
    && OthersUntouched(s.rows, s'.rows, e)
    && TagsGrow(s, s', org, allowed)
  }

  /** The transaction commits when the event is in the organisation, or nothing has to be inserted. */
  predicate Commits(s: State, e: EventId, org: OrgId, names: seq<string>) {
    (e in s.events && s.events[e] == org) || NameSet(names) == {}
  }

  ghost predicate UpdateStep(s: State, s': State, e: EventId, org: OrgId, names: seq<string>) {
    if e in s.events && s.events[e] == org then
      Updated(s, s', e, org, NameSet(names), NameSet(names))
    else s' == s
  }

  /** Creates or recolours a tag by hand; a request without a colour leaves an existing tag as it is. */
  function CreateTag(s: State, org: OrgId, name: string, color: Option<Color>): State {
    match FindTag(s.tags, org, Trim(name), s.next)
    case Some(t) => s.(tags := s.tags[t := s.tags[t].(color := if color.Some? then color.value else s.tags[t].color)])
    case None =>
      s.(tags := s.tags[s.next := Tag(org, Trim(name), if color.Some? then color.value else None, 0)], next := s.next + 1)
  }

  /** One turn of the second loop: upserts the tag, then inserts the row. */
  function AddName(s: State, e: EventId, org: OrgId, name: string): State {
    match FindTag(s.tags, org, name, s.next)
    case Some(t) =>
      s.(tags := s.tags[t := s.tags[t].(usage := s.tags[t].usage + 1)], rows := s.rows[(e, t) := org])
    case None =>
      s.(tags := s.tags[s.next := Tag(org, name, None, 1)], rows := s.rows[(e, s.next) := org], next := s.next + 1)
  }

  /** The rows of an event whose tag is no longer wanted are deleted. */
  function DropRows(rows: map<Key, OrgId>, e: EventId, remove: set<TagId>): map<Key, OrgId> {
    map k | k in rows && !(k.0 == e && k.1 in remove) :: rows[k]
  }

  // ---------- proofs about single statements ----------

  lemma CountAfterDrop(rows: map<Key, OrgId>, e: EventId, remove: set<TagId>, t: TagId)
    requires forall u :: u in remove ==> (e, u) in rows
    ensures |RowsOf(rows, t)| == |RowsOf(DropRows(rows, e, remove), t)| + if t in remove then 1 else 0
  {
    if t in remove {
      assert RowsOf(rows, t) == RowsOf(DropRows(rows, e, remove), t) + {(e, t)};
    } else {
      assert RowsOf(rows, t) == RowsOf(DropRows(rows, e, remove), t);
    }
  }

  lemma CountAfterInsert(rows: map<Key, OrgId>, k: Key, org: OrgId, t: TagId)
    requires k !in rows
    ensures |RowsOf(rows[k := org], t)| == |RowsOf(rows, t)| + if t == k.1 then 1 else 0
  {
    if t == k.1 {
      assert RowsOf(rows[k := org], t) == RowsOf(rows, t) + {k};
    } else {
      assert RowsOf(rows[k := org], t) == RowsOf(rows, t);
    }
  }

  /** The tag that a turn of the second loop uses. */
  function Target(s: State, org: OrgId, name: string): TagId {
    var hit := FindTag(s.tags, org, name, s.next);
    if hit.Some? then hit.value else s.next
  }

  lemma AddNameKeepsCounts(s: State, e: EventId, org: OrgId, name: string)
    requires RowsOk(s) && CountsUpTo(s, {}) && s.next !in s.tags
    requires (e, Target(s, org, name)) !in s.rows
    ensures CountsUpTo(AddName(s, e, org, name), {})
  {
    var s' := AddName(s, e, org, name);
    forall u | u in s'.tags ensures s'.tags[u].usage == |RowsOf(s'.rows, u)| {
      CountAfterInsert(s.rows, (e, Target(s, org, name)), org, u);
      if u !in s.tags { assert RowsOf(s.rows, u) == {}; }
    }
  }

  lemma AddNameKeepsNamesUnique(s: State, e: EventId, org: OrgId, name: string)
    requires NamesUnique(s.tags) && forall t :: t in s.tags ==> t < s.next
    ensures NamesUnique(AddName(s, e, org, name).tags)
  {
  }

  lemma AddNameKeepsRows(s: State, e: EventId, org: OrgId, name: string)
    requires RowsOk(s) && e in s.events && s.events[e] == org && s.next !in s.tags
    ensures RowsOk(AddName(s, e, org, name))
    ensures TagsGrow(s, AddName(s, e, org, name), org, {name})
  {
  }

  lemma AddNameNames(s: State, e: EventId, org: OrgId, name: string)
    requires RowsOk(s) && s.next !in s.tags
    ensures NamesOf(AddName(s, e, org, name), e) == NamesOf(s, e) + {name}
  {
    var s', k := AddName(s, e, org, name), (e, Target(s, org, name));
    assert k in s'.rows && s'.tags[k.1].name == name;
    forall n | n in NamesOf(s, e) ensures n in NamesOf(s', e) {
      var x :| x in s.rows && x.0 == e && x.1 in s.tags && s.tags[x.1].name == n;
      assert x in s'.rows && s'.tags[x.1].name == n;
    }
    forall n | n in NamesOf(s', e) ensures n in NamesOf(s, e) + {name} {
      var x :| x in s'.rows && x.0 == e && x.1 in s'.tags && s'.tags[x.1].name == n;
      assert x == k || (x in s.rows && s.tags[x.1].name == n);
    }
  }

  lemma AddingAName(s: State, e: EventId, org: OrgId, name: string)
    requires Inv(s) && e in s.events && s.events[e] == org && name !in NamesOf(s, e)
    ensures var s' := AddName(s, e, org, name);
      && Inv(s') && s'.events == s.events
      && NamesOf(s', e) == NamesOf(s, e) + {name}
      && OthersUntouched(s.rows, s'.rows, e)
      && TagsGrow(s, s', org, {name})
  {
    assert s.next !in s.tags;
    assert (e, Target(s, org, name)) !in s.rows;
    AddNameKeepsCounts(s, e, org, name);
    AddNameKeepsNamesUnique(s, e, org, name);
    AddNameKeepsRows(s, e, org, name);
    AddNameNames(s, e, org, name);
  }

  lemma CreateTagKeepsNamesUnique(s: State, org: OrgId, name: string, color: Option<Color>)
    requires NamesUnique(s.tags) && forall t :: t in s.tags ==> t < s.next
    ensures NamesUnique(CreateTag(s, org, name, color).tags)
  {
  }

  lemma CreateTagKeepsRows(s: State, org: OrgId, name: string, color: Option<Color>)
    requires RowsOk(s) && forall t :: t in s.tags ==> t < s.next
    ensures RowsOk(CreateTag(s, org, name, color))
    ensures forall t :: t in CreateTag(s, org, name, color).tags ==> t < CreateTag(s, org, name, color).next
  {
  }

  lemma CreateTagKeepsCounts(s: State, org: OrgId, name: string, color: Option<Color>)
    requires RowsOk(s) && CountsUpTo(s, {}) && s.next !in s.tags
    ensures CountsUpTo(CreateTag(s, org, name, color), {})
  {
    assert RowsOf(s.rows, s.next) == {};
  }

  lemma CreatingATagKeepsInv(s: State, org: OrgId, name: string, color: Option<Color>)
    requires Inv(s)
    ensures Inv(CreateTag(s, org, name, color))
  {
    CreateTagKeepsNamesUnique(s, org, name, color);
    CreateTagKeepsRows(s, org, name, color);
    CreateTagKeepsCounts(s, org, name, color);
  }

  /** The names that stay on an event when the tags `remove` are taken off. */
  ghost function NamesWithout(s: State, e: EventId, remove: set<TagId>): set<string> {
    set k | k in s.rows && k.0 == e && k.1 in s.tags && k.1 !in remove :: s.tags[k.1].name
  }

  /** The tags `done` have been decremented. */
  function Decrement(tags: map<TagId, Tag>, done: set<TagId>): map<TagId, Tag> {
    map t | t in tags :: if t in done then tags[t].(usage := tags[t].usage - 1) else tags[t]
  }

  /** `updateEventTags` up to the first insertion. */
  function Remove(s: State, e: EventId, remove: set<TagId>): State {
    s.(rows := DropRows(s.rows, e, remove), tags := Decrement(s.tags, remove))
  }

  /** The second loop. */
  function AddNames(s: State, e: EventId, org: OrgId, names: seq<string>): State
    decreases |names|
  {
    if names == [] then s
    else AddName(AddNames(s, e, org, names[..|names| - 1]), e, org, names[|names| - 1])
  }

  lemma RemoveKeepsCounts(s: State, e: EventId, remove: set<TagId>)
    requires CountsUpTo(s, {}) && forall t :: t in remove ==> (e, t) in s.rows
    ensures CountsUpTo(Remove(s, e, remove), {})
  {
    forall t | t in s.tags { CountAfterDrop(s.rows, e, remove, t); }
  }

  lemma RemoveNames(s: State, e: EventId, remove: set<TagId>)
    ensures NamesOf(Remove(s, e, remove), e) == NamesWithout(s, e, remove)
  {
    var s' := Remove(s, e, remove);
    forall n | n in NamesWithout(s, e, remove) ensures n in NamesOf(s', e) {
      var k :| k in s.rows && k.0 == e && k.1 in s.tags && k.1 !in remove && s.tags[k.1].name == n;
      assert k in s'.rows;
    }
    forall n | n in NamesOf(s', e) ensures n in NamesWithout(s, e, remove) {
      var k :| k in s'.rows && k.0 == e && k.1 in s'.tags && s'.tags[k.1].name == n;
      assert k in s.rows && k.1 !in remove;
    }
  }

  /** Deleting rows of an event and decrementing their tags keeps the counts. */
  lemma RemovingTags(s: State, e: EventId, org: OrgId, remove: set<TagId>, allowed: set<string>)
    requires Inv(s) && forall t :: t in remove ==> (e, t) in s.rows
    ensures Updated(s, Remove(s, e, remove), e, org, NamesWithout(s, e, remove), allowed)
  {
    RemoveKeepsCounts(s, e, remove);
    RemoveNames(s, e, remove);
  }

  lemma GrowsTransitively(s0: State, s1: State, s2: State, org: OrgId, a: set<string>, b: set<string>)
    requires TagsGrow(s0, s1, org, a) && TagsGrow(s1, s2, org, b) && b <= a
    ensures TagsGrow(s0, s2, org, a)
  {
  }

  /** One more name on an update in progress. */
  lemma UpdatedThenAdded(s: State, s1: State, e: EventId, org: OrgId, names: set<string>, allowed: set<string>, name: string)
    requires Updated(s, s1, e, org, names, allowed)
    requires e in s.events && s.events[e] == org && name !in names && name in allowed
    ensures Updated(s, AddName(s1, e, org, name), e, org, names + {name}, allowed)
  {
    AddingAName(s1, e, org, name);
    GrowsTransitively(s, s1, AddName(s1, e, org, name), org, allowed, {name});
  }

  function Elements(names: seq<string>): set<string> {
    set n | n in names
  }

  lemma ElementsAppend(names: seq<string>, last: string, have: set<string>)
    ensures have + Elements(names + [last]) == (have + Elements(names)) + {last}
  {
    assert forall n :: n in names + [last] <==> n in names || n == last;
  }

  lemma {:induction false} AddingNames(s: State, s1: State, e: EventId, org: OrgId, have: set<string>,
                                       allowed: set<string>, names: seq<string>)
    requires Updated(s, s1, e, org, have, allowed) && e in s.events && s.events[e] == org
    requires Distinct(names) && Elements(names) !! have && Elements(names) <= allowed
    ensures Updated(s, AddNames(s1, e, org, names), e, org, have + Elements(names), allowed)
    decreases |names|
  {
    if names == [] {
      assert have + Elements(names) == have;
    } else {
      var front, last := names[..|names| - 1], names[|names| - 1];
      assert names == front + [last];
      DistinctAppend(front, last);
      ElementsAppend(front, last, have);
      assert last in Elements(names) && Elements(front) <= Elements(names);
      AddingNames(s, s1, e, org, have, allowed, front);
      UpdatedThenAdded(s, AddNames(s1, e, org, front), e, org, have + Elements(front), allowed, last);
    }
  }

  /** The names of a list that are not in a set, in order. */
  function Missing(names: seq<string>, have: set<string>): (r: seq<string>)
    ensures forall n :: n in r <==> n in names && n !in have
    ensures Distinct(names) ==> Distinct(r)
  {
    if names == [] then []
    else
      var rest := Missing(names[1..], have);
      assert names == names[..1] + names[1..];
      if names[0] in have then rest else [names[0]] + rest
  }

  /** The tags that the query for the event and organisation returns. */
  function TagsOf(rows: map<Key, OrgId>, e: EventId, org: OrgId): set<TagId> {
    set k | k in rows && k.0 == e && rows[k] == org :: k.1
  }

  /** Kept and added names make up the wanted list; an event of another organisation has no row to look at. */
  lemma KeptNames(s: State, e: EventId, org: OrgId, wanted: seq<string>, remove: set<TagId>)
    requires Inv(s)
    requires remove == set t | t in TagsOf(s.rows, e, org) && s.tags[t].name !in wanted
    ensures var currentNames := set t | t in TagsOf(s.rows, e, org) :: s.tags[t].name;
      if e in s.events && s.events[e] == org then
        && NamesWithout(s, e, remove) <= currentNames
        && NamesWithout(s, e, remove) + Elements(Missing(wanted, currentNames)) == Elements(wanted)
      else
        currentNames == {}
  {
    var currentNames := set t | t in TagsOf(s.rows, e, org) :: s.tags[t].name;
    if e in s.events && s.events[e] == org {
      assert forall k :: k in s.rows && k.0 == e ==> k.1 in TagsOf(s.rows, e, org);
      forall n | n in currentNames && n in wanted ensures n in NamesWithout(s, e, remove) {
        var t :| t in TagsOf(s.rows, e, org) && s.tags[t].name == n;
        assert (e, t) in s.rows && t !in remove;
      }
    }
  }

  /** Names already on the event, and the tags that the list no longer wants. */
  ghost predicate Differences(s: State, e: EventId, org: OrgId, wanted: seq<string>, remove: set<TagId>, add: seq<string>) {
    var current := TagsOf(s.rows, e, org);
    && (forall t :: t in current ==> t in s.tags)
    && remove == (set t | t in current && s.tags[t].name !in wanted)
    && add == Missing(wanted, set t | t in current :: s.tags[t].name)
  }

  lemma UpdateInTheOrganisation(s: State, e: EventId, org: OrgId, wanted: seq<string>, remove: set<TagId>, add: seq<string>)
    requires Inv(s) && Distinct(wanted) && Differences(s, e, org, wanted, remove, add)
    requires e in s.events && s.events[e] == org
    ensures Updated(s, AddNames(Remove(s, e, remove), e, org, add), e, org, Elements(wanted), Elements(wanted))
  {
    KeptNames(s, e, org, wanted, remove);
    RemovingTags(s, e, org, remove, Elements(wanted));
    AddingNames(s, Remove(s, e, remove), e, org, NamesWithout(s, e, remove), Elements(wanted), add);
  }

  lemma UpdateElsewhere(s: State, e: EventId, org: OrgId, wanted: seq<string>, remove: set<TagId>, add: seq<string>)
    requires Inv(s) && Differences(s, e, org, wanted, remove, add)
    requires !(e in s.events && s.events[e] == org)
    ensures (add == [] <==> Elements(wanted) == {})
    ensures add == [] ==> AddNames(Remove(s, e, remove), e, org, add) == s
  {
    KeptNames(s, e, org, wanted, remove);
    assert remove == {};
    assert DropRows(s.rows, e, {}) == s.rows && Decrement(s.tags, {}) == s.tags;
    if wanted != [] {
      assert wanted[0] in add && wanted[0] in Elements(wanted);
    }
  }

  /** The two loops together do what the list asks for. */
  lemma WholeUpdate(s: State, e: EventId, org: OrgId, tagNames: seq<string>, remove: set<TagId>, add: seq<string>)
    requires Inv(s) && Differences(s, e, org, Dedup(Cleaned(tagNames)), remove, add)
    ensures var s' := AddNames(Remove(s, e, remove), e, org, add);
      if e in s.events && s.events[e] == org then
        Updated(s, s', e, org, NameSet(tagNames), NameSet(tagNames))
      else
        (add == [] <==> NameSet(tagNames) == {}) && (add == [] ==> s' == s)
  {
    var wanted := Dedup(Cleaned(tagNames));
    CleanedIsTheNameSet(tagNames);
    assert Elements(wanted) == NameSet(tagNames);
    if e in s.events && s.events[e] == org {
      UpdateInTheOrganisation(s, e, org, wanted, remove, add);
    } else {
      UpdateElsewhere(s, e, org, wanted, remove, add);
    }
  }

  // ---------- the service ----------

  class TagsService {
    const events: map<EventId, OrgId>
    var tags: map<TagId, Tag>
    var rows: map<Key, OrgId>
    var next: TagId

    constructor (events: map<EventId, OrgId>)
      ensures S() == State(events, map[], map[], 0) && Inv(S())
    {
      this.events := events;
      tags, rows, next := map[], map[], 0;
    }

    ghost function S(): State
      reads this
    {
      State(events, tags, rows, next)
    }

    method CreateTagByHand(org: OrgId, name: string, color: Option<Color>)
      modifies this`tags, this`next
      ensures S() == CreateTag(old(S()), org, name, color)
    {
      var hit := FindTag(tags, org, Trim(name), next);
      assert hit.Some? ==> tags == tags[hit.value := tags[hit.value]];
      if hit.Some? {
        if color.Some? {
          tags := tags[hit.value := tags[hit.value].(color := color.value)];
        }
      } else {
        tags := tags[next := Tag(org, Trim(name), if color.Some? then color.value else None, 0)];
        next := next + 1;
      }
    }

    /** Deletes the rows of unwanted tags, then decrements the tags one by one. */
    method RemoveTags(e: EventId, remove: set<TagId>)
      requires remove <= tags.Keys
      modifies this`tags, this`rows
      ensures S() == Remove(old(S()), e, remove)
    {
      rows := DropRows(rows, e, remove);
      var todo := remove;
      while todo != {}
        invariant todo <= remove && rows == DropRows(old(rows), e, remove)
        invariant tags == Decrement(old(tags), remove - todo)
      {
        var t :| t in todo;
        assert remove - (todo - {t}) == (remove - todo) + {t};
        tags := tags[t := tags[t].(usage := tags[t].usage - 1)];
        todo := todo - {t};
      }
      assert remove - todo == remove;
    }

    /** Upserts the tags and inserts the rows; an event outside the organisation stops at the first row. */
    method AddTags(e: EventId, org: OrgId, names: seq<string>) returns (ok: bool)
      modifies this`tags, this`rows, this`next
      ensures ok == ((e in events && events[e] == org) || names == [])
      ensures ok ==> S() == AddNames(old(S()), e, org, names)
    {
      for i := 0 to |names|
        invariant i > 0 ==> e in events && events[e] == org
        invariant S() == AddNames(old(S()), e, org, names[..i])
      {
        ghost var before := S();
        var name := names[i];
        var hit := FindTag(tags, org, name, next);
        var t := if hit.Some? then hit.value else next;
        if hit.Some? {
          tags := tags[t := tags[t].(usage := tags[t].usage + 1)];
        } else {
          tags := tags[t := Tag(org, name, None, 1)];
          next := next + 1;
        }
        if e !in events || events[e] != org {
          return false;
        }
        rows := rows[(e, t) := org];
        assert S() == AddName(before, e, org, name);
        assert names[..i + 1] == names[..i] + [name];
      }
      assert names[..|names|] == names;
      return true;
    }

    method UpdateEventTags(e: EventId, org: OrgId, tagNames: seq<string>) returns (ok: bool)
      requires Inv(S())
      modifies this`tags, this`rows, this`next
      ensures ok == Commits(old(S()), e, org, tagNames)
      ensures UpdateStep(old(S()), S(), e, org, tagNames)
    {
      ghost var s := S();
      var saved := (tags, rows, next);
      var normalized := Dedup(Cleaned(tagNames));
      var current := TagsOf(rows, e, org);
      assert forall t :: t in current ==> (e, t) in rows;
      var currentNames := set t | t in current :: tags[t].name;
      var toAdd := Missing(normalized, currentNames);
      var toRemove := set t | t in current && tags[t].name !in normalized;
      RemoveTags(e, toRemove);
      ok := AddTags(e, org, toAdd);
      if !ok {
        tags, rows, next := saved.0, saved.1, saved.2;
      }
      WholeUpdate(s, e, org, tagNames, toRemove, toAdd);
    }
  }
}
