/**
 What every run of the tag service keeps (src/modules/tags/tags.service.ts).
 */
module TagRuns {
  import opened Wrappers
  import opened Text
  import opened Tags

  datatype Op =
    | Update(e: EventId, org: OrgId, names: seq<string>)
    | Create(org: OrgId, name: string, color: Option<Color>)

  ghost predicate Step(s: State, op: Op, s': State) {
    match op
    case Update(e, org, names) => UpdateStep(s, s', e, org, names)
    case Create(org, name, color) => s' == CreateTag(s, org, name, color)
  }

  /** The states passed through while the operations are executed in turn. */
  ghost predicate IsRun(states: seq<State>, ops: seq<Op>) {
    && |states| == |ops| + 1
    && (forall i :: 0 <= i < |ops| ==> Step(states[i], ops[i], states[i + 1]))
  }

  /** The update writes the tags of the event: it names the event's own organisation. */
  predicate Writes(events: map<EventId, OrgId>, op: Op, e: EventId) {
    op.Update? && op.e == e && e in events && events[e] == op.org
  }

  /** The names last written for an event, or `before` when none were. */
  ghost function LastList(events: map<EventId, OrgId>, ops: seq<Op>, e: EventId, before: set<string>): set<string> {
    if ops == [] then before
    else if Writes(events, ops[|ops| - 1], e) then NameSet(ops[|ops| - 1].names)
    else LastList(events, ops[..|ops| - 1], e, before)
  }

  lemma StepKeepsInv(s: State, op: Op, s': State)
    requires Inv(s) && Step(s, op, s')
    ensures Inv(s') && s'.events == s.events
  {
    match op
    case Update(e, org, names) =>
    case Create(org, name, color) => CreatingATagKeepsInv(s, org, name, color);
  }

  /** Neither the rows of the event nor the names of their tags have changed. */
  ghost predicate SameTags(s: State, s': State, e: EventId) {
    && (forall k: Key :: k.0 == e ==> (k in s.rows <==> k in s'.rows))
    && (forall t :: t in s.tags ==> t in s'.tags && s'.tags[t].name == s.tags[t].name)
  }

  lemma SameTagsSameNames(s: State, s': State, e: EventId)
    requires RowsOk(s) && SameTags(s, s', e)
    ensures NamesOf(s', e) == NamesOf(s, e)
  {
    forall n | n in NamesOf(s, e) ensures n in NamesOf(s', e) {
      var k :| k in s.rows && k.0 == e && k.1 in s.tags && s.tags[k.1].name == n;
      assert k in s'.rows;
    }
    forall n | n in NamesOf(s', e) ensures n in NamesOf(s, e) {
      var k :| k in s'.rows && k.0 == e && k.1 in s'.tags && s'.tags[k.1].name == n;
      assert k in s.rows;
    }
  }

  /** A step leaves the names of every event as the last list written says. */
  lemma NamesAfterStep(s: State, op: Op, s': State, e: EventId)
    requires Inv(s) && Step(s, op, s')
    ensures NamesOf(s', e) == if Writes(s.events, op, e) then NameSet(op.names) else NamesOf(s, e)
  {
    if !Writes(s.events, op, e) {
      assert SameTags(s, s', e);
      SameTagsSameNames(s, s', e);
    }
  }

  lemma {:induction false} RunKeepsInv(states: seq<State>, ops: seq<Op>)
    requires IsRun(states, ops) && Inv(states[0])
    ensures Inv(states[|ops|]) && states[|ops|].events == states[0].events
    decreases |ops|
  {
    if ops != [] {
      var n := |ops| - 1;
      RunKeepsInv(states[..|ops|], ops[..n]);
      StepKeepsInv(states[n], ops[n], states[n + 1]);
    }
  }

  lemma {:induction false} NamesAfterRun(states: seq<State>, ops: seq<Op>, e: EventId)
    requires IsRun(states, ops) && Inv(states[0])
    ensures NamesOf(states[|ops|], e) == LastList(states[0].events, ops, e, NamesOf(states[0], e))
    decreases |ops|
  {
    if ops != [] {
      var n := |ops| - 1;
      RunKeepsInv(states[..|ops|], ops[..n]);
      NamesAfterRun(states[..|ops|], ops[..n], e);
      NamesAfterStep(states[n], ops[n], states[n + 1], e);
    }
  }

  /** The events of the tag's organisation whose current list names the tag. */
  ghost function Users(s: State, t: TagId): set<EventId>
    requires t in s.tags
  {
    set e | e in s.events && s.events[e] == s.tags[t].org && s.tags[t].name in NamesOf(s, e)
  }

  lemma {:induction false} Bijection(rows: set<Key>, events: set<EventId>, t: TagId)
    requires forall k :: k in rows ==> k.1 == t && k.0 in events
    requires forall e :: e in events ==> (e, t) in rows
    ensures |rows| == |events|
    decreases events
  {
    if events == {} {
      assert rows == {};
    } else {
      var e :| e in events;
      Bijection(rows - {(e, t)}, events - {e}, t);
    }
  }

  /** The cached number of uses of a tag is the number of events whose list names it. */
  lemma UsageCountsEvents(s: State, t: TagId)
    requires Inv(s) && t in s.tags
    ensures s.tags[t].usage == |Users(s, t)|
  {
    forall e | e in Users(s, t) ensures (e, t) in s.rows {
      var k :| k in s.rows && k.0 == e && k.1 in s.tags && s.tags[k.1].name == s.tags[t].name;
      assert k.1 == t;
    }
    assert forall k :: k in RowsOf(s.rows, t) ==> k.0 in Users(s, t);
    Bijection(RowsOf(s.rows, t), Users(s, t), t);
  }

  /** The events of the organisation whose last written list names the tag. */
  ghost function EventsNaming(events: map<EventId, OrgId>, ops: seq<Op>, org: OrgId, name: string): set<EventId> {
    set e | e in events && events[e] == org && name in LastList(events, ops, e, {})
  }

  /**
   After any run, the number of uses of a tag is the number of events whose
   last written list names it: how the lists got there does not matter.
   */
  lemma CountsDependOnLastListsOnly(states: seq<State>, ops: seq<Op>, t: TagId)
    requires IsRun(states, ops) && Inv(states[0]) && states[0].rows == map[]
    requires t in states[|ops|].tags
    ensures var tag := states[|ops|].tags[t];
      tag.usage == |EventsNaming(states[0].events, ops, tag.org, tag.name)|
  {
    var s, s' := states[0], states[|ops|];
    RunKeepsInv(states, ops);
    UsageCountsEvents(s', t);
    forall e ensures NamesOf(s', e) == LastList(s.events, ops, e, {}) {
      NamesAfterRun(states, ops, e);
      assert NamesOf(s, e) == {};
    }
    assert Users(s', t) == EventsNaming(s.events, ops, s'.tags[t].org, s'.tags[t].name);
  }

  // ---------- repeating an update ----------

  lemma RowStays(s: State, s': State, e: EventId, k: Key)
    requires Inv(s) && Inv(s') && s'.events == s.events && NamesOf(s', e) == NamesOf(s, e)
    requires e in s.events && TagsGrow(s, s', s.events[e], NamesOf(s, e))
    requires k in s.rows && k.0 == e
    ensures k in s'.rows
  {
    assert s.tags[k.1].name in NamesOf(s', e);
    var x :| x in s'.rows && x.0 == e && x.1 in s'.tags && s'.tags[x.1].name == s.tags[k.1].name;
    assert x.1 == k.1;
  }

  /** A tag of the organisation that bears a name of the event is not new. */
  lemma NoNewTag(s: State, s': State, e: EventId, t: TagId)
    requires Inv(s) && Inv(s') && e in s.events && TagsGrow(s, s', s.events[e], NamesOf(s, e))
    requires t in s'.tags && s'.tags[t].org == s.events[e] && s'.tags[t].name in NamesOf(s, e)
    ensures t in s.tags && (e, t) in s.rows
  {
    var k :| k in s.rows && k.0 == e && k.1 in s.tags && s.tags[k.1].name == s'.tags[t].name;
    assert k.1 == t;
  }

  /** Writing the list an event already has changes no table. */
  lemma RepeatingAnUpdateChangesNothing(s: State, s': State, e: EventId, org: OrgId, names: seq<string>)
    requires Inv(s) && UpdateStep(s, s', e, org, names)
    requires NamesOf(s, e) == NameSet(names)
    ensures s'.tags == s.tags && s'.rows == s.rows
  {
    if e in s.events && s.events[e] == org {
      forall k | k in s.rows ensures k in s'.rows { if k.0 == e { RowStays(s, s', e, k); } }
      forall k | k in s'.rows ensures k in s.rows {
        if k.0 == e {
          assert s'.tags[k.1].name in NamesOf(s', e);
          NoNewTag(s, s', e, k.1);
        }
      }
      assert s'.rows == s.rows;
      forall t | t in s'.tags ensures t in s.tags { if t !in s.tags { NoNewTag(s, s', e, t); } }
    }
  }

  /** Creating a tag whose name exists, without a colour, changes nothing; with one, it recolours that tag only. */
  lemma CreatingAnExistingTag(s: State, org: OrgId, name: string, color: Option<Color>, t: TagId)
    requires Inv(s) && t in s.tags && s.tags[t].org == org && s.tags[t].name == Trim(name)
    ensures
      var s' := CreateTag(s, org, name, color);
      && (color == None ==> s' == s)
      && (color.Some? ==> s' == s.(tags := s.tags[t := s.tags[t].(color := color.value)]))
  {
    assert FindTag(s.tags, org, Trim(name), s.next) == Some(t);
    assert s.tags == s.tags[t := s.tags[t]];
  }

  /** Creating a tag whose name is new adds one tag of that name, not yet used, and nothing else. */
  lemma CreatingANewTag(s: State, org: OrgId, name: string, color: Option<Color>)
    requires Inv(s)
    requires forall t :: t in s.tags && s.tags[t].org == org ==> s.tags[t].name != Trim(name)
    ensures
      var s' := CreateTag(s, org, name, color);
      && s.next !in s.tags
      && s' == State(s.events, s.tags[s.next := Tag(org, Trim(name), s'.tags[s.next].color, 0)], s.rows, s.next + 1)
      && (color.Some? ==> s'.tags[s.next].color == color.value)
      && (color.None? ==> s'.tags[s.next].color == None)
  {
    assert FindTag(s.tags, org, Trim(name), s.next).None?;
  }

  /** The event has a tag of this name. */
  ghost predicate HasName(s: State, e: EventId, n: string) {
    exists t: TagId :: (e, t) in s.rows && t in s.tags && s.tags[t].name == n
  }

  /** An update commits when the event is the organisation's, or no name of the list survives trimming. */
  lemma CommitsExactly(s: State, e: EventId, org: OrgId, names: seq<string>)
    ensures Commits(s, e, org, names)
      <==> (e in s.events && s.events[e] == org) || forall x :: x in names ==> Trim(x) == ""
  {
    if x :| x in names && Trim(x) != "" {
      assert Trim(x) in NameSet(names);
    }
  }

  /**
   After an update an event of the organisation has the trimmed, non-empty names
   of the list.  Rows of other events stay, tags keep all but their use count,
   and a new tag has a name of the list and no colour.  Any other event is left alone.
   */
  lemma UpdateWrites(s: State, s': State, e: EventId, org: OrgId, names: seq<string>, n: string, k: Key, t: TagId)
    requires UpdateStep(s, s', e, org, names)
    ensures
      if e in s.events && s.events[e] == org then
        && (HasName(s', e, n) <==> n != "" && exists x :: x in names && Trim(x) == n)
        && (k.0 != e ==> ((k in s'.rows <==> k in s.rows) && (k in s.rows ==> s'.rows[k] == s.rows[k])))
        && (t in s.tags ==> t in s'.tags && s'.tags[t] == s.tags[t].(usage := s'.tags[t].usage))
        && (t in s'.tags && t !in s.tags ==>
              s'.tags[t].org == org && s'.tags[t].color == None && s'.tags[t].name != ""
              && exists x :: x in names && Trim(x) == s'.tags[t].name)
        && s'.events == s.events
      else s' == s
  {
    if e in s.events && s.events[e] == org {
      if HasName(s', e, n) {
        var u: TagId :| (e, u) in s'.rows && u in s'.tags && s'.tags[u].name == n;
        assert n in NamesOf(s', e) by {
          assert (e, u).0 == e && (e, u).1 == u;
        }
      }
      if x :| n != "" && x in names && Trim(x) == n {
        assert n in NamesOf(s', e);
        var q :| q in s'.rows && q.0 == e && q.1 in s'.tags && s'.tags[q.1].name == n;
        assert q == (e, q.1);
      }
    }
  }
}
