/**
 Codes and names of attendee types over every run of create, update and remove
 (src/modules/attendee-types/attendee-types.service.ts:53-193).
 */
module AttendeeTypeRuns {
  import opened Wrappers
  import opened AttendeeTypes

  datatype Op =
    | CreateOp(org: OrgId, name: string, base: string, given: string)
    | UpdateOp(org: OrgId, id: TypeId, newName: Option<string>, newCode: Option<string>)
    | RemoveOp(org: OrgId, id: TypeId)

  ghost predicate Stepped(s: State, op: Op, s': State) {
    match op
    case CreateOp(org, name, base, given) =>
      exists r: Result<TypeId, Error> :: Created(s, org, name, base, given, s', r)
    case UpdateOp(org, id, name, code) => s' == Update(s, org, id, name, code).0
    case RemoveOp(org, id) => s' == Remove(s, org, id).0
  }

  ghost predicate IsRun(states: seq<State>, ops: seq<Op>) {
    && |states| == |ops| + 1
    && forall i :: 0 <= i < |ops| ==> Stepped(states[i], ops[i], states[i + 1])
  }

  // ---------- the invariant ----------

  ghost predicate CodesUnique(types: map<TypeId, AttendeeType>) {
    forall a, b :: a in types && b in types && types[a].org == types[b].org && types[a].code == types[b].code ==> a == b
  }

  ghost predicate NamesUnique(types: map<TypeId, AttendeeType>) {
    forall a, b ::
      (a in types && b in types && types[a].org == types[b].org && types[a].name == types[b].name
       && types[a].name != "") ==> a == b
  }

  ghost predicate Inv(s: State) {
    (forall t :: t in s.types ==> t < s.next) && CodesUnique(s.types) && NamesUnique(s.types)
  }

  /** The code given to a new type is free in its organisation. */
  lemma NewCodeIsFree(types: map<TypeId, AttendeeType>, org: OrgId, base: string, given: string, code: string)
    requires IsCodeFor(types, org, base, given, code)
    requires given != "" ==> !CodeInUse(types, org, given, None)
    ensures !CodeInUse(types, org, code, None)
  {
    assert CodeInUse(types, org, code, None) ==> code in CodesOf(types, org);
  }

  lemma CreateKeepsInv(s: State, org: OrgId, name: string, base: string, given: string, s': State,
                       r: Result<TypeId, Error>)
    requires Inv(s) && Created(s, org, name, base, given, s', r)
    ensures Inv(s')
  {
    if r.Ok? {
      NewCodeIsFree(s.types, org, base, given, s'.types[s.next].code);
    }
  }

  lemma UpdateKeepsInv(s: State, org: OrgId, id: TypeId, name: Option<string>, code: Option<string>)
    requires Inv(s)
    ensures Inv(Update(s, org, id, name, code).0)
  {
    var (s', r) := Update(s, org, id, name, code);
    if r.Ok? {
      forall a | a in s'.types && a != id && s'.types[a].org == org
        ensures s'.types[a].code != s'.types[id].code
        ensures s'.types[a].name == s'.types[id].name ==> s'.types[a].name == ""
      {
        assert s.types[a].org == s.types[id].org;
      }
    }
  }

  /** The two checks of an update are exact: it goes through if and only if the table it would leave is still unique. */
  lemma UpdateSucceedsExactly(s: State, org: OrgId, id: TypeId, name: Option<string>, code: Option<string>)
    requires Inv(s) && Owned(s, org, id)
    ensures
      var after := s.types[id := Merged(s.types[id], name, code)];
      Update(s, org, id, name, code).1.Ok? <==> CodesUnique(after) && NamesUnique(after)
  {
    var after := s.types[id := Merged(s.types[id], name, code)];
    if name.Some? && name.value != "" && NameInUse(s.types, org, name.value, Some(id)) {
      var t :| t in s.types && s.types[t].org == org && s.types[t].name == name.value && t != id;
      assert after[t].name == after[id].name;
      assert !NamesUnique(after);
    } else if code.Some? && CodeInUse(s.types, org, code.value, Some(id)) {
      var t :| t in s.types && s.types[t].org == org && s.types[t].code == code.value && t != id;
      assert after[t].code == after[id].code;
      assert !CodesUnique(after);
    } else {
      UpdateKeepsInv(s, org, id, name, code);
    }
  }

  lemma StepKeepsInv(s: State, op: Op, s': State)
    requires Inv(s) && Stepped(s, op, s')
    ensures Inv(s')
  {
    match op
    case CreateOp(org, name, base, given) =>
      var r: Result<TypeId, Error> :| Created(s, org, name, base, given, s', r);
      CreateKeepsInv(s, org, name, base, given, s', r);
    case UpdateOp(org, id, name, code) => UpdateKeepsInv(s, org, id, name, code);
    case RemoveOp(org, id) =>
  }

  /** In every organisation, at every moment of every run, codes are unique and so are the names that are not empty. */
  lemma {:induction false} RunKeepsInv(states: seq<State>, ops: seq<Op>, k: nat)
    requires IsRun(states, ops) && k <= |ops| && Inv(states[0])
    ensures Inv(states[k])
  {
    if k > 0 {
      RunKeepsInv(states, ops, k - 1);
      StepKeepsInv(states[k - 1], ops[k - 1], states[k]);
    }
  }

  /**
   Without a code of its own, a type is created whenever its name is free; its
   code is the first free candidate, found among the first as many as the
   organisation has codes, plus one.
   */
  lemma GeneratedCodesNeverRunOut(s: State, org: OrgId, name: string, base: string, s': State, r: Result<TypeId, Error>)
    requires Created(s, org, name, base, "", s', r)
    ensures r.Ok? <==> !NameInUse(s.types, org, name, None)
    ensures r.Ok? ==> exists n: nat ::
      n <= |CodesOf(s.types, org)| && IsFirstFree(CodesOf(s.types, org), base, n)
      && s'.types[r.value].code == Candidate(base, n)
  {
    if r.Ok? {
      var n: nat :| IsFirstFree(CodesOf(s.types, org), base, n) && s'.types[s.next].code == Candidate(base, n);
      RejectedAreTaken(CodesOf(s.types, org), base, n);
    }
  }

  /** Removing the type whose code is the plain slug makes that code the next one given out. */
  lemma FreedCodeIsReused(s: State, org: OrgId, id: TypeId, name: string, base: string, s': State, r: Result<TypeId, Error>)
    requires Inv(s) && Owned(s, org, id) && s.types[id].code == base
    requires Created(Remove(s, org, id).0, org, name, base, "", s', r) && r.Ok?
    ensures s'.types[r.value].code == base
  {
    var s1 := Remove(s, org, id).0;
    var codes := CodesOf(s1.types, org);
    assert base !in codes;
    var n: nat :| IsFirstFree(codes, base, n) && s'.types[s1.next].code == Candidate(base, n);
    assert Candidate(base, 0) == base;
  }

  /** Names unique without exception, the empty name included. */
  ghost predicate AllNamesUnique(types: map<TypeId, AttendeeType>) {
    forall a, b :: a in types && b in types && types[a].org == types[b].org && types[a].name == types[b].name ==> a == b
  }

  /** An update to the empty name is never checked, so two types can end up without a name. */
  lemma EmptyNamesCollide(s: State, org: OrgId, a: TypeId, b: TypeId)
    requires Owned(s, org, a) && Owned(s, org, b) && a != b
    ensures
      var (s1, r1) := Update(s, org, a, Some(""), None);
      var (s2, r2) := Update(s1, org, b, Some(""), None);
      r1.Ok? && r2.Ok? && s2.types[a].name == s2.types[b].name == "" && !AllNamesUnique(s2.types)
  {
    var s1 := Update(s, org, a, Some(""), None).0;
    var s2 := Update(s1, org, b, Some(""), None).0;
    assert s2.types[a].name == s2.types[b].name && s2.types[a].org == s2.types[b].org;
  }

  /** A successful update breaks the uniqueness of names exactly when it writes the empty name that another type has. */
  lemma NamesCollideExactly(s: State, org: OrgId, id: TypeId, name: Option<string>, code: Option<string>)
    requires AllNamesUnique(s.types) && Update(s, org, id, name, code).1.Ok?
    ensures AllNamesUnique(Update(s, org, id, name, code).0.types)
      <==> !(name == Some("") && NameInUse(s.types, org, "", Some(id)))
  {
    var s' := Update(s, org, id, name, code).0;
    if name == Some("") && NameInUse(s.types, org, "", Some(id)) {
      var t :| t in s.types && s.types[t].org == org && s.types[t].name == "" && t != id;
      assert s'.types[t].name == s'.types[id].name && s'.types[t].org == s'.types[id].org;
    } else {
      forall a | a in s'.types && a != id && s'.types[a].org == org
        ensures s'.types[a].name != s'.types[id].name
      {
        assert s.types[a].org == s.types[id].org;
      }
    }
  }
}
