/**
 Attendee types of an organisation: creation with the search for a free code,
 update and removal (src/modules/attendee-types/attendee-types.service.ts).

 Columns other than the name and the code are left out.  Ids are numbered in
 creation order.
 */
module AttendeeTypes {
  import opened Collections
  import opened Wrappers
  import opened Slugs

  type OrgId = nat
  type TypeId = nat

  datatype AttendeeType = AttendeeType(org: OrgId, code: string, name: string)

  datatype State = State(types: map<TypeId, AttendeeType>, next: TypeId)

  datatype Error = NotFound | NameTaken | CodeTaken

  // ---------- candidate codes ----------

  function Digit(n: nat): char
    requires n < 10
  {
    ('0' as int + n) as char
  }

  /** A number as the template literal writes it. */
  function Decimal(n: nat): (s: string)
    ensures s != ""
  {
    if n < 10 then [Digit(n)] else Decimal(n / 10) + [Digit(n % 10)]
  }

  /** `base`, `base_1`, `base_2`, ... */
  function Candidate(base: string, n: nat): string {
    if n == 0 then base else base + "_" + Decimal(n)
  }

  lemma LastDiffers(a: string, c: char, b: string, d: char)
    requires a != b || c != d
    ensures a + [c] != b + [d]
  {
    assert (a + [c])[..|a|] == a && (a + [c])[|a|] == c;
    assert (b + [d])[..|b|] == b && (b + [d])[|b|] == d;
  }

  lemma {:induction false} DecimalIsInjective(m: nat, n: nat)
    requires m != n
    ensures Decimal(m) != Decimal(n)
  {
    if 10 <= m && 10 <= n {
      if m / 10 != n / 10 {
        DecimalIsInjective(m / 10, n / 10);
      }
      LastDiffers(Decimal(m / 10), Digit(m % 10), Decimal(n / 10), Digit(n % 10));
    }
  }

  lemma CandidatesAreDistinct(base: string, m: nat, n: nat)
    requires m != n
    ensures Candidate(base, m) != Candidate(base, n)
  {
    if m > 0 && n > 0 {
      assert (base + "_" + Decimal(m))[|base| + 1..] == Decimal(m);
      assert (base + "_" + Decimal(n))[|base| + 1..] == Decimal(n);
      DecimalIsInjective(m, n);
    }
  }

  ghost function FirstCandidates(base: string, n: nat): (r: set<string>)
    ensures forall c :: c in r ==> exists k: nat :: k < n && c == Candidate(base, k)
  {
    if n == 0 then {} else FirstCandidates(base, n - 1) + {Candidate(base, n - 1)}
  }

  lemma {:induction false} CountOfCandidates(base: string, n: nat)
    ensures |FirstCandidates(base, n)| == n
  {
    if n > 0 {
      CountOfCandidates(base, n - 1);
      forall k: nat | k < n - 1
        ensures Candidate(base, k) != Candidate(base, n - 1)
      {
        CandidatesAreDistinct(base, k, n - 1);
      }
    }
  }

  /** Pigeonhole: the candidates rejected so far are at most as many as the codes taken. */
  lemma RejectedAreTaken(codes: set<string>, base: string, n: nat)
    requires forall k: nat :: k < n ==> Candidate(base, k) in codes
    ensures n <= |codes|
  {
    CountOfCandidates(base, n);
    SubsetIsNoLarger(FirstCandidates(base, n), codes);
  }

  /** `n` is the number of the first candidate that is free. */
  ghost predicate IsFirstFree(codes: set<string>, base: string, n: nat) {
    Candidate(base, n) !in codes && forall k: nat :: k < n ==> Candidate(base, k) in codes
  }

  lemma FirstFreeIsUnique(codes: set<string>, base: string, m: nat, n: nat)
    requires IsFirstFree(codes, base, m) && IsFirstFree(codes, base, n)
    ensures m == n
  {
  }

  // ---------- the handlers as relations between states ----------

  function CodesOf(types: map<TypeId, AttendeeType>, org: OrgId): set<string> {
    set t | t in types && types[t].org == org :: types[t].code
  }

  predicate NameInUse(types: map<TypeId, AttendeeType>, org: OrgId, name: string, other: Option<TypeId>) {
    exists t :: t in types && types[t].org == org && types[t].name == name && (other.Some? ==> t != other.value)
  }

  predicate CodeInUse(types: map<TypeId, AttendeeType>, org: OrgId, code: string, other: Option<TypeId>) {
    exists t :: t in types && types[t].org == org && types[t].code == code && (other.Some? ==> t != other.value)
  }

  /** The code a new type gets: the one given, or the first free candidate of its slug. */
  ghost predicate IsCodeFor(types: map<TypeId, AttendeeType>, org: OrgId, base: string, given: string, code: string) {
    if given != "" then code == given
    else exists n: nat :: IsFirstFree(CodesOf(types, org), base, n) && code == Candidate(base, n)
  }

  /** `base` is the slug of the name; `given` is empty when the request has no code. */
  ghost predicate Created(s: State, org: OrgId, name: string, base: string, given: string,
                          s': State, r: Result<TypeId, Error>) {
    if NameInUse(s.types, org, name, None) then s' == s && r == Err(NameTaken)
    else if given != "" && CodeInUse(s.types, org, given, None) then s' == s && r == Err(CodeTaken)
    else
      && r == Ok(s.next) && s'.next == s.next + 1 && s.next in s'.types
      && s'.types == s.types[s.next := s'.types[s.next]]
      && s'.types[s.next].org == org && s'.types[s.next].name == name
      && IsCodeFor(s.types, org, base, given, s'.types[s.next].code)
  }

  predicate Owned(s: State, org: OrgId, id: TypeId) {
    id in s.types && s.types[id].org == org
  }

  function Merged(t: AttendeeType, name: Option<string>, code: Option<string>): AttendeeType {
    t.(name := if name.Some? then name.value else t.name, code := if code.Some? then code.value else t.code)
  }

  /** An empty name is written without a check; a code is also checked by the database. */
  function Update(s: State, org: OrgId, id: TypeId, name: Option<string>, code: Option<string>): (State, Result<(), Error>) {
    if !Owned(s, org, id) then (s, Err(NotFound))
    else if name.Some? && name.value != "" && NameInUse(s.types, org, name.value, Some(id)) then (s, Err(NameTaken))
    else if code.Some? && CodeInUse(s.types, org, code.value, Some(id)) then (s, Err(CodeTaken))
    else (s.(types := s.types[id := Merged(s.types[id], name, code)]), Ok(()))
  }

  function Remove(s: State, org: OrgId, id: TypeId): (State, Result<(), Error>) {
    if Owned(s, org, id) then (s.(types := s.types - {id}), Ok(())) else (s, Err(NotFound))
  }

  // ---------- the service ----------

  class AttendeeTypesService {
    var types: map<TypeId, AttendeeType>
    var next: TypeId

    ghost function S(): State
      reads this
    {
      State(types, next)
    }

    constructor ()
      ensures S() == State(map[], 0)
    {
      types, next := map[], 0;
    }

    /** Probes candidate codes until one is free; `probes` counts the look-ups. */
    method FindCode(org: OrgId, base: string) returns (code: string, probes: nat)
      ensures probes > 0 && IsFirstFree(CodesOf(types, org), base, probes - 1)
      ensures code == Candidate(base, probes - 1)
      ensures probes <= |CodesOf(types, org)| + 1
    {
      ghost var codes := CodesOf(types, org);
      code, probes := base, 1;
      var counter := 1;
      while CodeInUse(types, org, code, None)
        invariant probes == counter && counter >= 1
        invariant code == Candidate(base, counter - 1)
        invariant forall k: nat :: k < counter - 1 ==> Candidate(base, k) in codes
        decreases |codes| + 1 - counter
      {
        assert code in codes;
        RejectedAreTaken(codes, base, counter);
        code := base + "_" + Decimal(counter);
        counter := counter + 1;
        probes := probes + 1;
      }
      RejectedAreTaken(codes, base, counter - 1);
    }

    method Create(org: OrgId, name: string, fold: string -> string, given: string) returns (r: Result<TypeId, Error>)
      modifies this
      ensures Created(old(S()), org, name, Slugify(fold, name), given, S(), r)
    {
      if NameInUse(types, org, name, None) {
        return Err(NameTaken);
      }
      var code := given;
      if given == "" {
        var probes;
        code, probes := FindCode(org, Slugify(fold, name));
      } else if CodeInUse(types, org, given, None) {
        return Err(CodeTaken);
      }
      types := types[next := AttendeeType(org, code, name)];
      next := next + 1;
      return Ok(next - 1);
    }

    method UpdateType(org: OrgId, id: TypeId, name: Option<string>, code: Option<string>) returns (r: Result<(), Error>)
      modifies this`types
      ensures (S(), r) == Update(old(S()), org, id, name, code)
    {
      if id !in types || types[id].org != org {
        return Err(NotFound);
      }
      if name.Some? && name.value != "" {
        if NameInUse(types, org, name.value, Some(id)) {
          return Err(NameTaken);
        }
      }
      if code.Some? && code.value != "" {
        if CodeInUse(types, org, code.value, Some(id)) {
          return Err(CodeTaken);
        }
      }
      // the unique index on (org, code)
      if code.Some? && CodeInUse(types, org, code.value, Some(id)) {
        return Err(CodeTaken);
      }
      types := types[id := Merged(types[id], name, code)];
      return Ok(());
    }

    method RemoveType(org: OrgId, id: TypeId) returns (r: Result<(), Error>)
      modifies this`types
      ensures (S(), r) == Remove(old(S()), org, id)
    {
      if id !in types || types[id].org != org {
        return Err(NotFound);
      }
      types := types - {id};
      return Ok(());
    }
  }
}
