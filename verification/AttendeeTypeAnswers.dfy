/**
 Which answer each attendee-type request gets and what it writes, said in
 terms of the table alone
 (src/modules/attendee-types/attendee-types.service.ts:53-193).
 */
module AttendeeTypeAnswers {
  import opened Wrappers
  import opened AttendeeTypes

  ghost predicate OfOrg(s: State, t: TypeId, org: OrgId) {
    t in s.types && s.types[t].org == org
  }

  /** A type of the organisation other than `but` has the name. */
  ghost predicate NameHeld(s: State, org: OrgId, name: string, but: Option<TypeId>) {
    exists t :: OfOrg(s, t, org) && Some(t) != but && s.types[t].name == name
  }

  ghost predicate CodeHeld(s: State, org: OrgId, code: string, but: Option<TypeId>) {
    exists t :: OfOrg(s, t, org) && Some(t) != but && s.types[t].code == code
  }

  lemma ChecksAreExact(s: State, org: OrgId, text: string, but: Option<TypeId>)
    ensures NameInUse(s.types, org, text, but) <==> NameHeld(s, org, text, but)
    ensures CodeInUse(s.types, org, text, but) <==> CodeHeld(s, org, text, but)
    ensures text in CodesOf(s.types, org) <==> CodeHeld(s, org, text, None)
  {
    if NameInUse(s.types, org, text, but) {
      var t :| t in s.types && s.types[t].org == org && s.types[t].name == text && (but.Some? ==> t != but.value);
      assert OfOrg(s, t, org) && Some(t) != but;
    }
    if CodeInUse(s.types, org, text, but) {
      var t :| t in s.types && s.types[t].org == org && s.types[t].code == text && (but.Some? ==> t != but.value);
      assert OfOrg(s, t, org) && Some(t) != but;
    }
    if NameHeld(s, org, text, but) {
      var t :| OfOrg(s, t, org) && Some(t) != but && s.types[t].name == text;
      assert t in s.types;
    }
    if CodeHeld(s, org, text, but) {
      var t :| OfOrg(s, t, org) && Some(t) != but && s.types[t].code == text;
      assert t in s.types;
    }
    if text in CodesOf(s.types, org) {
      var t :| t in s.types && s.types[t].org == org && s.types[t].code == text;
      assert OfOrg(s, t, org);
    }
    if CodeHeld(s, org, text, None) {
      var t :| OfOrg(s, t, org) && s.types[t].code == text;
      assert t in s.types;
    }
  }

  // ---------- the numerals in the codes ----------

  /** The number that a numeral stands for. */
  ghost function ValueOf(digits: string): int {
    if digits == "" then 0
    else 10 * ValueOf(digits[..|digits| - 1]) + (digits[|digits| - 1] as int - '0' as int)
  }

  /** A number is written in decimal digits without a leading zero, and reads back as itself. */
  lemma {:induction false} DecimalReadsBack(n: nat)
    ensures ValueOf(Decimal(n)) == n
    ensures forall i :: 0 <= i < |Decimal(n)| ==> '0' <= Decimal(n)[i] <= '9'
    ensures n > 0 ==> Decimal(n)[0] != '0'
  {
    if n < 10 {
      assert [Digit(n)][..0] == "";
    } else {
      DecimalReadsBack(n / 10);
      assert Decimal(n)[..|Decimal(n)| - 1] == Decimal(n / 10);
    }
  }

  /** The `n`-th code tried for a name. */
  ghost predicate IsAttempt(base: string, n: nat, code: string) {
    if n == 0 then code == base
    else exists numeral: string :: code == base + "_" + numeral && numeral == Decimal(n)
  }

  // ---------- the requests ----------

  /** The code of a new type: the one given, else the first attempt that no type of the organisation has. */
  ghost predicate CodeChosen(s: State, org: OrgId, base: string, given: string, code: string) {
    if given != "" then code == given
    else
      && !CodeHeld(s, org, code, None)
      && exists n: nat :: IsAttempt(base, n, code)
           && forall k: nat, c: string :: k < n && IsAttempt(base, k, c) ==> CodeHeld(s, org, c, None)
  }

  lemma CodeForIsChosen(s: State, org: OrgId, base: string, given: string, code: string)
    requires IsCodeFor(s.types, org, base, given, code)
    ensures CodeChosen(s, org, base, given, code)
  {
    if given == "" {
      var n: nat :| IsFirstFree(CodesOf(s.types, org), base, n) && code == Candidate(base, n);
      ChecksAreExact(s, org, code, None);
      assert IsAttempt(base, n, code);
      forall k: nat, c: string | k < n && IsAttempt(base, k, c) ensures CodeHeld(s, org, c, None) {
        assert c == Candidate(base, k);
        ChecksAreExact(s, org, c, None);
      }
    }
  }

  /** A creation is refused exactly for its name or its given code; otherwise one type is added, as asked. */
  lemma CreateAnswers(s: State, org: OrgId, name: string, base: string, given: string, s': State,
                      r: Result<TypeId, Error>)
    requires Created(s, org, name, base, given, s', r)
    ensures
      if NameHeld(s, org, name, None) then (s', r) == (s, Err(NameTaken))
      else if given != "" && CodeHeld(s, org, given, None) then (s', r) == (s, Err(CodeTaken))
      else
        && r == Ok(s.next) && s.next in s'.types
        && CodeChosen(s, org, base, given, s'.types[s.next].code)
        && s' == State(s.types[s.next := AttendeeType(org, s'.types[s.next].code, name)], s.next + 1)
  {
    ChecksAreExact(s, org, name, None);
    ChecksAreExact(s, org, given, None);
    if r.Ok? {
      CodeForIsChosen(s, org, base, given, s'.types[s.next].code);
    }
  }

  /** An update is refused exactly for a missing type, a name or a code; otherwise it writes the given fields of one type. */
  lemma UpdateAnswers(s: State, org: OrgId, id: TypeId, name: Option<string>, code: Option<string>)
    ensures
      var (s', r) := Update(s, org, id, name, code);
      if !OfOrg(s, id, org) then (s', r) == (s, Err(NotFound))
      else if name.Some? && name.value != "" && NameHeld(s, org, name.value, Some(id)) then (s', r) == (s, Err(NameTaken))
      else if code.Some? && CodeHeld(s, org, code.value, Some(id)) then (s', r) == (s, Err(CodeTaken))
      else
        && r == Ok(()) && id in s'.types
        && s' == State(s.types[id := AttendeeType(org, s'.types[id].code, s'.types[id].name)], s.next)
        && (name.Some? ==> s'.types[id].name == name.value) && (name.None? ==> s'.types[id].name == s.types[id].name)
        && (code.Some? ==> s'.types[id].code == code.value) && (code.None? ==> s'.types[id].code == s.types[id].code)
  {
    ChecksAreExact(s, org, if name.Some? then name.value else "", Some(id));
    ChecksAreExact(s, org, if code.Some? then code.value else "", Some(id));
  }

  /** A removal takes one type of the organisation, and nothing else. */
  lemma RemoveAnswers(s: State, org: OrgId, id: TypeId)
    ensures
      Remove(s, org, id) ==
        if !OfOrg(s, id, org) then (s, Err(NotFound))
        else (State(s.types - {id}, s.next), Ok(()))
  {
  }
}
