/**
 Which answer each attendee request gets and what it writes, said in terms of
 the tables alone (src/modules/attendees/attendees.service.ts:29-107, 371-546).
 */
module AttendeeAnswers {
  import opened Wrappers
  import opened Attendees
  import opened AttendeeRuns

  /** The attendee is there, and the caller is of its organisation or of none. */
  ghost predicate MaySee(s: State, id: AttendeeId, org: Option<OrgId>) {
    id in s.rows && (org == None || org == Some(s.rows[id].org))
  }

  ghost predicate HasAddress(s: State, id: AttendeeId, org: OrgId, email: Value) {
    id in s.rows && s.rows[id].org == org && Email in s.rows[id].columns && s.rows[id].columns[Email] == email
  }

  /** Another attendee of the same organisation has the address. */
  ghost predicate HeldByAnother(s: State, id: AttendeeId, email: Value)
    requires id in s.rows
  {
    exists i :: i != id && HasAddress(s, i, s.rows[id].org, email)
  }

  /** The request writes a null where none may be; an upsert does not write the address from its fields. */
  ghost predicate NullsLabelsOrActive(dto: Fields) {
    (Labels in dto && dto[Labels] == Null) || (IsActive in dto && dto[IsActive] == Null)
  }

  ghost predicate NullsAddress(dto: Fields) {
    Email in dto && dto[Email] == Null
  }

  lemma NullsAreExact(dto: Fields)
    ensures NullsOk(dto, DETAILS) <==> !NullsLabelsOrActive(dto)
    ensures NullsOk(dto, EDITABLE) <==> !NullsLabelsOrActive(dto) && !NullsAddress(dto)
  {
    EveryColumnIsEditable(Labels);
    EveryColumnIsEditable(IsActive);
    EveryColumnIsEditable(Email);
  }

  lemma TakenIsExact(s: State, id: AttendeeId, email: Value)
    requires id in s.rows
    ensures Taken(s.rows, id, s.rows[id].org, email) <==> HeldByAnother(s, id, email)
  {
    if Taken(s.rows, id, s.rows[id].org, email) {
      var i :| i in s.rows && i != id && HasEmail(s.rows, i, s.rows[id].org, email);
      assert HasAddress(s, i, s.rows[id].org, email);
    }
    if HeldByAnother(s, id, email) {
      var i :| i != id && HasAddress(s, i, s.rows[id].org, email);
      assert HasEmail(s.rows, i, s.rows[id].org, email);
    }
  }

  /** Which answer an update gets, exactly. */
  lemma UpdateAnswers(s: State, id: AttendeeId, dto: Fields, org: Option<OrgId>)
    requires Inv(s)
    ensures
      Update(s, id, dto, org).1 ==
        if !MaySee(s, id, org) then Err(NotFound)
        else if Email in dto && dto[Email] != Null && dto[Email] != Text("") && HeldByAnother(s, id, dto[Email]) then
          Err(EmailTaken)
        else if NullsLabelsOrActive(dto) || NullsAddress(dto) then Err(ColumnRequired)
        else if Email in dto && HeldByAnother(s, id, dto[Email]) then Err(Duplicate)
        else Ok(())
  {
    NullsAreExact(dto);
    if id in s.rows && Email in dto {
      TakenIsExact(s, id, dto[Email]);
      if HasEmail(s.rows, id, s.rows[id].org, dto[Email]) {
        assert !Taken(s.rows, id, s.rows[id].org, dto[Email]);
      }
    }
  }

  /** An update writes the defined fields of one row and logs the row it leaves; a refused one writes nothing. */
  lemma UpdateWrites(s: State, id: AttendeeId, dto: Fields, org: Option<OrgId>)
    ensures
      var (s', r) := Update(s, id, dto, org);
      if r.Err? then s' == s
      else
        && id in s.rows && id in s'.rows
        && s'.rows == s.rows[id := Attendee(s.rows[id].org, s'.rows[id].columns)]
        && (forall c: Column :: At(s', id, c) == if c in dto then dto[c] else At(s, id, c))
        && s' == State(s'.rows, s.log + [Revision(id, s'.rows[id], ManualUpdate)], s.next)
  {
    var (s', r) := Update(s, id, dto, org);
    if r.Ok? {
      forall c: Column ensures At(s', id, c) == if c in dto then dto[c] else At(s, id, c) {
        UpdateWritesTheRequest(s, id, dto, org, c);
      }
    }
  }

  /** An upsert is refused exactly for a null where none may be; else it is about the attendee with the address, or a new one. */
  lemma UpsertAnswers(s: State, org: OrgId, email: string, dto: Fields, id: AttendeeId)
    requires Inv(s)
    ensures
      var r := Upsert(s, org, email, dto).1;
      && (r.Err? <==> NullsLabelsOrActive(dto)) && (r.Err? ==> r.error == ColumnRequired)
      && (r.Ok? && HasAddress(s, id, org, Text(email)) ==> r.value == id)
      && (r.Ok? && (forall i: AttendeeId :: !HasAddress(s, i, org, Text(email))) ==> r.value == s.next)
  {
    NullsAreExact(dto);
    var found := ByEmail(s.rows, org, Text(email), s.next);
    if found.Some? {
      assert HasAddress(s, found.value, org, Text(email));
    } else if HasAddress(s, id, org, Text(email)) {
      assert HasEmail(s.rows, id, org, Text(email));
    }
  }

  /** What the columns of an upserted attendee read: as requested, else as before, else the default of a new row. */
  ghost predicate Upserted(s: State, id: AttendeeId, email: string, dto: Fields, columns: Fields, c: Column) {
    var value := if c in columns then columns[c] else Null;
    if c == Email then value == Text(email)
    else if c in dto then value == dto[c]
    else if id in s.rows then value == At(s, id, c)
    else if c == Labels then value == Texts([])
    else if c == IsActive then value == Flag(true)
    else value == Null
  }

  lemma UpsertWritesColumn(s: State, org: OrgId, email: string, dto: Fields, c: Column)
    requires Inv(s) && Upsert(s, org, email, dto).1.Ok?
    ensures
      var (s', r) := Upsert(s, org, email, dto);
      r.value in s'.rows && Upserted(s, r.value, email, dto, s'.rows[r.value].columns, c)
  {
    UpsertWritesTheRequest(s, org, email, dto, c);
  }

  /** An upsert writes and logs one row. */
  lemma UpsertWrites(s: State, org: OrgId, email: string, dto: Fields)
    requires Inv(s)
    ensures
      var (s', r) := Upsert(s, org, email, dto);
      if r.Err? then s' == s
      else
        var id, known := r.value, r.value in s.rows;
        && id in s'.rows
        && s'.rows == s.rows[id := Attendee(org, s'.rows[id].columns)]
        && (forall c: Column :: Upserted(s, id, email, dto, s'.rows[id].columns, c))
        && s' == State(s'.rows, s.log + [Revision(id, s'.rows[id], if known then UpsertUpdate else UpsertCreate)],
                       if known then s.next else s.next + 1)
  {
    var (s', r) := Upsert(s, org, email, dto);
    if r.Ok? {
      assert s.next !in s.rows;
      forall c: Column ensures Upserted(s, r.value, email, dto, s'.rows[r.value].columns, c) {
        UpsertWritesColumn(s, org, email, dto, c);
      }
    }
  }

  /** A removal deactivates the row and logs that, or, when forced, takes the row and its revisions. */
  lemma RemoveAnswers(s: State, id: AttendeeId, org: Option<OrgId>, force: bool)
    ensures
      var (s', r) := Remove(s, id, org, force);
      if !MaySee(s, id, org) then (s', r) == (s, Err(NotFound))
      else if force then
        && r == Ok(true) && s' == State(map i | i in s.rows && i != id :: s.rows[i], s'.log, s.next)
        && (forall i: AttendeeId :: History(s'.log, i) == if i == id then [] else History(s.log, i))
      else
        var row := Attendee(s.rows[id].org, s.rows[id].columns[IsActive := Flag(false)]);
        && r == Ok(false) && s' == State(s.rows[id := row], s.log + [Revision(id, row, SoftDelete)], s.next)
  {
    var (s', r) := Remove(s, id, org, force);
    if r.Ok? && force {
      assert s.rows - {id} == map i | i in s.rows && i != id :: s.rows[i];
      forall i: AttendeeId ensures History(s'.log, i) == if i == id then [] else History(s.log, i) {
        HardDeleteErasesHistory(s, id, org, i);
      }
    }
  }
}
