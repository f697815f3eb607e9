/**
 Attendees of an organisation and the log of their revisions
 (src/modules/attendees/attendees.service.ts:29-107, 371-546, 763-774).

 Every operation is one transaction: a failed statement restores the tables.
 A row and a request are maps from columns to values; a column missing from a
 request is `undefined`.  Addresses are already folded to one case, as the
 column type compares them.  Ids are numbered in creation order.
 */
module Attendees {
  import opened Wrappers

  type OrgId = nat
  type AttendeeId = nat

  datatype Column =
    | Email | FirstName | LastName | Phone | Company | JobTitle | Country
    | Labels | Notes | Metadata | DefaultType | IsActive

  datatype Value = Null | Text(text: string) | Texts(texts: seq<string>) | Flag(flag: bool) | Json(json: string)

  type Fields = map<Column, Value>

  datatype Attendee = Attendee(org: OrgId, columns: Fields)

  datatype Note = UpsertCreate | UpsertUpdate | ManualUpdate | SoftDelete | HardDelete

  datatype Revision = Revision(attendee: AttendeeId, snapshot: Attendee, note: Note)

  datatype State = State(rows: map<AttendeeId, Attendee>, log: seq<Revision>, next: AttendeeId)

  /** `Duplicate` is the unique index on (org, email) at work, `ColumnRequired` a null in a column that takes none. */
  datatype Error = NotFound | EmailTaken | Duplicate | ColumnRequired

  // ---------- partial updates ----------

  const DETAILS: seq<Column> :=
    [FirstName, LastName, Phone, Company, JobTitle, Country, Labels, Notes, Metadata, DefaultType, IsActive]

  const EDITABLE: seq<Column> := [Email] + DETAILS

  const DEFAULTS: Fields := map[Labels := Texts([]), IsActive := Flag(true)]

  /** The columns that do not take a null. */
  predicate IsRequired(c: Column) {
    c == Email || c == Labels || c == IsActive
  }

  predicate NullsOk(dto: Fields, columns: seq<Column>) {
    forall c :: c in dto && c in columns && IsRequired(c) ==> dto[c] != Null
  }

  /** The requested columns among `columns` that are defined. */
  function Picked(dto: Fields, columns: seq<Column>): Fields {
    map c | c in dto && c in columns :: dto[c]
  }

  /** `pickDefinedFields` */
  method PickDefinedFields(dto: Fields, columns: seq<Column>) returns (result: Fields)
    ensures result == Picked(dto, columns)
  {
    result := map[];
    for k := 0 to |columns|
      invariant result == Picked(dto, columns[..k])
    {
      var c := columns[k];
      assert columns[..k + 1] == columns[..k] + [c];
      if c in dto {
        result := result[c := dto[c]];
      }
    }
    assert columns[..|columns|] == columns;
  }

  // ---------- the handlers as functions of the state ----------

  predicate HasEmail(rows: map<AttendeeId, Attendee>, id: AttendeeId, org: OrgId, email: Value) {
    id in rows && rows[id].org == org && Email in rows[id].columns && rows[id].columns[Email] == email
  }

  /** The row of the organisation with the address. */
  function ByEmail(rows: map<AttendeeId, Attendee>, org: OrgId, email: Value, below: AttendeeId): (id: Option<AttendeeId>)
    ensures id.Some? ==> id.value < below && HasEmail(rows, id.value, org, email)
    ensures id.None? ==> forall i: AttendeeId :: i < below ==> !HasEmail(rows, i, org, email)
  {
    if below == 0 then None
    else if HasEmail(rows, below - 1, org, email) then Some(below - 1)
    else ByEmail(rows, org, email, below - 1)
  }

  /** Writes a row and logs it. */
  function Write(s: State, id: AttendeeId, row: Attendee, note: Note): State {
    s.(rows := s.rows[id := row], log := s.log + [Revision(id, row, note)])
  }

  function Upsert(s: State, org: OrgId, email: string, dto: Fields): (State, Result<AttendeeId, Error>) {
    if !NullsOk(dto, DETAILS) then (s, Err(ColumnRequired))
    else match ByEmail(s.rows, org, Text(email), s.next)
      case Some(id) =>
        (Write(s, id, Attendee(s.rows[id].org, s.rows[id].columns + Picked(dto, DETAILS)), UpsertUpdate), Ok(id))
      case None =>
        (Write(s, s.next, Attendee(org, DEFAULTS[Email := Text(email)] + Picked(dto, DETAILS)), UpsertCreate)
           .(next := s.next + 1), Ok(s.next))
  }

  /** A missing organisation is that of a super administrator, who sees every row. */
  predicate Visible(s: State, id: AttendeeId, org: Option<OrgId>) {
    id in s.rows && (org.Some? ==> s.rows[id].org == org.value)
  }

  /** A row of the organisation other than `id` has the address. */
  predicate Taken(rows: map<AttendeeId, Attendee>, id: AttendeeId, org: OrgId, email: Value) {
    exists i :: i in rows && i != id && HasEmail(rows, i, org, email)
  }

  /** An address that JavaScript holds to be true: present and not empty. */
  predicate Truthy(v: Value) {
    v != Null && v != Text("")
  }

  function Update(s: State, id: AttendeeId, dto: Fields, org: Option<OrgId>): (State, Result<(), Error>) {
    if !Visible(s, id, org) then (s, Err(NotFound))
    else if Email in dto && Truthy(dto[Email]) && !HasEmail(s.rows, id, s.rows[id].org, dto[Email])
            && Taken(s.rows, id, s.rows[id].org, dto[Email]) then (s, Err(EmailTaken))
    else if !NullsOk(dto, EDITABLE) then (s, Err(ColumnRequired))
    else if Email in dto && Taken(s.rows, id, s.rows[id].org, dto[Email]) then (s, Err(Duplicate))
    else
      var row := s.rows[id];
      (Write(s, id, Attendee(row.org, row.columns + Picked(dto, EDITABLE)), ManualUpdate), Ok(()))
  }

  /** The revisions of one attendee. */
  function History(log: seq<Revision>, id: AttendeeId): seq<Revision> {
    if log == [] then []
    else History(log[..|log| - 1], id) + if log[|log| - 1].attendee == id then [log[|log| - 1]] else []
  }

  /** The log without one attendee. */
  function Forgotten(log: seq<Revision>, id: AttendeeId): seq<Revision> {
    if log == [] then []
    else Forgotten(log[..|log| - 1], id) + if log[|log| - 1].attendee == id then [] else [log[|log| - 1]]
  }

  /** A hard delete takes the revisions with it, through the foreign key. */
  function Remove(s: State, id: AttendeeId, org: Option<OrgId>, force: bool): (State, Result<bool, Error>) {
    if !Visible(s, id, org) then (s, Err(NotFound))
    else if force then
      (s.(rows := s.rows - {id}, log := Forgotten(s.log + [Revision(id, s.rows[id], HardDelete)], id)), Ok(true))
    else
      var row := s.rows[id];
      (Write(s, id, Attendee(row.org, row.columns[IsActive := Flag(false)]), SoftDelete), Ok(false))
  }

  // ---------- the service ----------

  class AttendeesService {
    var rows: map<AttendeeId, Attendee>
    var log: seq<Revision>
    var next: AttendeeId

    ghost function S(): State
      reads this
    {
      State(rows, log, next)
    }

    constructor ()
      ensures S() == State(map[], [], 0)
    {
      rows, log, next := map[], [], 0;
    }

    method CreateAttendee(email: string, dto: Fields, org: OrgId) returns (r: Result<AttendeeId, Error>)
      modifies this
      ensures (S(), r) == Upsert(old(S()), org, email, dto)
    {
      var existing := ByEmail(rows, org, Text(email), next);
      var id: AttendeeId;
      var row: Attendee;
      var note: Note;
      var picked := PickDefinedFields(dto, DETAILS);
      // required columns take no null, whether the row is inserted or updated
      if !NullsOk(dto, DETAILS) {
        return Err(ColumnRequired);
      }
      if existing.Some? {
        id := existing.value;
        row := Attendee(rows[id].org, rows[id].columns + picked);
        note := UpsertUpdate;
      } else {
        id := next;
        next := next + 1;
        row := Attendee(org, DEFAULTS[Email := Text(email)] + picked);
        note := UpsertCreate;
      }
      rows := rows[id := row];
      log := log + [Revision(id, row, note)];
      return Ok(id);
    }

    method UpdateAttendee(id: AttendeeId, dto: Fields, org: Option<OrgId>) returns (r: Result<(), Error>)
      modifies this`rows, this`log
      ensures (S(), r) == Update(old(S()), id, dto, org)
    {
      if id !in rows || (org.Some? && rows[id].org != org.value) {
        return Err(NotFound);
      }
      var existing := rows[id];
      if Email in dto && Truthy(dto[Email]) && !HasEmail(rows, id, existing.org, dto[Email]) {
        if Taken(rows, id, existing.org, dto[Email]) {
          return Err(EmailTaken);
        }
      }
      // required columns take no null, and (org, email) is unique
      if !NullsOk(dto, EDITABLE) {
        return Err(ColumnRequired);
      }
      if Email in dto && Taken(rows, id, existing.org, dto[Email]) {
        return Err(Duplicate);
      }
      var picked := PickDefinedFields(dto, EDITABLE);
      var row := Attendee(existing.org, existing.columns + picked);
      rows := rows[id := row];
      log := log + [Revision(id, row, ManualUpdate)];
      return Ok(());
    }

    method RemoveAttendee(id: AttendeeId, org: Option<OrgId>, force: bool) returns (r: Result<bool, Error>)
      modifies this`rows, this`log
      ensures (S(), r) == Remove(old(S()), id, org, force)
    {
      if id !in rows || (org.Some? && rows[id].org != org.value) {
        return Err(NotFound);
      }
      if force {
        log := log + [Revision(id, rows[id], HardDelete)];
        rows := rows - {id};
        log := Forgotten(log, id);
        return Ok(true);
      }
      var row := Attendee(rows[id].org, rows[id].columns[IsActive := Flag(false)]);
      rows := rows[id := row];
      log := log + [Revision(id, row, SoftDelete)];
      return Ok(false);
    }
  }
}
