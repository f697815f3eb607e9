/**
 The attendee table and its revision log over every run of create, update and
 remove (src/modules/attendees/attendees.service.ts:29-107, 371-546).
 */
module AttendeeRuns {
  import opened Wrappers
  import opened Attendees

  datatype Op =
    | UpsertOp(org: OrgId, email: string, dto: Fields)
    | UpdateOp(id: AttendeeId, changes: Fields, scope: Option<OrgId>)
    | RemoveOp(target: AttendeeId, within: Option<OrgId>, force: bool)

  function Step(s: State, op: Op): State {
    match op
    case UpsertOp(org, email, dto) => Upsert(s, org, email, dto).0
    case UpdateOp(id, dto, org) => Update(s, id, dto, org).0
    case RemoveOp(id, org, force) => Remove(s, id, org, force).0
  }

  function Run(s: State, ops: seq<Op>): State {
    if ops == [] then s else Step(Run(s, ops[..|ops| - 1]), ops[|ops| - 1])
  }

  // ---------- the invariant ----------

  /** The required columns are there and not null. */
  ghost predicate Complete(row: Attendee) {
    forall c :: IsRequired(c) ==> c in row.columns && row.columns[c] != Null
  }

  /** Every row has a number below `next`, an address and the other required columns. */
  ghost predicate RowsOk(s: State) {
    forall i :: i in s.rows ==> i < s.next && Complete(s.rows[i])
  }

  ghost predicate EmailsUnique(rows: map<AttendeeId, Attendee>) {
    forall i, j ::
      (i in rows && j in rows && rows[i].org == rows[j].org && Email in rows[i].columns && Email in rows[j].columns
       && rows[i].columns[Email] == rows[j].columns[Email]) ==> i == j
  }

  /** The newest snapshot of an attendee. */
  ghost function Newest(log: seq<Revision>, id: AttendeeId): Option<Attendee> {
    var h := History(log, id);
    if h == [] then None else Some(h[|h| - 1].snapshot)
  }

  /** The table can be read off the log: a row exists exactly if it has revisions, and is the newest snapshot. */
  ghost predicate LogIsTheTable(s: State) {
    forall i: AttendeeId :: Newest(s.log, i) == if i in s.rows then Some(s.rows[i]) else None
  }

  ghost predicate Inv(s: State) {
    RowsOk(s) && EmailsUnique(s.rows) && LogIsTheTable(s)
  }

  lemma HistoryAfterAppend(log: seq<Revision>, r: Revision, id: AttendeeId)
    ensures History(log + [r], id) == History(log, id) + if r.attendee == id then [r] else []
  {
    assert (log + [r])[..|log|] == log;
  }

  lemma {:induction false} HistoryAfterForgetting(log: seq<Revision>, gone: AttendeeId, id: AttendeeId)
    ensures History(Forgotten(log, gone), id) == if id == gone then [] else History(log, id)
  {
    if log != [] {
      var front, last := log[..|log| - 1], log[|log| - 1];
      HistoryAfterForgetting(front, gone, id);
      if last.attendee != gone {
        HistoryAfterAppend(Forgotten(front, gone), last, id);
      } else {
        assert Forgotten(log, gone) == Forgotten(front, gone);
      }
    }
  }

  lemma WriteKeepsTheLog(s: State, id: AttendeeId, row: Attendee, note: Note)
    requires LogIsTheTable(s)
    ensures LogIsTheTable(Write(s, id, row, note))
  {
    var s' := Write(s, id, row, note);
    forall i: AttendeeId
      ensures Newest(s'.log, i) == if i in s'.rows then Some(s'.rows[i]) else None
    {
      HistoryAfterAppend(s.log, Revision(id, row, note), i);
    }
  }

  lemma RowWritten(rows: map<AttendeeId, Attendee>, id: AttendeeId, row: Attendee)
    requires EmailsUnique(rows) && Email in row.columns && !Taken(rows, id, row.org, row.columns[Email])
    ensures EmailsUnique(rows[id := row])
  {
    assert forall i :: i in rows && i != id && rows[i].org == row.org && Email in rows[i].columns ==>
      HasEmail(rows, i, row.org, rows[i].columns[Email]);
  }

  /** The columns an upsert starts from: those of the row it finds, or the defaults of a new one. */
  ghost function Base(s: State, org: OrgId, email: string): Fields {
    var found := ByEmail(s.rows, org, Text(email), s.next);
    if found.Some? then s.rows[found.value].columns else DEFAULTS[Email := Text(email)]
  }

  ghost predicate UpsertShape(s: State, s': State, id: AttendeeId, org: OrgId, columns: Fields) {
    && s'.rows == s.rows[id := Attendee(org, columns)]
    && exists note: Note :: s'.log == s.log + [Revision(id, Attendee(org, columns), note)]
  }

  /** The row that an upsert writes: the one with the address, or a new one. */
  ghost function UpsertTarget(s: State, org: OrgId, email: string): AttendeeId {
    var found := ByEmail(s.rows, org, Text(email), s.next);
    if found.Some? then found.value else s.next
  }

  lemma UpsertHasShape(s: State, org: OrgId, email: string, dto: Fields)
    ensures
      var (s', r) := Upsert(s, org, email, dto);
      && (r == if NullsOk(dto, DETAILS) then Ok(UpsertTarget(s, org, email)) else Err(ColumnRequired))
      && (if r.Ok? then UpsertShape(s, s', r.value, org, Base(s, org, email) + Picked(dto, DETAILS)) else s' == s)
  {
    var (s', r) := Upsert(s, org, email, dto);
    if r.Ok? {
      var note := s'.log[|s.log|].note;
      assert s'.log == s.log + [Revision(r.value, s'.rows[r.value], note)];
    }
  }

  /** An upsert leaves the address it was asked for, and every required column filled. */
  lemma UpsertedRowIsComplete(s: State, org: OrgId, email: string, dto: Fields)
    requires RowsOk(s) && NullsOk(dto, DETAILS)
    ensures var columns := Base(s, org, email) + Picked(dto, DETAILS);
      Complete(Attendee(org, columns)) && columns[Email] == Text(email)
  {
    assert Email !in Picked(dto, DETAILS);
    var found := ByEmail(s.rows, org, Text(email), s.next);
    assert found.Some? ==> Complete(s.rows[found.value]);
  }

  lemma UpsertKeepsInv(s: State, org: OrgId, email: string, dto: Fields)
    requires Inv(s)
    ensures Inv(Upsert(s, org, email, dto).0)
  {
    var (s', r) := Upsert(s, org, email, dto);
    UpsertHasShape(s, org, email, dto);
    if r.Ok? {
      var id, row := r.value, Attendee(org, Base(s, org, email) + Picked(dto, DETAILS));
      UpsertedRowIsComplete(s, org, email, dto);
      var note: Note :| s'.log == s.log + [Revision(id, row, note)];
      assert !Taken(s.rows, id, org, Text(email));
      RowWritten(s.rows, id, row);
      WriteKeepsTheLog(s, id, row, note);
    }
  }

  lemma UpdatedRowIsComplete(row: Attendee, dto: Fields)
    requires Complete(row)
    ensures Complete(Attendee(row.org, row.columns + Picked(dto, EDITABLE))) <==> NullsOk(dto, EDITABLE)
  {
    var after := Attendee(row.org, row.columns + Picked(dto, EDITABLE));
    if Complete(after) {
      forall c | c in dto && c in EDITABLE && IsRequired(c) ensures dto[c] != Null {
        assert after.columns[c] == dto[c];
      }
    }
  }

  lemma UpdateKeepsInv(s: State, id: AttendeeId, dto: Fields, org: Option<OrgId>)
    requires Inv(s)
    ensures Inv(Update(s, id, dto, org).0)
  {
    var (s', r) := Update(s, id, dto, org);
    if r.Ok? {
      var row := s'.rows[id];
      assert Email in EDITABLE;
      UpdatedRowIsComplete(s.rows[id], dto);
      RowWritten(s.rows, id, row);
      WriteKeepsTheLog(s, id, row, ManualUpdate);
    }
  }

  lemma ForgettingKeepsTheLog(s: State, id: AttendeeId)
    requires LogIsTheTable(s) && id in s.rows
    ensures LogIsTheTable(Remove(s, id, None, true).0)
  {
    var s' := Remove(s, id, None, true).0;
    forall i: AttendeeId
      ensures Newest(s'.log, i) == if i in s'.rows then Some(s'.rows[i]) else None
    {
      HistoryAfterForgetting(s.log + [Revision(id, s.rows[id], HardDelete)], id, i);
      HistoryAfterAppend(s.log, Revision(id, s.rows[id], HardDelete), i);
    }
  }

  lemma RemoveKeepsInv(s: State, id: AttendeeId, org: Option<OrgId>, force: bool)
    requires Inv(s)
    ensures Inv(Remove(s, id, org, force).0)
  {
    var (s', r) := Remove(s, id, org, force);
    if r.Ok? && force {
      ForgettingKeepsTheLog(s, id);
      assert s' == Remove(s, id, None, true).0;
    } else if r.Ok? {
      assert Complete(s.rows[id]);
      RowWritten(s.rows, id, s'.rows[id]);
      WriteKeepsTheLog(s, id, s'.rows[id], SoftDelete);
    }
  }

  lemma StepKeepsInv(s: State, op: Op)
    requires Inv(s)
    ensures Inv(Step(s, op))
  {
    match op
    case UpsertOp(org, email, dto) => UpsertKeepsInv(s, org, email, dto);
    case UpdateOp(id, dto, org) => UpdateKeepsInv(s, id, dto, org);
    case RemoveOp(id, org, force) => RemoveKeepsInv(s, id, org, force);
  }

  /** Over every run, the table is what the log says, and no two attendees of an organisation share an address. */
  lemma {:induction false} RunKeepsInv(s: State, ops: seq<Op>)
    requires Inv(s)
    ensures Inv(Run(s, ops))
  {
    if ops != [] {
      RunKeepsInv(s, ops[..|ops| - 1]);
      StepKeepsInv(Run(s, ops[..|ops| - 1]), ops[|ops| - 1]);
    }
  }

  lemma NoAttendeeSatisfiesInv()
    ensures Inv(State(map[], [], 0))
  {
  }

  // ---------- the log ----------

  ghost predicate Succeeds(s: State, op: Op) {
    match op
    case UpsertOp(org, email, dto) => Upsert(s, org, email, dto).1.Ok?
    case UpdateOp(id, dto, org) => Update(s, id, dto, org).1.Ok?
    case RemoveOp(id, org, force) => Remove(s, id, org, force).1.Ok?
  }

  /** The attendee a call is about. */
  ghost function Subject(s: State, op: Op): AttendeeId {
    match op
    case UpsertOp(org, email, _) => UpsertTarget(s, org, email)
    case UpdateOp(id, _, _) => id
    case RemoveOp(id, _, _) => id
  }

  ghost predicate Forced(op: Op) {
    op.RemoveOp? && op.force
  }

  /** A successful call that is not a hard delete adds one revision, to the attendee it is about; a failed one adds none. */
  lemma OneRevisionPerCall(s: State, op: Op, id: AttendeeId)
    requires !Forced(op)
    ensures
      |History(Step(s, op).log, id)|
      == |History(s.log, id)| + if Succeeds(s, op) && id == Subject(s, op) then 1 else 0
    ensures s.log <= Step(s, op).log
    ensures !Succeeds(s, op) ==> Step(s, op) == s
  {
    if Succeeds(s, op) {
      var s' := Step(s, op);
      HistoryAfterAppend(s.log, s'.log[|s.log|], id);
      assert s'.log == s.log + [s'.log[|s.log|]];
    }
  }

  /** Without hard deletes the log is only ever appended to. */
  lemma {:induction false} LogIsAppendOnly(s: State, ops: seq<Op>)
    requires forall op :: op in ops ==> !Forced(op)
    ensures s.log <= Run(s, ops).log
  {
    if ops != [] {
      LogIsAppendOnly(s, ops[..|ops| - 1]);
      OneRevisionPerCall(Run(s, ops[..|ops| - 1]), ops[|ops| - 1], 0);
    }
  }

  /** A hard delete leaves no revision of the attendee, not even the one it has just written, and all the others. */
  lemma HardDeleteErasesHistory(s: State, id: AttendeeId, org: Option<OrgId>, other: AttendeeId)
    requires Visible(s, id, org)
    ensures History(Remove(s, id, org, true).0.log, other) == if other == id then [] else History(s.log, other)
  {
    HistoryAfterForgetting(s.log + [Revision(id, s.rows[id], HardDelete)], id, other);
    HistoryAfterAppend(s.log, Revision(id, s.rows[id], HardDelete), other);
  }

  // ---------- addresses ----------

  /** The unique index is reached only by an update to the empty address, which the check lets through. */
  lemma IndexGuardsTheEmptyAddress(s: State, id: AttendeeId, dto: Fields, org: Option<OrgId>)
    requires Inv(s)
    ensures
      Update(s, id, dto, org).1 == Err(Duplicate) <==>
        (Visible(s, id, org) && NullsOk(dto, EDITABLE)
         && Email in dto && dto[Email] == Text("") && Taken(s.rows, id, s.rows[id].org, Text("")))
  {
    assert Email in EDITABLE && IsRequired(Email);
    if Visible(s, id, org) && Email in dto && HasEmail(s.rows, id, s.rows[id].org, dto[Email]) {
      assert !Taken(s.rows, id, s.rows[id].org, dto[Email]);
    }
  }

  /** Writing a row keeps addresses unique exactly when no other row has its address. */
  lemma AddressDecides(rows: map<AttendeeId, Attendee>, id: AttendeeId, row: Attendee)
    requires EmailsUnique(rows) && Email in row.columns
    ensures EmailsUnique(rows[id := row]) <==> !Taken(rows, id, row.org, row.columns[Email])
  {
    if Taken(rows, id, row.org, row.columns[Email]) {
      var i :| i in rows && i != id && HasEmail(rows, i, row.org, row.columns[Email]);
      assert rows[id := row][i].columns[Email] == rows[id := row][id].columns[Email];
    } else {
      RowWritten(rows, id, row);
    }
  }

  /** An update goes through exactly when it is allowed, writes no null where none may be, and an address that no other row has. */
  lemma WrittenAddressWasFree(s: State, id: AttendeeId, dto: Fields, org: Option<OrgId>)
    requires Visible(s, id, org)
    ensures Update(s, id, dto, org).1.Ok? <==>
      NullsOk(dto, EDITABLE) && (Email in dto ==> !Taken(s.rows, id, s.rows[id].org, dto[Email]))
  {
  }

  lemma OwnAddressIsFree(s: State, id: AttendeeId)
    requires Inv(s) && id in s.rows
    ensures Email in s.rows[id].columns && !Taken(s.rows, id, s.rows[id].org, s.rows[id].columns[Email])
  {
    assert Complete(s.rows[id]) && IsRequired(Email);
  }

  /** An update goes through exactly when the table it would leave has unique addresses and no null in a required column. */
  lemma UpdateSucceedsExactly(s: State, id: AttendeeId, dto: Fields, org: Option<OrgId>)
    requires Inv(s) && Visible(s, id, org)
    ensures
      var row := Attendee(s.rows[id].org, s.rows[id].columns + Picked(dto, EDITABLE));
      var after := s.(rows := s.rows[id := row]);
      Update(s, id, dto, org).1.Ok? <==> EmailsUnique(after.rows) && RowsOk(after)
  {
    var row := Attendee(s.rows[id].org, s.rows[id].columns + Picked(dto, EDITABLE));
    var after := s.(rows := s.rows[id := row]);
    WrittenAddressWasFree(s, id, dto, org);
    OwnAddressIsFree(s, id);
    UpdatedRowIsComplete(s.rows[id], dto);
    assert RowsOk(after) <==> Complete(row) by {
      assert after.rows[id] == row;
    }
    assert Email in EDITABLE;
    assert row.columns[Email] == if Email in dto then dto[Email] else s.rows[id].columns[Email];
    AddressDecides(s.rows, id, row);
  }

  // ---------- what a call writes ----------

  lemma EveryColumnIsEditable(c: Column)
    ensures c in EDITABLE && (c in DETAILS <==> c != Email)
  {
    match c
    case Email => assert EDITABLE[0] == c;
    case FirstName => assert DETAILS[0] == c && EDITABLE[1] == c;
    case LastName => assert DETAILS[1] == c && EDITABLE[2] == c;
    case Phone => assert DETAILS[2] == c && EDITABLE[3] == c;
    case Company => assert DETAILS[3] == c && EDITABLE[4] == c;
    case JobTitle => assert DETAILS[4] == c && EDITABLE[5] == c;
    case Country => assert DETAILS[5] == c && EDITABLE[6] == c;
    case Labels => assert DETAILS[6] == c && EDITABLE[7] == c;
    case Notes => assert DETAILS[7] == c && EDITABLE[8] == c;
    case Metadata => assert DETAILS[8] == c && EDITABLE[9] == c;
    case DefaultType => assert DETAILS[9] == c && EDITABLE[10] == c;
    case IsActive => assert DETAILS[10] == c && EDITABLE[11] == c;
  }

  /** A column of a row; missing columns are null. */
  ghost function At(s: State, id: AttendeeId, c: Column): Value
    requires id in s.rows
  {
    if c in s.rows[id].columns then s.rows[id].columns[c] else Null
  }

  /** An update writes exactly the defined fields of the request, to one row. */
  lemma UpdateWritesTheRequest(s: State, id: AttendeeId, dto: Fields, org: Option<OrgId>, c: Column)
    requires Update(s, id, dto, org).1.Ok?
    ensures
      var s' := Update(s, id, dto, org).0;
      && id in s'.rows && s'.rows[id].org == s.rows[id].org
      && At(s', id, c) == (if c in dto then dto[c] else At(s, id, c))
      && s'.rows == s.rows[id := s'.rows[id]]
  {
    EveryColumnIsEditable(c);
  }

  /** The requested value, else the stored one, else the default. */
  ghost function Written(s: State, id: AttendeeId, dto: Fields, c: Column): Value {
    if c in dto then dto[c] else if id in s.rows then At(s, id, c) else if c in DEFAULTS then DEFAULTS[c] else Null
  }

  lemma PickedDetail(base: Fields, dto: Fields, c: Column)
    requires c != Email
    ensures var columns := base + Picked(dto, DETAILS);
      (c in columns <==> c in dto || c in base) && (c in columns ==> columns[c] == if c in dto then dto[c] else base[c])
  {
    EveryColumnIsEditable(c);
  }

  /** An upsert updates exactly when the address is known. */
  lemma TargetIsKnown(s: State, org: OrgId, email: string)
    requires RowsOk(s)
    ensures UpsertTarget(s, org, email) in s.rows <==> exists i :: HasEmail(s.rows, i, org, Text(email))
    ensures UpsertTarget(s, org, email) in s.rows ==>
      Base(s, org, email) == s.rows[UpsertTarget(s, org, email)].columns
    ensures UpsertTarget(s, org, email) !in s.rows ==> Base(s, org, email) == DEFAULTS[Email := Text(email)]
  {
    var found := ByEmail(s.rows, org, Text(email), s.next);
    if found.Some? {
      assert HasEmail(s.rows, found.value, org, Text(email));
    }
  }

  /** An upsert writes the defined fields but the address, over the row it finds or over the defaults. */
  lemma UpsertWritesTheRequest(s: State, org: OrgId, email: string, dto: Fields, c: Column)
    requires Inv(s) && NullsOk(dto, DETAILS)
    ensures
      var s', id := Upsert(s, org, email, dto).0, UpsertTarget(s, org, email);
      && Upsert(s, org, email, dto).1 == Ok(id)
      && id in s'.rows && s'.rows[id].org == org && s'.rows == s.rows[id := s'.rows[id]]
      && At(s', id, c) == (if c == Email then Text(email) else Written(s, id, dto, c))
      && (id in s.rows <==> exists i :: HasEmail(s.rows, i, org, Text(email)))
  {
    UpsertHasShape(s, org, email, dto);
    UpsertedRowIsComplete(s, org, email, dto);
    TargetIsKnown(s, org, email);
    if c != Email {
      PickedDetail(Base(s, org, email), dto, c);
    }
  }

  /** A soft delete writes one column of one row. */
  lemma SoftDeleteDeactivates(s: State, id: AttendeeId, org: Option<OrgId>, c: Column)
    requires Visible(s, id, org)
    ensures
      var s' := Remove(s, id, org, false).0;
      At(s', id, c) == (if c == IsActive then Flag(false) else At(s, id, c)) && s'.rows == s.rows[id := s'.rows[id]]
  {
  }

  // ---------- partial updates compose ----------

  /** Two partial writes are one: later fields override earlier ones. */
  lemma WritesCompose(row: Fields, first: Fields, second: Fields, columns: seq<Column>)
    ensures (row + Picked(first, columns)) + Picked(second, columns) == row + Picked(first + second, columns)
  {
    assert Picked(first + second, columns) == Picked(first, columns) + Picked(second, columns);
  }

  lemma TakenIgnoresTheRowItself(rows: map<AttendeeId, Attendee>, id: AttendeeId, row: Attendee, org: OrgId, email: Value)
    ensures Taken(rows[id := row], id, org, email) == Taken(rows, id, org, email)
  {
    var after := rows[id := row];
    assert forall i :: i != id ==> HasEmail(after, i, org, email) == HasEmail(rows, i, org, email);
  }

  lemma NullsOfBoth(first: Fields, second: Fields, columns: seq<Column>)
    requires NullsOk(first, columns) && NullsOk(second, columns)
    ensures NullsOk(first + second, columns)
  {
  }

  lemma BothUpdatesAllowOne(s: State, id: AttendeeId, first: Fields, second: Fields, org: Option<OrgId>)
    requires Update(s, id, first, org).1.Ok?
    requires Update(Update(s, id, first, org).0, id, second, org).1.Ok?
    ensures Update(s, id, first + second, org).1.Ok?
  {
    var s1 := Update(s, id, first, org).0;
    WrittenAddressWasFree(s, id, first, org);
    WrittenAddressWasFree(s1, id, second, org);
    WrittenAddressWasFree(s, id, first + second, org);
    NullsOfBoth(first, second, EDITABLE);
    if Email in second {
      TakenIgnoresTheRowItself(s.rows, id, s1.rows[id], s.rows[id].org, second[Email]);
    }
  }

  lemma UpdatedRows(s: State, id: AttendeeId, dto: Fields, org: Option<OrgId>)
    requires Update(s, id, dto, org).1.Ok?
    ensures id in s.rows && Update(s, id, dto, org).0.rows
      == s.rows[id := Attendee(s.rows[id].org, s.rows[id].columns + Picked(dto, EDITABLE))]
  {
  }

  /** Two updates in a row leave the table of one update with the fields of both, the later ones winning. */
  lemma TwoUpdatesAreOne(s: State, id: AttendeeId, first: Fields, second: Fields, org: Option<OrgId>)
    requires Update(s, id, first, org).1.Ok?
    requires Update(Update(s, id, first, org).0, id, second, org).1.Ok?
    ensures Update(s, id, first + second, org).1.Ok?
    ensures Update(s, id, first + second, org).0.rows == Update(Update(s, id, first, org).0, id, second, org).0.rows
  {
    BothUpdatesAllowOne(s, id, first, second, org);
    UpdatedRows(s, id, first, org);
    UpdatedRows(Update(s, id, first, org).0, id, second, org);
    UpdatedRows(s, id, first + second, org);
    WritesCompose(s.rows[id].columns, first, second, EDITABLE);
  }

  lemma UpsertedRowIsFound(s: State, org: OrgId, email: string, dto: Fields)
    requires Inv(s) && NullsOk(dto, DETAILS)
    ensures
      var s', id := Upsert(s, org, email, dto).0, UpsertTarget(s, org, email);
      && UpsertTarget(s', org, email) == id
      && Base(s', org, email) == Base(s, org, email) + Picked(dto, DETAILS)
  {
    var s', id := Upsert(s, org, email, dto).0, UpsertTarget(s, org, email);
    UpsertHasShape(s, org, email, dto);
    UpsertedRowIsComplete(s, org, email, dto);
    UpsertKeepsInv(s, org, email, dto);
    var found := ByEmail(s'.rows, org, Text(email), s'.next);
    assert HasEmail(s'.rows, id, org, Text(email)) && id < s'.next;
    assert found.Some?;
  }

  lemma ShapesCompose(s: State, s1: State, s2: State, id: AttendeeId, org: OrgId, first: Fields, second: Fields)
    requires UpsertShape(s, s1, id, org, first) && UpsertShape(s1, s2, id, org, second)
    ensures s2.rows == s.rows[id := Attendee(org, second)]
    ensures |History(s2.log, id)| == |History(s.log, id)| + 2
  {
    var a: Note :| s1.log == s.log + [Revision(id, Attendee(org, first), a)];
    var b: Note :| s2.log == s1.log + [Revision(id, Attendee(org, second), b)];
    HistoryAfterAppend(s.log, Revision(id, Attendee(org, first), a), id);
    HistoryAfterAppend(s1.log, Revision(id, Attendee(org, second), b), id);
  }

  /** Creating the same attendee again updates it: the same row, the fields of both requests, and a second revision. */
  lemma UpsertTwice(s: State, org: OrgId, email: string, first: Fields, second: Fields)
    requires Inv(s) && NullsOk(first, DETAILS) && NullsOk(second, DETAILS)
    ensures
      var id, s1 := UpsertTarget(s, org, email), Upsert(s, org, email, first).0;
      var (s2, r) := Upsert(s1, org, email, second);
      && Upsert(s, org, email, first).1 == r == Ok(id)
      && Upsert(s, org, email, first + second).1 == Ok(id)
      && s2.rows == Upsert(s, org, email, first + second).0.rows
      && |History(s2.log, id)| == |History(s.log, id)| + 2
  {
    var id, s1 := UpsertTarget(s, org, email), Upsert(s, org, email, first).0;
    var s2 := Upsert(s1, org, email, second).0;
    UpsertedRowIsFound(s, org, email, first);
    NullsOfBoth(first, second, DETAILS);
    UpsertHasShape(s, org, email, first);
    UpsertHasShape(s, org, email, first + second);
    UpsertHasShape(s1, org, email, second);
    var base := Base(s, org, email);
    WritesCompose(base, first, second, DETAILS);
    ShapesCompose(s, s1, s2, id, org, base + Picked(first, DETAILS), Base(s1, org, email) + Picked(second, DETAILS));
  }
}
