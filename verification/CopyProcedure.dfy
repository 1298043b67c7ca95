// `copy_persona_template` as it runs: guards, the map of ids, then table after table in one transaction.

module CopyProcedure {
  import opened Basics
  import opened Schema
  import opened PersonaCopy

  /** A listing of a table's rows, in whatever order the database scans them. */
  predicate Lists(db: Database, t: Table, order: seq<Id>) {
    && (forall i :: 0 <= i < |order| ==> order[i] in Rows(db, t))
    && (forall id :: id in Rows(db, t) ==> id in order)
    && (forall i, j :: 0 <= i < j < |order| ==> order[i] != order[j])
  }

  // ------------------------------------------------------------------ one table

  /** The statement can be seen to succeed before the call: the table's rows fit, and their generated
      ids are new and distinct. */
  ghost predicate TableFits(from: Database, call: Call, t: Table) {
    RowsFit(Rows(from, t), from, call, t)
  }

  /** This row of the scan has been inserted. */
  predicate Placed(before: map<Id, Row>, rows: map<Id, Row>, db: Database, from: Database, call: Call, t: Table, id: Id)
    requires id in Rows(from, t)
  {
    var row := Rows(from, t)[id];
    && NewId(call, t, id) in rows && NewId(call, t, id) !in before
    && rows[NewId(call, t, id)] == CopiedRow(from, call, t, row)
    && RowInserts(db, from, call, t, row, id)
  }

  ghost predicate CameFrom(from: Database, call: Call, t: Table, scanned: seq<Id>, k: Id) {
    exists id :: id in scanned && Selected(from, call, t, id) && NewId(call, t, id) == k
  }

  ghost predicate Keeps(before: map<Id, Row>, rows: map<Id, Row>) {
    forall k :: k in before ==> k in rows && rows[k] == before[k]
  }

  ghost predicate AllPlaced(before: map<Id, Row>, rows: map<Id, Row>, db: Database, from: Database, call: Call,
                            t: Table, scanned: seq<Id>) {
    forall id :: id in scanned && Selected(from, call, t, id) ==> Placed(before, rows, db, from, call, t, id)
  }

  ghost predicate AllCameFrom(before: map<Id, Row>, rows: map<Id, Row>, from: Database, call: Call, t: Table,
                              scanned: seq<Id>) {
    forall k :: k in rows && k !in before ==> CameFrom(from, call, t, scanned, k)
  }

  ghost predicate AllApart(from: Database, call: Call, t: Table, scanned: seq<Id>) {
    forall a, b ::
      a in scanned && b in scanned && a != b && Selected(from, call, t, a) && Selected(from, call, t, b) ==>
      Apart(from, call, t, a, b)
  }

  /** What is there when these rows of the scan have been inserted. */
  ghost predicate Partly(before: map<Id, Row>, rows: map<Id, Row>, db: Database, from: Database, call: Call, t: Table,
                         scanned: seq<Id>)
  {
    && Keeps(before, rows) && AllPlaced(before, rows, db, from, call, t, scanned)
    && AllCameFrom(before, rows, from, call, t, scanned) && AllApart(from, call, t, scanned)
  }

  /** Neither the row's new id nor its slug is in use. */
  predicate Unused(rows: map<Id, Row>, call: Call, t: Table, id: Id, row: Row) {
    NewId(call, t, id) !in rows && !SlugTaken(rows, t, call.target, DatumIn(row, Slug))
  }

  lemma PassedOver(before: map<Id, Row>, rows: map<Id, Row>, db: Database, from: Database, call: Call, t: Table,
                   scanned: seq<Id>, id: Id)
    requires Partly(before, rows, db, from, call, t, scanned) && !Selected(from, call, t, id)
    ensures Partly(before, rows, db, from, call, t, scanned + [id])
  {
    NonePlaced(before, rows, db, from, call, t, scanned, id);
    forall k | k in rows && k !in before ensures CameFrom(from, call, t, scanned + [id], k) {
      assert CameFrom(from, call, t, scanned, k);
      StillCameFrom(from, call, t, scanned, id, k);
    }
  }

  lemma NonePlaced(before: map<Id, Row>, rows: map<Id, Row>, db: Database, from: Database, call: Call, t: Table,
                   scanned: seq<Id>, id: Id)
    requires AllPlaced(before, rows, db, from, call, t, scanned) && AllApart(from, call, t, scanned)
    requires !Selected(from, call, t, id)
    ensures AllPlaced(before, rows, db, from, call, t, scanned + [id]) && AllApart(from, call, t, scanned + [id])
  {
  }

  lemma StillCameFrom(from: Database, call: Call, t: Table, scanned: seq<Id>, id: Id, k: Id)
    requires CameFrom(from, call, t, scanned, k)
    ensures CameFrom(from, call, t, scanned + [id], k)
  {
    var a :| a in scanned && Selected(from, call, t, a) && NewId(call, t, a) == k;
    assert a in scanned + [id];
  }

  lemma MorePlaced(before: map<Id, Row>, rows: map<Id, Row>, db: Database, from: Database, call: Call, t: Table,
                   scanned: seq<Id>, id: Id, row: Row)
    requires AllPlaced(before, rows, db, from, call, t, scanned) && Keeps(before, rows)
    requires Selected(from, call, t, id) && row == CopiedRow(from, call, t, Rows(from, t)[id])
    requires RowInserts(db, from, call, t, Rows(from, t)[id], id) && Unused(rows, call, t, id, row)
    ensures AllPlaced(before, rows[NewId(call, t, id) := row], db, from, call, t, scanned + [id])
  {
    var more := rows[NewId(call, t, id) := row];
    forall a | a in scanned && Selected(from, call, t, a) ensures Placed(before, more, db, from, call, t, a) {
      assert Placed(before, rows, db, from, call, t, a);
    }
    assert Placed(before, more, db, from, call, t, id);
  }

  lemma MoreApart(before: map<Id, Row>, rows: map<Id, Row>, db: Database, from: Database, call: Call, t: Table,
                  scanned: seq<Id>, id: Id)
    requires AllPlaced(before, rows, db, from, call, t, scanned) && AllApart(from, call, t, scanned)
    requires Selected(from, call, t, id) && Unused(rows, call, t, id, CopiedRow(from, call, t, Rows(from, t)[id]))
    ensures AllApart(from, call, t, scanned + [id])
  {
    forall a | a in scanned && Selected(from, call, t, a)
      ensures Apart(from, call, t, a, id) && Apart(from, call, t, id, a) {
      assert Placed(before, rows, db, from, call, t, a);
      PlacedIsApart(rows, from, call, t, a, id);
    }
  }

  lemma PlacedIsApart(rows: map<Id, Row>, from: Database, call: Call, t: Table, a: Id, id: Id)
    requires a in Rows(from, t) && id in Rows(from, t)
    requires NewId(call, t, a) in rows && rows[NewId(call, t, a)] == CopiedRow(from, call, t, Rows(from, t)[a])
    requires Unused(rows, call, t, id, CopiedRow(from, call, t, Rows(from, t)[id]))
    ensures Apart(from, call, t, a, id) && Apart(from, call, t, id, a)
  {
  }

  lemma MoreCameFrom(before: map<Id, Row>, rows: map<Id, Row>, from: Database, call: Call, t: Table,
                     scanned: seq<Id>, id: Id, row: Row)
    requires AllCameFrom(before, rows, from, call, t, scanned) && Selected(from, call, t, id)
    ensures AllCameFrom(before, rows[NewId(call, t, id) := row], from, call, t, scanned + [id])
  {
    var more := rows[NewId(call, t, id) := row];
    forall k | k in more && k !in before ensures CameFrom(from, call, t, scanned + [id], k) {
      if k in rows {
        assert CameFrom(from, call, t, scanned, k);
        StillCameFrom(from, call, t, scanned, id, k);
      } else {
        assert id in scanned + [id];
      }
    }
  }

  lemma OneMore(before: map<Id, Row>, rows: map<Id, Row>, db: Database, from: Database, call: Call, t: Table,
                scanned: seq<Id>, id: Id, row: Row)
    requires Partly(before, rows, db, from, call, t, scanned) && Selected(from, call, t, id)
    requires row == CopiedRow(from, call, t, Rows(from, t)[id])
    requires RowInserts(db, from, call, t, Rows(from, t)[id], id) && Unused(rows, call, t, id, row)
    ensures Partly(before, rows[NewId(call, t, id) := row], db, from, call, t, scanned + [id])
  {
    MorePlaced(before, rows, db, from, call, t, scanned, id, row);
    MoreApart(before, rows, db, from, call, t, scanned, id);
    MoreCameFrom(before, rows, from, call, t, scanned, id, row);
  }

  /** The id or the slug is in use by a row that was there, or by an earlier row of the statement. */
  lemma InUseFails(before: map<Id, Row>, rows: map<Id, Row>, db: Database, from: Database, call: Call, t: Table,
                   scanned: seq<Id>, id: Id)
    requires Partly(before, rows, db, from, call, t, scanned) && before == Rows(db, t)
    requires id !in scanned && Selected(from, call, t, id)
    requires !Unused(rows, call, t, id, CopiedRow(from, call, t, Rows(from, t)[id]))
    ensures !InsertOk(db, from, call, t)
  {
    var k := UsedBy(rows, call, t, id, CopiedRow(from, call, t, Rows(from, t)[id]));
    if k in before {
      OldRowInUse(before, rows, db, from, call, t, id, k);
    } else {
      assert CameFrom(from, call, t, scanned, k);
      var a :| a in scanned && Selected(from, call, t, a) && NewId(call, t, a) == k;
      assert Placed(before, rows, db, from, call, t, a);
      NewRowInUse(rows, db, from, call, t, id, a);
    }
  }

  predicate Uses(call: Call, t: Table, id: Id, row: Row, k: Id, other: Row) {
    k == NewId(call, t, id)
    || (HasSlug(t) && DatumIn(row, Slug).Some? && other.ws == call.target && DatumIn(other, Slug) == DatumIn(row, Slug))
  }

  lemma OldRowInUse(before: map<Id, Row>, rows: map<Id, Row>, db: Database, from: Database, call: Call, t: Table,
                    id: Id, k: Id)
    requires Keeps(before, rows) && before == Rows(db, t) && k in before && Selected(from, call, t, id)
    requires k in rows && Uses(call, t, id, CopiedRow(from, call, t, Rows(from, t)[id]), k, rows[k])
    ensures !InsertOk(db, from, call, t)
  {
    assert rows[k] == before[k];
    assert !RowInserts(db, from, call, t, Rows(from, t)[id], id);
  }

  lemma NewRowInUse(rows: map<Id, Row>, db: Database, from: Database, call: Call, t: Table, id: Id, a: Id)
    requires Selected(from, call, t, id) && Selected(from, call, t, a) && a != id
    requires NewId(call, t, a) in rows && rows[NewId(call, t, a)] == CopiedRow(from, call, t, Rows(from, t)[a])
    requires Uses(call, t, id, CopiedRow(from, call, t, Rows(from, t)[id]), NewId(call, t, a), rows[NewId(call, t, a)])
    ensures !InsertOk(db, from, call, t)
  {
    assert !Apart(from, call, t, a, id);
  }

  lemma UsedBy(rows: map<Id, Row>, call: Call, t: Table, id: Id, row: Row) returns (k: Id)
    requires !Unused(rows, call, t, id, row)
    ensures k in rows && Uses(call, t, id, row, k, rows[k])
  {
    if NewId(call, t, id) in rows {
      k := NewId(call, t, id);
    } else {
      k :| k in rows && rows[k].ws == call.target && DatumIn(rows[k], Slug) == DatumIn(row, Slug);
    }
  }

  lemma RowFails(db: Database, from: Database, call: Call, t: Table, id: Id)
    requires Selected(from, call, t, id) && !RowInserts(db, from, call, t, Rows(from, t)[id], id)
    ensures !InsertOk(db, from, call, t)
  {
  }

  lemma FreeInserts(before: map<Id, Row>, rows: map<Id, Row>, db: Database, from: Database, call: Call, t: Table,
                    id: Id, row: Row)
    requires Keeps(before, rows) && before == Rows(db, t) && id in Rows(from, t)
        && row == CopiedRow(from, call, t, Rows(from, t)[id])
    requires Unused(rows, call, t, id, row) && Fits(from, call, t, Rows(from, t)[id]) && RowOk(db, t, row)
    ensures RowInserts(db, from, call, t, Rows(from, t)[id], id)
  {
  }

  lemma NothingFailed(before: map<Id, Row>, rows: map<Id, Row>, db: Database, from: Database, call: Call, t: Table,
                      order: seq<Id>)
    requires AllPlaced(before, rows, db, from, call, t, order) && AllApart(from, call, t, order)
    requires Lists(from, t, order) && before == Rows(db, t)
    ensures InsertOk(db, from, call, t)
  {
    forall id | Selected(from, call, t, id) ensures Placed(before, rows, db, from, call, t, id) {
      assert id in order;
    }
  }

  lemma PlacedRow(before: map<Id, Row>, rows: map<Id, Row>, db: Database, from: Database, call: Call, t: Table,
                  order: seq<Id>, id: Id)
    requires AllPlaced(before, rows, db, from, call, t, order) && Lists(from, t, order) && Selected(from, call, t, id)
    ensures NewId(call, t, id) in rows && NewId(call, t, id) !in before
    ensures rows[NewId(call, t, id)] == CopiedRow(from, call, t, Rows(from, t)[id])
  {
    assert id in order;
    assert Placed(before, rows, db, from, call, t, id);
  }

  lemma ApartIds(from: Database, call: Call, t: Table, order: seq<Id>, a: Id, b: Id)
    requires AllApart(from, call, t, order) && Lists(from, t, order)
    requires Selected(from, call, t, a) && Selected(from, call, t, b) && a != b
    ensures NewId(call, t, a) != NewId(call, t, b)
  {
    assert a in order && b in order;
    assert Apart(from, call, t, a, b);
  }

  lemma CameFromTemplate(from: Database, call: Call, t: Table, order: seq<Id>, k: Id)
    requires CameFrom(from, call, t, order, k)
    ensures exists id :: Selected(from, call, t, id) && NewId(call, t, id) == k
  {
    var id :| id in order && Selected(from, call, t, id) && NewId(call, t, id) == k;
  }

  lemma AllInserted(before: map<Id, Row>, rows: map<Id, Row>, db: Database, from: Database, call: Call, t: Table,
                    order: seq<Id>)
    requires Partly(before, rows, db, from, call, t, order) && Lists(from, t, order)
    ensures Inserted(before, rows, from, call, t)
  {
    forall id | Selected(from, call, t, id)
      ensures NewId(call, t, id) in rows && NewId(call, t, id) !in before
           && rows[NewId(call, t, id)] == CopiedRow(from, call, t, Rows(from, t)[id]) {
      PlacedRow(before, rows, db, from, call, t, order, id);
    }
    forall k | k in rows && k !in before ensures exists id :: Selected(from, call, t, id) && NewId(call, t, id) == k {
      CameFromTemplate(from, call, t, order, k);
    }
    forall a, b | Selected(from, call, t, a) && Selected(from, call, t, b) && a != b
      ensures NewId(call, t, a) != NewId(call, t, b) {
      ApartIds(from, call, t, order, a, b);
    }
  }

  lemma ScanStep(db: Database, t: Table, order: seq<Id>, i: nat)
    requires Lists(db, t, order) && i < |order|
    ensures order[..i + 1] == order[..i] + [order[i]] && order[i] !in order[..i]
  {
  }

  lemma DescribedKeys(from: Database, call: Call)
    ensures Described(from, call).Keys == Rows(from, Entities).Keys
  {
  }

  /** A table's own statement depends only on the template, not on what was copied before it. */
  lemma OwnStatement(from: Database, call: Call, db: Database, t: Table)
    requires Intact(from) && IsSelfOf(from, call.template, call.selfOld) && IsSelfOf(from, call.target, call.selfNew)
    requires IsCopied(t) && t != Entities && CopiedTo(from, call, db, CopyPosition(t))
    ensures InsertOk(db, from, call, t) <==> TableFits(from, call, t)
    ensures Rows(db, t) == Base(from, call, t)
  {
    InsertInPlace(from, call, db, t);
    assert Rows(db, t) == Rows(from, t);
  }

  lemma EntitiesStatement(from: Database, call: Call, db: Database)
    requires Rows(db, Entities) == Described(from, call)
    ensures InsertOk(db, from, call, Entities) <==> TableFits(from, call, Entities)
  {
    DescribedKeys(from, call);
    forall id ensures Selected(from, call, Entities, id) <==> IsSource(from, call, Entities, id) {
    }
    forall row: Row ensures RowOk(db, Entities, row) {
      forall r ensures RefOk(db, Entities, row, r) {
        SelfHasNoKeys(Entities, r);
      }
    }
  }

  lemma NextTable(from: Database, call: Call, before: Database, after: Database, t: Table, k: nat)
    requires IsCopied(t) && k == CopyPosition(t) && CopiedTo(from, call, before, k)
    requires Inserted(Base(from, call, t), Rows(after, t), from, call, t)
    requires forall u :: u != t ==> Rows(after, u) == Rows(before, u)
    ensures CopiedTo(from, call, after, k + 1)
  {
    forall u ensures
      if CopyPosition(u) < k + 1 && IsCopied(u) then Inserted(Base(from, call, u), Rows(after, u), from, call, u)
      else Rows(after, u) == Rows(from, u)
    {
      if u != t {
        OtherTable(from, call, before, after, t, u);
      }
    }
  }

  lemma OtherTable(from: Database, call: Call, before: Database, after: Database, t: Table, u: Table)
    requires IsCopied(t) && CopiedTo(from, call, before, CopyPosition(t)) && u != t && Rows(after, u) == Rows(before, u)
    ensures
      if CopyPosition(u) < CopyPosition(t) + 1 && IsCopied(u) then
        Inserted(Base(from, call, u), Rows(after, u), from, call, u)
      else Rows(after, u) == Rows(from, u)
  {
    PositionsDiffer(t, u);
  }

  lemma PositionsDiffer(t: Table, u: Table)
    ensures IsCopied(t) && IsCopied(u) && CopyPosition(t) == CopyPosition(u) ==> t == u
  {
  }

  /** The database when it is this table's turn to be copied. */
  ghost predicate TurnOf(t: Table, from: Database, call: Call, db: Database) {
    CopiedTo(from, call, db, CopyPosition(t)) && Whole(db) && db.workspaces == from.workspaces && db.users == from.users
  }

  lemma NextTurn(from: Database, call: Call, before: Database, after: Database, t: Table, next: Table)
    requires IsCopied(t) && TurnOf(t, from, call, before) && CopyPosition(next) == CopyPosition(t) + 1
    requires Inserted(Base(from, call, t), Rows(after, t), from, call, t) && Whole(after)
    requires forall u :: u != t ==> Rows(after, u) == Rows(before, u)
    requires after.workspaces == before.workspaces && after.users == before.users
    ensures TurnOf(next, from, call, after)
  {
    NextTable(from, call, before, after, t, CopyPosition(t));
  }

  lemma DescribedFirst(from: Database, call: Call, before: Database, after: Database)
    requires TurnOf(Entities, from, call, before)
        && after == before.(tables := before.tables[Entities := Described(from, call)])
    ensures Whole(after) && Rows(after, Entities) == Base(from, call, Entities)
    ensures forall u :: u != Entities ==> Rows(after, u) == Rows(before, u)
    ensures InsertOk(after, from, call, Entities) <==> TableFits(from, call, Entities)
  {
    EntitiesStatement(from, call, after);
  }

  ghost predicate MayCopy(from: Database, call: Call) {
    Intact(from) && IsSelfOf(from, call.template, call.selfOld) && IsSelfOf(from, call.target, call.selfNew)
  }

  /** One row of a scan: it is passed over, inserted under its new id, or it raises. */
  method InsertRow(ghost before: map<Id, Row>, rows: map<Id, Row>, db: Database, from: Database, call: Call, t: Table,
                   ghost scanned: seq<Id>, id: Id)
    returns (ok: bool, more: map<Id, Row>)
    requires Partly(before, rows, db, from, call, t, scanned) && before == Rows(db, t)
    requires id !in scanned && id in Rows(from, t)
    ensures ok ==> Partly(before, more, db, from, call, t, scanned + [id])
    ensures !ok ==> !InsertOk(db, from, call, t)
  {
    ok, more := true, rows;
    if !Selected(from, call, t, id) {
      PassedOver(before, rows, db, from, call, t, scanned, id);
      return;
    }
    var row := CopiedRow(from, call, t, Rows(from, t)[id]);
    if !Unused(rows, call, t, id, row) {
      InUseFails(before, rows, db, from, call, t, scanned, id);
      ok := false;
      return;
    }
    if !Fits(from, call, t, Rows(from, t)[id]) || !RowOk(db, t, row) {
      RowFails(db, from, call, t, id);
      ok := false;
      return;
    }
    FreeInserts(before, rows, db, from, call, t, id, row);
    OneMore(before, rows, db, from, call, t, scanned, id, row);
    more := rows[NewId(call, t, id) := row];
  }

  /** One transaction: once a statement has raised, the rest do nothing. */
  class Transaction {
    var db: Database
    var failed: bool

    constructor (db: Database)
      ensures this.db == db && !failed
    {
      this.db, failed := db, false;
    }

    /** One `INSERT ... SELECT`: a scan of the template's table, a row at a time. */
    method InsertSelect(t: Table, from: Database, call: Call, order: seq<Id>)
      requires !failed && Whole(db) && Lists(from, t, order)
      modifies this
      ensures failed <==> !InsertOk(old(db), from, call, t)
      ensures !failed ==> Inserted(Rows(old(db), t), Rows(db, t), from, call, t)
      ensures db.workspaces == old(db).workspaces && db.users == old(db).users && Whole(db)
      ensures forall u :: u != t ==> Rows(db, u) == Rows(old(db), u)
    {
      ghost var before := Rows(db, t);
      var rows := Rows(db, t);
      for i := 0 to |order|
        invariant !failed && db == old(db)
        invariant Partly(before, rows, db, from, call, t, order[..i])
      {
        ScanStep(from, t, order, i);
        var ok, more := InsertRow(before, rows, db, from, call, t, order[..i], order[i]);
        if !ok {
          failed := true;
          return;
        }
        rows := more;
      }
      assert order[..|order|] == order;
      NothingFailed(before, rows, db, from, call, t, order);
      AllInserted(before, rows, db, from, call, t, order);
      db := db.(tables := db.tables[t := rows]);
    }

    /** One table of the procedure, in its place. `next` is the table whose turn comes after. */
    method CopyTable(t: Table, from: Database, call: Call, order: seq<Id>, ghost next: Table)
      requires MayCopy(from, call) && Lists(from, t, order)
      requires IsCopied(t) && t != Entities && CopyPosition(next) == CopyPosition(t) + 1
      requires !failed ==> TurnOf(t, from, call, db)
      modifies this
      ensures failed <==> old(failed) || !TableFits(from, call, t)
      ensures !failed ==> TurnOf(next, from, call, db)
    {
      if !failed {
        OwnStatement(from, call, db, t);
        ghost var before := db;
        InsertSelect(t, from, call, order);
        if !failed {
          NextTurn(from, call, before, db, t, next);
        }
      }
    }

    /** The copy's own self entity is described, then the template's other entities are inserted. */
    method CopyEntities(from: Database, call: Call, order: seq<Id>)
      requires MayCopy(from, call) && Lists(from, Entities, order)
      requires !failed ==> TurnOf(Entities, from, call, db)
      modifies this
      ensures failed <==> old(failed) || !TableFits(from, call, Entities)
      ensures !failed ==> TurnOf(MemoryItems, from, call, db)
    {
      if !failed {
        ghost var before := db;
        db := db.(tables := db.tables[Entities := Described(from, call)]);
        DescribedFirst(from, call, before, db);
        InsertSelect(Entities, from, call, order);
        if !failed {
          NextTurn(from, call, before, db, Entities, MemoryItems);
        }
      }
    }
  }

  // ------------------------------------------------------------------ the call

  method FindSelf(db: Database, ws: Id, order: seq<Id>) returns (found: Option<Id>)
    requires Lists(db, Entities, order)
    ensures found.Some? ==> IsSelfOf(db, ws, found.value)
    ensures found.None? ==> forall id :: !IsSelfOf(db, ws, id)
  {
    for i := 0 to |order|
      invariant forall j :: 0 <= j < i ==> !IsSelfOf(db, ws, order[j])
    {
      if IsSelfOf(db, ws, order[i]) {
        return Some(order[i]);
      }
    }
    forall id ensures !IsSelfOf(db, ws, id) {
      if id in Rows(db, Entities) {
        assert id in order;
      }
    }
    found := None;
  }

  ghost predicate TurnsFit(from: Database, call: Call) {
    && TableFits(from, call, VocabTerms) && TableFits(from, call, Categories) && TableFits(from, call, Turns)
    && TableFits(from, call, Entities) && TableFits(from, call, MemoryItems)
  }

  ghost predicate LinksFit(from: Database, call: Call) {
    && TableFits(from, call, MemoryEntities) && TableFits(from, call, MemoryLinks)
    && TableFits(from, call, EntityRelations)
  }

  ghost predicate KeysFit(from: Database, call: Call) {
    && TableFits(from, call, Triggers) && TableFits(from, call, MemoryKeys)
    && TableFits(from, call, LinkSources) && TableFits(from, call, ConversationKeys)
  }

  lemma FitsTableByTable(from: Database, call: Call, t: Table)
    requires TurnsFit(from, call) && LinksFit(from, call) && KeysFit(from, call) && IsCopied(t)
    ensures TableFits(from, call, t)
  {
    match t
    case VocabTerms => case Categories => case Turns => case Entities => case MemoryItems =>
    case MemoryEntities => case MemoryLinks => case EntityRelations => case Triggers => case MemoryKeys =>
    case LinkSources => case ConversationKeys =>
  }

  lemma SuccessFits(from: Database, call: Call, t: Table)
    requires Succeeds(from, call) && IsCopied(t)
    ensures TableFits(from, call, t)
  {
  }

  lemma FitsSucceed(from: Database, call: Call)
    requires GuardsPass(from, call)
    requires IsSelfOf(from, call.template, call.selfOld) && IsSelfOf(from, call.target, call.selfNew)
    requires forall t :: IsCopied(t) ==> TableFits(from, call, t)
    ensures Succeeds(from, call)
  {
    forall t, id | IsCopied(t) && IsSource(from, call, t, id)
      ensures RowFits(Rows(from, t), from, call, t, Rows(from, t)[id], id) {
      assert TableFits(from, call, t);
    }
    forall t, a, b | IsCopied(t) && IsSource(from, call, t, a) && IsSource(from, call, t, b) && a != b
      ensures NewId(call, t, a) != NewId(call, t, b) {
      assert TableFits(from, call, t);
    }
  }

  lemma PartsSucceed(from: Database, call: Call)
    requires GuardsPass(from, call)
    requires IsSelfOf(from, call.template, call.selfOld) && IsSelfOf(from, call.target, call.selfNew)
    requires TurnsFit(from, call) && LinksFit(from, call) && KeysFit(from, call)
    ensures Succeeds(from, call)
  {
    forall t | IsCopied(t) ensures TableFits(from, call, t) {
      FitsTableByTable(from, call, t);
    }
    FitsSucceed(from, call);
  }

  lemma SuccessFitsParts(from: Database, call: Call)
    requires Succeeds(from, call)
    ensures TurnsFit(from, call) && LinksFit(from, call) && KeysFit(from, call)
  {
    forall t | IsCopied(t) ensures TableFits(from, call, t) {
      SuccessFits(from, call, t);
    }
    EveryTableFits(from, call);
  }

  lemma EveryTableFits(from: Database, call: Call)
    requires forall t :: IsCopied(t) ==> TableFits(from, call, t)
    ensures TurnsFit(from, call) && LinksFit(from, call) && KeysFit(from, call)
  {
    EveryTurnFits(from, call);
    EveryLinkFits(from, call);
    EveryKeyFits(from, call);
  }

  lemma EveryTurnFits(from: Database, call: Call)
    requires forall t :: IsCopied(t) ==> TableFits(from, call, t)
    ensures TurnsFit(from, call)
  {
    assert IsCopied(VocabTerms) && IsCopied(Categories) && IsCopied(Turns) && IsCopied(Entities)
        && IsCopied(MemoryItems);
  }

  lemma EveryLinkFits(from: Database, call: Call)
    requires forall t :: IsCopied(t) ==> TableFits(from, call, t)
    ensures LinksFit(from, call)
  {
    assert IsCopied(MemoryEntities) && IsCopied(MemoryLinks) && IsCopied(EntityRelations);
  }

  lemma EveryKeyFits(from: Database, call: Call)
    requires forall t :: IsCopied(t) ==> TableFits(from, call, t)
    ensures KeysFit(from, call)
  {
    assert IsCopied(Triggers) && IsCopied(MemoryKeys) && IsCopied(LinkSources) && IsCopied(ConversationKeys);
  }

  /** The call succeeds exactly when every table's statement does. */
  lemma SucceedsInParts(from: Database, call: Call)
    requires GuardsPass(from, call)
    requires IsSelfOf(from, call.template, call.selfOld) && IsSelfOf(from, call.target, call.selfNew)
    ensures Succeeds(from, call) <==> TurnsFit(from, call) && LinksFit(from, call) && KeysFit(from, call)
  {
    if Succeeds(from, call) {
      SuccessFitsParts(from, call);
    }
    if TurnsFit(from, call) && LinksFit(from, call) && KeysFit(from, call) {
      PartsSucceed(from, call);
    }
  }

  method CopyTurns(tx: Transaction, from: Database, call: Call, order: Table -> seq<Id>)
    requires MayCopy(from, call) && (forall t :: Lists(from, t, order(t))) && !tx.failed
        && TurnOf(VocabTerms, from, call, tx.db)
    modifies tx
    ensures !tx.failed ==> TurnOf(MemoryEntities, from, call, tx.db)
    ensures !tx.failed <==> TurnsFit(from, call)
  {
    tx.CopyTable(VocabTerms, from, call, order(VocabTerms), Categories);
    tx.CopyTable(Categories, from, call, order(Categories), Turns);
    tx.CopyTable(Turns, from, call, order(Turns), Entities);
    tx.CopyEntities(from, call, order(Entities));
    tx.CopyTable(MemoryItems, from, call, order(MemoryItems), MemoryEntities);
  }

  method CopyLinks(tx: Transaction, from: Database, call: Call, order: Table -> seq<Id>)
    requires MayCopy(from, call) && (forall t :: Lists(from, t, order(t)))
    requires !tx.failed ==> TurnOf(MemoryEntities, from, call, tx.db)
    modifies tx
    ensures !tx.failed ==> TurnOf(Triggers, from, call, tx.db)
    ensures !tx.failed <==> !old(tx.failed) && LinksFit(from, call)
  {
    tx.CopyTable(MemoryEntities, from, call, order(MemoryEntities), MemoryLinks);
    tx.CopyTable(MemoryLinks, from, call, order(MemoryLinks), EntityRelations);
    tx.CopyTable(EntityRelations, from, call, order(EntityRelations), Triggers);
  }

  method CopyKeys(tx: Transaction, from: Database, call: Call, order: Table -> seq<Id>)
    requires MayCopy(from, call) && (forall t :: Lists(from, t, order(t)))
    requires !tx.failed ==> TurnOf(Triggers, from, call, tx.db)
    modifies tx
    ensures !tx.failed ==> TurnOf(UsageLedger, from, call, tx.db)
    ensures !tx.failed <==> !old(tx.failed) && KeysFit(from, call)
  {
    tx.CopyTable(Triggers, from, call, order(Triggers), MemoryKeys);
    tx.CopyTable(MemoryKeys, from, call, order(MemoryKeys), LinkSources);
    tx.CopyTable(LinkSources, from, call, order(LinkSources), ConversationKeys);
    tx.CopyTable(ConversationKeys, from, call, order(ConversationKeys), UsageLedger);
  }

  lemma StartsToCopy(from: Database, call: Call)
    requires Whole(from)
    ensures TurnOf(VocabTerms, from, call, from)
  {
  }

  /** No self entities would make this call succeed. */
  ghost predicate CannotSucceed(from: Database, call: Call) {
    forall a, b :: !Succeeds(from, call.(selfOld := a, selfNew := b))
  }

  lemma GuardsStop(from: Database, call: Call)
    requires !GuardsPass(from, call)
    ensures CannotSucceed(from, call)
  {
    forall a, b ensures !Succeeds(from, call.(selfOld := a, selfNew := b)) {
      assert !GuardsPass(from, call.(selfOld := a, selfNew := b));
    }
  }

  lemma SelfIsMissing(from: Database, call: Call)
    requires (forall id :: !IsSelfOf(from, call.template, id)) || (forall id :: !IsSelfOf(from, call.target, id))
    ensures CannotSucceed(from, call)
  {
    forall a, b ensures !Succeeds(from, call.(selfOld := a, selfNew := b)) {
      assert !IsSelfOf(from, call.template, a) || !IsSelfOf(from, call.target, b);
    }
  }

  /** A target that is otherwise as it should be, but has one of the template's slugs, cannot be filled. */
  lemma TakenSlugStopsTheCopy(from: Database, call: Call, t: Table, id: Id, k: Id)
    requires HasSlug(t) && id in Rows(from, t) && Rows(from, t)[id].ws == call.template
    requires k in Rows(from, t) && Rows(from, t)[k].ws == call.target
    requires Slug in Rows(from, t)[id].data && DatumIn(Rows(from, t)[k], Slug) == DatumIn(Rows(from, t)[id], Slug)
    ensures CannotSucceed(from, call)
  {
    forall a, b ensures !Succeeds(from, call.(selfOld := a, selfNew := b)) {
      var other := call.(selfOld := a, selfNew := b);
      assert SlugTaken(Rows(from, t), t, other.target, DatumIn(Rows(from, t)[id], Slug));
      assert IsSource(from, other, t, id) && !SlugIsFree(Rows(from, t), other, t, Rows(from, t)[id]);
    }
  }

  lemma SelvesAreTheSelves(from: Database, call: Call)
    requires Intact(from) && !Succeeds(from, call)
    requires IsSelfOf(from, call.template, call.selfOld) && IsSelfOf(from, call.target, call.selfNew)
    ensures CannotSucceed(from, call)
  {
    forall a, b ensures !Succeeds(from, call.(selfOld := a, selfNew := b)) {
      var other := call.(selfOld := a, selfNew := b);
      if IsSelfOf(from, call.template, a) && IsSelfOf(from, call.target, b) {
        assert other == call;
      }
    }
  }

  /** `copy_persona_template`. It raises, and changes nothing, exactly when the call cannot succeed;
      otherwise it leaves the copy. */
  method CopyPersonaTemplate(tx: Transaction, template: Id, target: Id, user: Id, days: int, now: int,
                             newId: (Table, Id) -> Id, order: Table -> seq<Id>)
    returns (raised: bool, ghost call: Call)
    requires Intact(tx.db) && !tx.failed && forall t :: Lists(tx.db, t, order(t))
    modifies tx
    ensures call == Call(template, target, user, days, now, newId, call.selfOld, call.selfNew)
    ensures raised ==> tx.db == old(tx.db) && CannotSucceed(old(tx.db), call)
    ensures !raised ==> Succeeds(old(tx.db), call) && CopyOf(old(tx.db), call, tx.db)
  {
    var from := tx.db;
    raised := true;
    call := Call(template, target, user, days, now, newId, 0, 0);
    if days < 0 {
      GuardsStop(from, call);
      return;
    }
    if !(template in from.workspaces && from.workspaces[template].kind == "template") {
      GuardsStop(from, call);
      return;
    }
    if !(target in from.workspaces && from.workspaces[target].owner == user
         && from.workspaces[target].kind == "persona_copy") {
      GuardsStop(from, call);
      return;
    }
    if !EmptyOf(from, MemoryItems, target) || !EmptyOf(from, Turns, target) {
      GuardsStop(from, call);
      return;
    }
    var selfOld := FindSelf(from, template, order(Entities));
    var selfNew := FindSelf(from, target, order(Entities));
    if selfOld.None? || selfNew.None? {
      SelfIsMissing(from, call);
      return;
    }
    var mine := Call(template, target, user, days, now, newId, selfOld.value, selfNew.value);
    call := mine;
    var failed := CopyAll(tx, from, mine, order);
    if failed {
      tx.db := from;
      SelvesAreTheSelves(from, mine);
      return;
    }
    tx.db := tx.db.(workspaces := Marked(from, mine));
    raised := false;
  }

  method CopyAll(tx: Transaction, from: Database, call: Call, order: Table -> seq<Id>) returns (failed: bool)
    requires MayCopy(from, call) && GuardsPass(from, call) && (forall t :: Lists(from, t, order(t)))
    requires !tx.failed && tx.db == from
    modifies tx
    ensures failed == !Succeeds(from, call)
    ensures !failed ==> TurnOf(UsageLedger, from, call, tx.db)
  {
    StartsToCopy(from, call);
    CopyTurns(tx, from, call, order);
    CopyLinks(tx, from, call, order);
    CopyKeys(tx, from, call, order);
    failed := tx.failed;
    SucceedsInParts(from, call);
  }
}
