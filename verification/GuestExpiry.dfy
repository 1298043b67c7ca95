// Emptying the workspaces of old guests: seventeen deletes in an order that needs no cascade, and a
// ledger that keeps its costs.

module GuestExpiry {
  import opened Basics
  import opened Schema

  const NO_DESCRIPTION := Text("aliases [], labels [], attributes {}, no summary")

  const STATEMENTS := 17

  // ------------------------------------------------------------------ the statements in order

  /** When the table is emptied; the ledger never is. */
  function Position(t: Table): nat {
    match t
    case HeldWrites => 0 case ItemAccess => 1 case WriteLog => 2 case ItemVersions => 3 case LinkSources => 4
    case MemoryKeys => 5 case MemoryLinks => 6 case MemoryEntities => 7 case Triggers => 8 case EntityRelations => 9
    case MemoryItems => 10 case ConversationKeys => 11 case TurnEvents => 12 case Turns => 13 case Entities => 14
    case Categories => 15 case VocabTerms => 16 case UsageLedger => 17
  }

  function At(k: nat): Table
    requires k < STATEMENTS
    ensures Position(At(k)) == k
  {
    match k
    case 0 => HeldWrites case 1 => ItemAccess case 2 => WriteLog case 3 => ItemVersions case 4 => LinkSources
    case 5 => MemoryKeys case 6 => MemoryLinks case 7 => MemoryEntities case 8 => Triggers case 9 => EntityRelations
    case 10 => MemoryItems case 11 => ConversationKeys case 12 => TurnEvents case 13 => Turns case 14 => Entities
    case 15 => Categories case _ => VocabTerms
  }

  /** Children come before parents, for every key but the ledger's. */
  lemma ChildrenFirst(from: Table, c: Ref)
    ensures KeyOf(from, c).Some? && KeyOf(from, c).value.onDelete != SetNull ==>
      Position(from) < Position(KeyOf(from, c).value.to)
    ensures KeyOf(Entities, c).None?
    ensures KeyOf(from, c).Some? && KeyOf(from, c).value.onDelete == SetNull <==> from == UsageLedger && c == TurnId
    ensures KeyOf(UsageLedger, TurnId) == Some(ForeignKey(Turns, SetNull))
  {
  }

  /** `workspace_id = ANY(v_ids)`, and for entities not the self entity. */
  function Victims(db: Database, t: Table, v: set<Id>): set<Id> {
    set id | id in Rows(db, t) && Rows(db, t)[id].ws in v && !(t == Entities && IsSelf(Rows(db, t)[id]))
  }

  function ResetRow(row: Row): Row {
    row.(data := row.data[Description := NO_DESCRIPTION])
  }

  /** `UPDATE entities ... WHERE kind = 'self'`. */
  function ResetSelves(db: Database, v: set<Id>): Database {
    db.(tables := db.tables[Entities :=
      map id | id in Rows(db, Entities) ::
        if Rows(db, Entities)[id].ws in v && IsSelf(Rows(db, Entities)[id]) then ResetRow(Rows(db, Entities)[id])
        else Rows(db, Entities)[id]])
  }

  /** Statement k: a delete, and after the entities' one the update of the self entities. */
  function Statement(db: Database, v: set<Id>, k: nat): Outcome
    requires k < STATEMENTS
  {
    match Delete(db, At(k), Victims(db, At(k), v))
    case Aborted => Aborted
    case Applied(d) => Applied(if At(k) == Entities then ResetSelves(d, v) else d)
  }

  function RunTo(db: Database, v: set<Id>, k: nat): Outcome
    requires k <= STATEMENTS
  {
    if k == 0 then Applied(db)
    else match RunTo(db, v, k - 1)
      case Aborted => Aborted
      case Applied(d) => Statement(d, v, k - 1)
  }

  predicate IsDue(db: Database, w: Id, before: int)
    requires w in db.workspaces
  {
    var ws := db.workspaces[w];
    && ws.owner in db.users && db.users[ws.owner].tier == "guest" && db.users[ws.owner].createdAt < before
    && ws.expiredAt.None? && ws.kind in {"persona_copy", "scratch", "guest"}
  }

  function DueWorkspaces(db: Database, before: int): set<Id> {
    set w | w in db.workspaces && IsDue(db, w, before)
  }

  function MarkExpired(db: Database, v: set<Id>, now: int): Database {
    db.(workspaces := map w | w in db.workspaces ::
      if w in v then db.workspaces[w].(expiredAt := Some(now)) else db.workspaces[w])
  }

  datatype Expiry = Expired(db: Database, count: nat) | Raised

  /** `expire_guest_workspaces`. */
  function Expire(db: Database, before: int, now: int): Expiry {
    var v := DueWorkspaces(db, before);
    if v == {} then Expired(db, 0)
    else match RunTo(db, v, STATEMENTS)
      case Aborted => Raised
      case Applied(d) => Expired(MarkExpired(d, v, now), |v|)
  }

  // ------------------------------------------------------------------ what is left, said outright

  function Unlinked(row: Row): Row {
    row.(refs := row.refs - {TurnId})
  }

  function LeftRow(t: Table, row: Row, v: set<Id>, k: nat): Row {
    if row.ws !in v then row
    else if t == UsageLedger && k > Position(Turns) then Unlinked(row)
    else if t == Entities && k > Position(Entities) && IsSelf(row) then ResetRow(row)
    else row
  }

  predicate Leaves(db: Database, t: Table, id: Id, v: set<Id>, k: nat)
    requires id in Rows(db, t)
  {
    Position(t) < k && id in Victims(db, t, v)
  }

  /** The database with the first k statements' rows gone and nothing else changed but the ledger's
      turns and the self entities' descriptions. */
  function Emptied(db: Database, v: set<Id>, k: nat): Database {
    db.(tables := map t: Table ::
      (map id | id in Rows(db, t) && !Leaves(db, t, id, v, k) :: LeftRow(t, Rows(db, t)[id], v, k)))
  }

  lemma EmptiedRows(db: Database, v: set<Id>, k: nat, t: Table, id: Id)
    ensures id in Rows(Emptied(db, v, k), t) <==> id in Rows(db, t) && !Leaves(db, t, id, v, k)
    ensures id in Rows(Emptied(db, v, k), t) ==>
      && Rows(Emptied(db, v, k), t)[id] == LeftRow(t, Rows(db, t)[id], v, k)
      && Rows(Emptied(db, v, k), t)[id].ws == Rows(db, t)[id].ws
  {
  }

  lemma EmptiedNothing(db: Database, v: set<Id>)
    requires Whole(db)
    ensures Emptied(db, v, 0) == db
  {
    forall t ensures Rows(Emptied(db, v, 0), t) == Rows(db, t) {
    }
    SameTables(Emptied(db, v, 0), db);
  }

  lemma VictimsStay(db: Database, v: set<Id>, k: nat)
    requires k < STATEMENTS
    ensures Victims(Emptied(db, v, k), At(k), v) == Victims(db, At(k), v)
  {
    var e, t := Emptied(db, v, k), At(k);
    forall id ensures id in Victims(e, t, v) <==> id in Victims(db, t, v) {
      EmptiedRows(db, v, k, t, id);
    }
  }

  // ------------------------------------------------------------------ no cascade fires

  /** A row left in a child table is in no expired workspace, so it refers to none of the rows that go. */
  lemma ChildrenAreGone(db: Database, v: set<Id>, k: nat, u: Table, id: Id, c: Ref, x: Id)
    requires k < STATEMENTS
    requires id in Rows(Emptied(db, v, k), u) && KeyOf(u, c).Some? && KeyOf(u, c).value.onDelete != SetNull
    requires KeyOf(u, c).value.to == At(k)
    requires x in Rows(Emptied(db, v, k), At(k)) && x in Victims(Emptied(db, v, k), At(k), v)
    ensures Rows(Emptied(db, v, k), u)[id].ws != Rows(Emptied(db, v, k), At(k))[x].ws
  {
    ChildrenFirst(u, c);
    EmptiedRows(db, v, k, u, id);
  }

  /** Statement k deletes the rows it names and no others. */
  lemma {:induction false} NoCascadeFires(db: Database, v: set<Id>, k: nat, u: Table, id: Id)
    requires k < STATEMENTS && id in Rows(Emptied(db, v, k), u)
    ensures var e, t := Emptied(db, v, k), At(k);
      Goes(e, t, Victims(e, t, v), u, id) <==> u == t && id in Victims(e, t, v)
    decreases 2 - Level(u), 2
  {
    var e, t := Emptied(db, v, k), At(k);
    var ids := Victims(e, t, v);
    forall c ensures !GoesBy(e, t, ids, u, id, c) {
      CascadeIsVoid(db, v, k, u, id, c);
    }
  }

  /** No row that is left refers, by a key that is not nulled, to a row that goes. */
  lemma {:induction false} ParentStays(db: Database, v: set<Id>, k: nat, u: Table, id: Id, c: Ref, to: Table)
    requires k < STATEMENTS && id in Rows(Emptied(db, v, k), u)
    requires KeyOf(u, c).Some? && KeyOf(u, c).value.to == to && KeyOf(u, c).value.onDelete != SetNull
    requires Level(to) > Level(u)
    requires c in Rows(Emptied(db, v, k), u)[id].refs
        && LeadsTo(Emptied(db, v, k), to, Rows(Emptied(db, v, k), u)[id], c)
    ensures var e, t := Emptied(db, v, k), At(k);
      !Goes(e, t, Victims(e, t, v), to, Rows(e, u)[id].refs[c])
    decreases 2 - Level(u), 0
  {
    var e, t := Emptied(db, v, k), At(k);
    var x := Rows(e, u)[id].refs[c];
    NoCascadeFires(db, v, k, to, x);
    if to == t && x in Victims(e, t, v) {
      ChildrenAreGone(db, v, k, u, id, c, x);
    }
  }

  lemma {:induction false} CascadeIsVoid(db: Database, v: set<Id>, k: nat, u: Table, id: Id, c: Ref)
    requires k < STATEMENTS && id in Rows(Emptied(db, v, k), u)
    ensures !GoesBy(Emptied(db, v, k), At(k), Victims(Emptied(db, v, k), At(k), v), u, id, c)
    decreases 2 - Level(u), 1
  {
    var e, t := Emptied(db, v, k), At(k);
    if GoesBy(e, t, Victims(e, t, v), u, id, c) {
      GoesWithItsParent(e, t, Victims(e, t, v), u, id, c);
      ParentStays(db, v, k, u, id, c, KeyOf(u, c).value.to);
    }
  }

  /** Nor does any key with no action hold the statement back. */
  lemma NothingHolds(db: Database, v: set<Id>, k: nat)
    requires k < STATEMENTS
    ensures !Blocked(Emptied(db, v, k), At(k), Victims(Emptied(db, v, k), At(k), v))
  {
    var e, t := Emptied(db, v, k), At(k);
    var ids := Victims(e, t, v);
    forall u: Table, id, c | id in Rows(e, u) ensures !Held(e, t, ids, u, id, c) {
      var key := KeyOf(u, c);
      KeysLeadUp(u, c);
      if key.Some? && key.value.onDelete == NoAction && c in Rows(e, u)[id].refs
          && LeadsTo(e, key.value.to, Rows(e, u)[id], c) {
        ParentStays(db, v, k, u, id, c, key.value.to);
      }
    }
  }

  // ------------------------------------------------------------------ each statement does what it says

  lemma PlainRowSurvives(db: Database, t: Table, ids: set<Id>, u: Table, id: Id)
    requires id in Rows(db, u) && u != UsageLedger
    ensures Surviving(db, t, ids, u, id) == Rows(db, u)[id]
  {
    forall c ensures !(KeyOf(u, c).Some? && KeyOf(u, c).value.onDelete == SetNull) {
      ChildrenFirst(u, c);
    }
    assert Surviving(db, t, ids, u, id).refs == Rows(db, u)[id].refs;
  }

  /** The ledger loses exactly the turns that go. */
  lemma LedgerLoses(db: Database, v: set<Id>, k: nat, id: Id)
    requires Integrity(db) && k < STATEMENTS && id in Rows(Emptied(db, v, k), UsageLedger)
    ensures var e, t := Emptied(db, v, k), At(k);
      Loses(e, t, Victims(e, t, v), UsageLedger, id, TurnId) <==>
        k == Position(Turns) && Rows(db, UsageLedger)[id].ws in v && TurnId in Rows(db, UsageLedger)[id].refs
  {
    var e, t := Emptied(db, v, k), At(k);
    var row := Rows(db, UsageLedger)[id];
    ChildrenFirst(UsageLedger, TurnId);
    EmptiedRows(db, v, k, UsageLedger, id);
    assert RowOk(db, UsageLedger, row);
    assert RefOk(db, UsageLedger, row, TurnId);
    if TurnId in row.refs && TurnId in Rows(e, UsageLedger)[id].refs {
      var x := row.refs[TurnId];
      EmptiedRows(db, v, k, Turns, x);
      if x in Rows(e, Turns) {
        NoCascadeFires(db, v, k, Turns, x);
      }
    }
  }

  lemma LedgerSurvives(db: Database, v: set<Id>, k: nat, id: Id)
    requires Integrity(db) && k < STATEMENTS && id in Rows(Emptied(db, v, k), UsageLedger)
    ensures var e, t := Emptied(db, v, k), At(k);
      Surviving(e, t, Victims(e, t, v), UsageLedger, id) == LeftRow(UsageLedger, Rows(db, UsageLedger)[id], v, k + 1)
  {
    var e, t := Emptied(db, v, k), At(k);
    var ids := Victims(e, t, v);
    var row, left := Rows(db, UsageLedger)[id], LeftRow(UsageLedger, Rows(db, UsageLedger)[id], v, k + 1);
    EmptiedRows(db, v, k, UsageLedger, id);
    LedgerLoses(db, v, k, id);
    var survives := Surviving(e, t, ids, UsageLedger, id);
    forall c ensures c in survives.refs <==> c in left.refs {
      ChildrenFirst(UsageLedger, c);
    }
    assert survives.refs == left.refs;
  }

  /** The row that statement k leaves, before the update of the self entities. */
  lemma RowSurvives(db: Database, v: set<Id>, k: nat, u: Table, id: Id)
    requires Integrity(db) && k < STATEMENTS && id in Rows(Emptied(db, v, k), u)
    ensures var e, t := Emptied(db, v, k), At(k);
      Surviving(e, t, Victims(e, t, v), u, id) ==
        LeftRow(u, Rows(db, u)[id], v, if u == Entities then k else k + 1)
  {
    EmptiedRows(db, v, k, u, id);
    if u == UsageLedger {
      LedgerSurvives(db, v, k, id);
    } else {
      PlainRowSurvives(Emptied(db, v, k), At(k), Victims(Emptied(db, v, k), At(k), v), u, id);
    }
  }

  /** After the delete of statement k, table by table. */
  lemma DeletedRows(db: Database, v: set<Id>, k: nat, u: Table, id: Id)
    requires Integrity(db) && k < STATEMENTS
    ensures var e, t := Emptied(db, v, k), At(k);
      && Delete(e, t, Victims(e, t, v)).Applied?
      && var rows := Rows(Delete(e, t, Victims(e, t, v)).db, u);
      && (id in rows <==> id in Rows(db, u) && !Leaves(db, u, id, v, k + 1))
      && (id in rows ==> rows[id] == LeftRow(u, Rows(db, u)[id], v, if u == Entities then k else k + 1))
  {
    var e, t := Emptied(db, v, k), At(k);
    var ids := Victims(e, t, v);
    NothingHolds(db, v, k);
    AfterDelete(e, t, ids, u, id);
    EmptiedRows(db, v, k, u, id);
    VictimsStay(db, v, k);
    if id in Rows(e, u) {
      NoCascadeFires(db, v, k, u, id);
      RowSurvives(db, v, k, u, id);
      PositionsDiffer(u, k);
    }
  }

  lemma PositionsDiffer(u: Table, k: nat)
    requires k < STATEMENTS
    ensures Position(u) == k <==> u == At(k)
  {
  }

  lemma ResetRows(d: Database, v: set<Id>, t: Table, id: Id)
    ensures var rows := Rows(ResetSelves(d, v), t);
      && (id in rows <==> id in Rows(d, t))
      && (id in rows ==>
            rows[id] == (if t == Entities && Rows(d, t)[id].ws in v && IsSelf(Rows(d, t)[id])
                         then ResetRow(Rows(d, t)[id]) else Rows(d, t)[id]))
  {
  }

  /** Each statement succeeds and empties its table of the expired workspaces' rows, nothing more. */
  lemma StatementEmpties(db: Database, v: set<Id>, k: nat)
    requires Integrity(db) && k < STATEMENTS
    ensures Statement(Emptied(db, v, k), v, k) == Applied(Emptied(db, v, k + 1))
  {
    var e, t := Emptied(db, v, k), At(k);
    DeletedRows(db, v, k, t, 0);
    var d := Delete(e, t, Victims(e, t, v)).db;
    var after := Statement(e, v, k).db;
    forall u ensures Rows(after, u) == Rows(Emptied(db, v, k + 1), u) {
      forall id ensures id in Rows(after, u) <==> id in Rows(Emptied(db, v, k + 1), u)
        ensures id in Rows(after, u) ==> Rows(after, u)[id] == Rows(Emptied(db, v, k + 1), u)[id] {
        StatementRow(db, v, k, u, id);
      }
    }
    SameTables(after, Emptied(db, v, k + 1));
  }

  /** The delete and the update that make up the entities' statement. */
  lemma EntitiesStatement(db: Database, v: set<Id>, e: Database, k: nat) returns (mid: Database)
    requires Integrity(db) && e == Emptied(db, v, k) && k == Position(Entities)
    ensures Delete(e, Entities, Victims(e, Entities, v)) == Applied(mid)
    ensures ResetSelves(mid, v) == Emptied(db, v, k + 1)
  {
    PositionsDiffer(Entities, k);
    StatementEmpties(db, v, k);
    mid := Delete(e, Entities, Victims(e, Entities, v)).db;
  }

  /** Only the entities' statement changes what is left of a self entity. */
  lemma SelvesLeft(row: Row, v: set<Id>, k: nat)
    ensures k != Position(Entities) ==> LeftRow(Entities, row, v, k) == LeftRow(Entities, row, v, k + 1)
    ensures k == Position(Entities) ==>
      && LeftRow(Entities, row, v, k) == row
      && LeftRow(Entities, row, v, k + 1) == if row.ws in v && IsSelf(row) then ResetRow(row) else row
  {
  }

  lemma StatementRow(db: Database, v: set<Id>, k: nat, u: Table, id: Id)
    requires Integrity(db) && k < STATEMENTS && Statement(Emptied(db, v, k), v, k).Applied?
    ensures var after := Statement(Emptied(db, v, k), v, k).db;
      && (id in Rows(after, u) <==> id in Rows(Emptied(db, v, k + 1), u))
      && (id in Rows(after, u) ==> Rows(after, u)[id] == Rows(Emptied(db, v, k + 1), u)[id])
  {
    var e, t := Emptied(db, v, k), At(k);
    var d := Delete(e, t, Victims(e, t, v)).db;
    DeletedRows(db, v, k, u, id);
    EmptiedRows(db, v, k + 1, u, id);
    PositionsDiffer(Entities, k);
    if id in Rows(db, u) {
      SelvesLeft(Rows(db, u)[id], v, k);
    }
    if t == Entities {
      ResetRows(d, v, u, id);
    }
  }

  lemma {:induction false} RunEmpties(db: Database, v: set<Id>, k: nat)
    requires Whole(db) && Integrity(db) && k <= STATEMENTS
    ensures RunTo(db, v, k) == Applied(Emptied(db, v, k))
  {
    if k == 0 {
      EmptiedNothing(db, v);
    } else {
      RunEmpties(db, v, k - 1);
      StatementEmpties(db, v, k - 1);
    }
  }

  // ------------------------------------------------------------------ the promises

  /** The procedure never raises: with every key intact it empties what is due, marks it and counts it. */
  lemma ExpiryNeverRaises(db: Database, before: int, now: int)
    requires Whole(db) && Integrity(db)
    ensures var v := DueWorkspaces(db, before);
      Expire(db, before, now) ==
        if v == {} then Expired(db, 0) else Expired(MarkExpired(Emptied(db, v, STATEMENTS), v, now), |v|)
  {
    RunEmpties(db, DueWorkspaces(db, before), STATEMENTS);
  }

  /** Referential integrity holds after every statement, the keys with no cascade included. */
  lemma {:induction false} IntegrityAfterEachStatement(db: Database, v: set<Id>, k: nat)
    requires Whole(db) && Integrity(db) && k <= STATEMENTS
    ensures Integrity(Emptied(db, v, k))
  {
    if k == 0 {
      EmptiedNothing(db, v);
    } else {
      IntegrityAfterEachStatement(db, v, k - 1);
      StatementEmpties(db, v, k - 1);
      StatementKeepsIntegrity(Emptied(db, v, k - 1), v, k - 1);
    }
  }

  lemma StatementKeepsIntegrity(db: Database, v: set<Id>, k: nat)
    requires Integrity(db) && k < STATEMENTS && Statement(db, v, k).Applied?
    ensures Integrity(Statement(db, v, k).db)
  {
    DeleteKeepsIntegrity(db, At(k), Victims(db, At(k), v));
    if At(k) == Entities {
      ResetKeepsIntegrity(Delete(db, At(k), Victims(db, At(k), v)).db, v);
    }
  }

  lemma ResetKeepsIntegrity(db: Database, v: set<Id>)
    requires Integrity(db)
    ensures Integrity(ResetSelves(db, v))
  {
    var after := ResetSelves(db, v);
    forall t, id | id in Rows(after, t) ensures RowOk(after, t, Rows(after, t)[id]) {
      ResetRows(db, v, t, id);
      assert RowOk(db, t, Rows(db, t)[id]);
      forall c ensures RefOk(after, t, Rows(after, t)[id], c) {
        assert RefOk(db, t, Rows(db, t)[id], c);
        ChildrenFirst(t, c);
        if KeyOf(t, c).Some? && c in Rows(db, t)[id].refs {
          ResetRows(db, v, KeyOf(t, c).value.to, Rows(db, t)[id].refs[c]);
        }
      }
    }
  }

  /** Exactly the workspaces that were due are marked, once each, and the count is theirs; no workspace
      and no user comes, goes or changes otherwise. */
  lemma TheDueAreMarked(db: Database, before: int, now: int)
    requires Whole(db) && Integrity(db)
    ensures Expire(db, before, now).Expired?
    ensures var v, after := DueWorkspaces(db, before), Expire(db, before, now).db;
      && Expire(db, before, now).count == |v| && after.users == db.users
      && after.workspaces.Keys == db.workspaces.Keys
      && (forall w :: w in db.workspaces ==>
            after.workspaces[w] == if w in v then db.workspaces[w].(expiredAt := Some(now)) else db.workspaces[w])
  {
    ExpiryNeverRaises(db, before, now);
  }

  /** Asked again with the same bound, or an earlier one, there is nothing to expire and nothing changes. */
  lemma RepeatExpiresNothing(db: Database, before: int, now: int, earlier: int, later: int)
    requires Whole(db) && Integrity(db) && earlier <= before
    ensures Expire(db, before, now).Expired?
    ensures Expire(Expire(db, before, now).db, earlier, later) == Expired(Expire(db, before, now).db, 0)
  {
    ExpiryNeverRaises(db, before, now);
    var v, after := DueWorkspaces(db, before), Expire(db, before, now).db;
    forall w | w in after.workspaces ensures !IsDue(after, w, earlier) {
      assert w in db.workspaces;
      if w !in v {
        assert !IsDue(db, w, before);
      }
    }
    assert DueWorkspaces(after, earlier) == {};
  }

  // ------------------------------------------------------------------ who is expired, by columns

  /** A row of an expired workspace: the self entity stays, described as nothing; a ledger row stays, with
      no turn; any other goes. */
  predicate RowExpired(t: Table, id: Id, was: Row, left: map<Id, Row>) {
    if t == Entities && Kind in was.data && was.data[Kind] == Text("self") then
      id in left && left[id] == Row(was.ws, was.refs, was.times,
        was.data[Description := Text("aliases [], labels [], attributes {}, no summary")])
    else if t == UsageLedger then
      id in left && left[id] == Row(was.ws, was.refs - {TurnId}, was.times, was.data)
    else id !in left
  }

  /** A workspace of a guest who was there before the bound, of a kind that expires and not yet expired:
      it is marked with the time of the call and its rows are expired. */
  predicate WorkspaceExpired(db: Database, after: Database, w: Id, now: int)
    requires w in db.workspaces
  {
    && w in after.workspaces && after.workspaces[w] == db.workspaces[w].(expiredAt := Some(now))
    && forall t, id :: id in Rows(db, t) && Rows(db, t)[id].ws == w ==>
         RowExpired(t, id, Rows(db, t)[id], Rows(after, t))
  }

  predicate WorkspaceKept(db: Database, after: Database, w: Id)
    requires w in db.workspaces
  {
    && w in after.workspaces && after.workspaces[w] == db.workspaces[w]
    && forall t, id :: id in Rows(db, t) && Rows(db, t)[id].ws == w ==>
         id in Rows(after, t) && Rows(after, t)[id] == Rows(db, t)[id]
  }

  lemma LeftInTheEndIs(t: Table, row: Row, v: set<Id>)
    ensures row.ws !in v ==> LeftRow(t, row, v, STATEMENTS) == row
    ensures row.ws in v && t == UsageLedger ==>
      LeftRow(t, row, v, STATEMENTS) == Row(row.ws, row.refs - {TurnId}, row.times, row.data)
    ensures row.ws in v && t == Entities && IsSelf(row) ==>
      LeftRow(t, row, v, STATEMENTS) == Row(row.ws, row.refs, row.times, row.data[Description := NO_DESCRIPTION])
  {
  }

  lemma GoneInTheEnd(db: Database, v: set<Id>, t: Table, id: Id)
    requires id in Rows(db, t)
    ensures Leaves(db, t, id, v, STATEMENTS) <==>
      Rows(db, t)[id].ws in v && t != UsageLedger && !(t == Entities && IsSelf(Rows(db, t)[id]))
  {
  }

  lemma RowOfADueWorkspace(db: Database, v: set<Id>, t: Table, id: Id)
    requires id in Rows(db, t)
    ensures var left := Rows(Emptied(db, v, STATEMENTS), t);
      if Rows(db, t)[id].ws in v then RowExpired(t, id, Rows(db, t)[id], left)
      else id in left && left[id] == Rows(db, t)[id]
  {
    EmptiedRows(db, v, STATEMENTS, t, id);
    GoneInTheEnd(db, v, t, id);
    LeftInTheEndIs(t, Rows(db, t)[id], v);
  }

  lemma NoneEmptied(db: Database, t: Table)
    ensures Rows(Emptied(db, {}, STATEMENTS), t) == Rows(db, t)
  {
    forall id ensures id in Rows(Emptied(db, {}, STATEMENTS), t) <==> id in Rows(db, t)
      ensures id in Rows(db, t) ==> Rows(Emptied(db, {}, STATEMENTS), t)[id] == Rows(db, t)[id] {
      EmptiedRows(db, {}, STATEMENTS, t, id);
      if id in Rows(db, t) {
        LeftInTheEndIs(t, Rows(db, t)[id], {});
      }
    }
  }

  lemma RowsAfterExpiry(db: Database, before: int, now: int, t: Table)
    requires Whole(db) && Integrity(db)
    ensures Expire(db, before, now).Expired?
    ensures Rows(Expire(db, before, now).db, t) == Rows(Emptied(db, DueWorkspaces(db, before), STATEMENTS), t)
  {
    ExpiryNeverRaises(db, before, now);
    NoneEmptied(db, t);
    MarkingKeepsRows(Emptied(db, DueWorkspaces(db, before), STATEMENTS), DueWorkspaces(db, before), now, t);
  }

  lemma MarkingKeepsRows(db: Database, v: set<Id>, now: int, t: Table)
    ensures Rows(MarkExpired(db, v, now), t) == Rows(db, t)
  {
  }

  /** Who is expired. A workspace is exactly when its owner is a guest created before the bound, it is not
      expired yet, and it is a persona copy, a scratch memory or a guest's; every other workspace keeps
      all it had. */
  lemma ExpiredByColumns(db: Database, before: int, now: int, w: Id)
    requires Whole(db) && Integrity(db) && w in db.workspaces
    ensures Expire(db, before, now).Expired?
    ensures var ws, after := db.workspaces[w], Expire(db, before, now).db;
      if && ws.owner in db.users && db.users[ws.owner].tier == "guest" && db.users[ws.owner].createdAt < before
         && ws.expiredAt == None
         && (ws.kind == "persona_copy" || ws.kind == "scratch" || ws.kind == "guest")
      then WorkspaceExpired(db, after, w, now)
      else WorkspaceKept(db, after, w)
  {
    TheDueAreMarked(db, before, now);
    var v, after := DueWorkspaces(db, before), Expire(db, before, now).db;
    forall t, id | id in Rows(db, t) && Rows(db, t)[id].ws == w
      ensures if w in v then RowExpired(t, id, Rows(db, t)[id], Rows(after, t))
              else id in Rows(after, t) && Rows(after, t)[id] == Rows(db, t)[id] {
      RowsAfterExpiry(db, before, now, t);
      RowOfADueWorkspace(db, v, t, id);
    }
  }

  /** The count is the number of workspaces that were not expired and now are; no workspace, user or row is
      new, and a row of no known workspace stays. */
  lemma CountedByColumns(db: Database, before: int, now: int, t: Table, id: Id)
    requires Whole(db) && Integrity(db)
    ensures Expire(db, before, now).Expired?
    ensures var after := Expire(db, before, now).db;
      && after.users == db.users && after.workspaces.Keys == db.workspaces.Keys
      && Expire(db, before, now).count
           == |set w | w in db.workspaces && db.workspaces[w].expiredAt.None? && after.workspaces[w].expiredAt.Some?|
      && (id in Rows(after, t) ==> id in Rows(db, t))
      && (id in Rows(db, t) && Rows(db, t)[id].ws !in db.workspaces ==>
            id in Rows(after, t) && Rows(after, t)[id] == Rows(db, t)[id])
  {
    TheDueAreMarked(db, before, now);
    var v, after := DueWorkspaces(db, before), Expire(db, before, now).db;
    assert v == set w | w in db.workspaces && db.workspaces[w].expiredAt.None? && after.workspaces[w].expiredAt.Some?;
    RowsAfterExpiry(db, before, now, t);
    EmptiedRows(db, v, STATEMENTS, t, id);
    if id in Rows(db, t) {
      RowOfADueWorkspace(db, v, t, id);
    }
  }
}
