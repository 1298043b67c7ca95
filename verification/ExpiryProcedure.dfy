// `expire_guest_workspaces` as it runs: one transaction, statement after statement.

module ExpiryProcedure {
  import opened Basics
  import opened Schema
  import opened GuestExpiry

  /** The database as it is when it is this table's turn to be emptied: the starting one after the
      statements before it, table by table. */
  ghost predicate TurnOf(t: Table, start: Database, v: set<Id>, db: Database) {
    && Whole(db) && db.workspaces == start.workspaces && db.users == start.users
    && forall u :: Rows(db, u) == Rows(Emptied(start, v, Position(t)), u)
  }

  lemma TurnIs(t: Table, start: Database, v: set<Id>, db: Database)
    ensures TurnOf(t, start, v, db) <==> db == Emptied(start, v, Position(t))
  {
    if TurnOf(t, start, v, db) {
      SameTables(db, Emptied(start, v, Position(t)));
    }
  }

  /** One transaction: once a statement has raised, the rest do nothing. */
  class Transaction {
    var db: Database
    var failed: bool

    constructor (db: Database)
      ensures this.db == db && !failed
    {
      this.db, failed := db, false;
    }

    method DeleteFrom(t: Table, v: set<Id>)
      modifies this
      ensures old(failed) ==> failed && db == old(db)
      ensures !old(failed) ==> match Delete(old(db), t, Victims(old(db), t, v))
        case Aborted => failed && db == old(db)
        case Applied(d) => !failed && db == d
    {
      if !failed {
        match Delete(db, t, Victims(db, t, v))
        case Aborted => failed := true;
        case Applied(d) => db := d;
      }
    }

    /** One delete of the procedure, in its place. `next` is the table whose turn comes after. */
    method Empty(t: Table, v: set<Id>, ghost start: Database, ghost next: Table)
      requires Integrity(start) && !failed && t != Entities && Position(next) == Position(t) + 1
      requires TurnOf(t, start, v, db)
      modifies this
      ensures !failed && TurnOf(next, start, v, db)
    {
      ghost var k := Position(t);
      TurnIs(t, start, v, db);
      StatementEmpties(start, v, k);
      PositionsDiffer(t, k);
      DeleteFrom(t, v);
      TurnIs(next, start, v, db);
    }

    method EmptyEntities(v: set<Id>, ghost start: Database)
      requires Integrity(start) && !failed && TurnOf(Entities, start, v, db)
      modifies this
      ensures !failed && TurnOf(Categories, start, v, db)
    {
      TurnIs(Entities, start, v, db);
      ghost var _ := EntitiesEmptied(start, v, db, Position(Entities));
      DeleteFrom(Entities, v);
      db := ResetSelves(db, v);
    }
  }

  lemma TurnReached(t: Table, start: Database, v: set<Id>, k: nat, db: Database)
    requires db == Emptied(start, v, k) && k == Position(t)
    ensures TurnOf(t, start, v, db)
  {
  }

  lemma CategoriesNext(k: nat)
    requires k == Position(Entities)
    ensures k + 1 == Position(Categories)
  {
  }

  lemma EntitiesEmptied(start: Database, v: set<Id>, db: Database, k: nat) returns (mid: Database)
    requires Integrity(start) && db == Emptied(start, v, k) && k == Position(Entities)
    ensures Delete(db, Entities, Victims(db, Entities, v)) == Applied(mid)
    ensures TurnOf(Categories, start, v, ResetSelves(mid, v))
  {
    mid := EntitiesStatement(start, v, db, k);
    CategoriesNext(k);
    TurnReached(Categories, start, v, k + 1, ResetSelves(mid, v));
  }

  method EmptyMemories(tx: Transaction, v: set<Id>, ghost start: Database)
    requires Integrity(start) && !tx.failed && TurnOf(HeldWrites, start, v, tx.db)
    modifies tx
    ensures !tx.failed && TurnOf(EntityRelations, start, v, tx.db)
  {
    tx.Empty(HeldWrites, v, start, ItemAccess);
    tx.Empty(ItemAccess, v, start, WriteLog);
    tx.Empty(WriteLog, v, start, ItemVersions);
    tx.Empty(ItemVersions, v, start, LinkSources);
    tx.Empty(LinkSources, v, start, MemoryKeys);
    tx.Empty(MemoryKeys, v, start, MemoryLinks);
    tx.Empty(MemoryLinks, v, start, MemoryEntities);
    tx.Empty(MemoryEntities, v, start, Triggers);
    tx.Empty(Triggers, v, start, EntityRelations);
  }

  method EmptyTurns(tx: Transaction, v: set<Id>, ghost start: Database)
    requires Integrity(start) && !tx.failed && TurnOf(EntityRelations, start, v, tx.db)
    modifies tx
    ensures !tx.failed && TurnOf(UsageLedger, start, v, tx.db)
  {
    tx.Empty(EntityRelations, v, start, MemoryItems);
    tx.Empty(MemoryItems, v, start, ConversationKeys);
    tx.Empty(ConversationKeys, v, start, TurnEvents);
    tx.Empty(TurnEvents, v, start, Turns);
    tx.Empty(Turns, v, start, Entities);
    tx.EmptyEntities(v, start);
    tx.Empty(Categories, v, start, VocabTerms);
    tx.Empty(VocabTerms, v, start, UsageLedger);
  }

  /** `expire_guest_workspaces`. */
  method ExpireGuestWorkspaces(tx: Transaction, before: int, now: int) returns (count: nat)
    requires Whole(tx.db) && Integrity(tx.db) && !tx.failed
    modifies tx
    ensures !tx.failed && Expired(tx.db, count) == Expire(old(tx.db), before, now)
  {
    var v := DueWorkspaces(tx.db, before);
    if v == {} {
      return 0;
    }
    ghost var start := tx.db;
    EmptiedNothing(start, v);
    TurnIs(HeldWrites, start, v, start);
    EmptyMemories(tx, v, start);
    EmptyTurns(tx, v, start);
    TurnIs(UsageLedger, start, v, tx.db);
    ExpiryNeverRaises(start, before, now);
    tx.db := MarkExpired(tx.db, v, now);
    count := |v|;
  }
}
