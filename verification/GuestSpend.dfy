// What the ledger adds up to, before and after guests expire.

module GuestSpend {
  import opened Basics
  import opened Schema
  import opened GuestExpiry

  function CostOf(row: Row): int {
    if Cost in row.data && row.data[Cost].Number? then row.data[Cost].n else 0
  }

  /** `global_spend` groups by provider, `guest_spend` joins the owner's tier. */
  datatype Total = OfProvider(provider: string) | OfGuests

  predicate Counts(db: Database, row: Row, since: int, total: Total) {
    && CreatedAt in row.times && row.times[CreatedAt] >= since
    && match total
       case OfProvider(provider) => Provider in row.data && row.data[Provider] == Text(provider)
       case OfGuests =>
         && OwnerUserId in row.refs && row.refs[OwnerUserId] in db.users
         && db.users[row.refs[OwnerUserId]].tier == "guest"
  }

  /** `coalesce(sum(cost_usd), 0)` over the ledger's rows, which `rows` lists in some order. */
  function Spend(db: Database, rows: seq<Id>, since: int, total: Total): int {
    if rows == [] then 0
    else
      var id, ledger := rows[|rows| - 1], Rows(db, UsageLedger);
      Spend(db, rows[..|rows| - 1], since, total) +
      (if id in ledger && Counts(db, ledger[id], since, total) then CostOf(ledger[id]) else 0)
  }

  /** One more row of the ledger adds its cost to its provider's total, and to the guests' when its owner is
      a guest, if it is no older than the moment asked for. */
  lemma OneMoreRow(db: Database, rows: seq<Id>, id: Id, since: int, provider: string)
    requires id in Rows(db, UsageLedger)
    ensures var row := Rows(db, UsageLedger)[id];
      var recent := CreatedAt in row.times && row.times[CreatedAt] >= since;
      var cost := if Cost in row.data && row.data[Cost].Number? then row.data[Cost].n else 0;
      && Spend(db, rows + [id], since, OfProvider(provider)) - Spend(db, rows, since, OfProvider(provider))
         == (if recent && Provider in row.data && row.data[Provider] == Text(provider) then cost else 0)
      && Spend(db, rows + [id], since, OfGuests) - Spend(db, rows, since, OfGuests)
         == (if recent && OwnerUserId in row.refs && row.refs[OwnerUserId] in db.users
                && db.users[row.refs[OwnerUserId]].tier == "guest" then cost else 0)
  {
    assert (rows + [id])[..|rows|] == rows;
  }

  /** A ledger row stays, with everything but its turn. */
  lemma LedgerKeepsRows(db: Database, before: int, now: int, id: Id)
    requires Whole(db) && Integrity(db)
    ensures Expire(db, before, now).Expired?
    ensures var was, left := Rows(db, UsageLedger), Rows(Expire(db, before, now).db, UsageLedger);
      && (id in left <==> id in was)
      && (id in left ==> left[id].ws == was[id].ws && left[id].times == was[id].times && left[id].data == was[id].data)
      && (id in left ==> left[id].refs - {TurnId} == was[id].refs - {TurnId})
  {
    var v := DueWorkspaces(db, before);
    ExpiryNeverRaises(db, before, now);
    EmptiedRows(db, v, STATEMENTS, UsageLedger, id);
    if v != {} {
      assert Rows(MarkExpired(Emptied(db, v, STATEMENTS), v, now), UsageLedger)
          == Rows(Emptied(db, v, STATEMENTS), UsageLedger);
    }
  }

  /** Expiry changes no total: each provider's and the guests' are what they were, since every moment,
      and no row of the ledger comes or goes. */
  lemma {:induction false} SpendIsKept(db: Database, before: int, now: int, rows: seq<Id>, since: int, total: Total)
    requires Whole(db) && Integrity(db)
    ensures Expire(db, before, now).Expired?
    ensures Rows(Expire(db, before, now).db, UsageLedger).Keys == Rows(db, UsageLedger).Keys
    ensures Spend(Expire(db, before, now).db, rows, since, total) == Spend(db, rows, since, total)
  {
    forall id ensures Expire(db, before, now).Expired?
      && (id in Rows(Expire(db, before, now).db, UsageLedger) <==> id in Rows(db, UsageLedger)) {
      LedgerKeepsRows(db, before, now, id);
    }
    LedgerKeepsRows(db, before, now, 0);
    if rows != [] {
      SpendIsKept(db, before, now, rows[..|rows| - 1], since, total);
      SameCount(db, before, now, rows[|rows| - 1], since, total);
    }
  }

  lemma SameCount(db: Database, before: int, now: int, id: Id, since: int, total: Total)
    requires Whole(db) && Integrity(db)
    ensures Expire(db, before, now).Expired?
    ensures var after := Expire(db, before, now).db;
      && (id in Rows(after, UsageLedger) <==> id in Rows(db, UsageLedger))
      && (id in Rows(db, UsageLedger) ==>
            && CostOf(Rows(after, UsageLedger)[id]) == CostOf(Rows(db, UsageLedger)[id])
            && (Counts(after, Rows(after, UsageLedger)[id], since, total)
                <==> Counts(db, Rows(db, UsageLedger)[id], since, total)))
  {
    ExpiryNeverRaises(db, before, now);
    LedgerKeepsRows(db, before, now, id);
    if id in Rows(db, UsageLedger) {
      var was, left := Rows(db, UsageLedger)[id], Rows(Expire(db, before, now).db, UsageLedger)[id];
      assert OwnerUserId in left.refs <==> OwnerUserId in left.refs - {TurnId};
      assert OwnerUserId in was.refs <==> OwnerUserId in was.refs - {TurnId};
    }
  }
}
