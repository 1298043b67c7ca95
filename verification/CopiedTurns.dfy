// The history of a persona copy: the ids that `uuid_v7_at` makes for its turns sort as the turns started.

module CopiedTurns {
  import opened Basics
  import opened Schema
  import opened PersonaCopy
  import Ids

  /** The milliseconds that six bytes hold: from 1970 until the year 10889. */
  const MS_RANGE := 0x1_0000_0000_0000

  /** What the last six bytes of `int8send(ms)` are worth. */
  function LastSix(ms: int): nat {
    ms % MS_RANGE
  }

  /** When the copy of this turn started. */
  function CopyStart(from: Database, call: Call, id: Id): int
    requires id in Rows(from, Turns) && StartedAt in Rows(from, Turns)[id].times
  {
    Rows(from, Turns)[id].times[StartedAt] + ShiftMs(call)
  }

  predicate HasStart(from: Database, call: Call, id: Id) {
    IsSource(from, call, Turns, id) && StartedAt in Rows(from, Turns)[id].times
  }

  predicate Before(x: bv128, y: bv128) {
    x < y
  }

  predicate InRange(ms: bv128) {
    ms < Ids.MS_LIMIT
  }

  /** Six-byte numbers stand for the milliseconds in their order. */
  ghost predicate KeepsTime(stamp: int -> bv128) {
    && (forall ms :: 0 <= ms < MS_RANGE ==> InRange(stamp(ms)))
    && (forall x, y :: 0 <= x < y < MS_RANGE ==> Before(stamp(x), stamp(y)))
  }

  /** UUIDs sort among each other as the integers that stand for them here. */
  ghost predicate KeepsOrder(embed: Ids.Uuid -> Id) {
    forall u, v :: Before(u, v) ==> embed(u) < embed(v)
  }

  /** Ids made this way, from a time and random bits, sort by their time. */
  ghost predicate IdsKeepTime<S(!new), U(!new)>(make: (S, U) -> U, embed: U -> Id, stamp: int -> S) {
    forall x, y, r, s :: LastSix(x) < LastSix(y) ==> MadeId(make, embed, stamp, x, r) < MadeId(make, embed, stamp, y, s)
  }

  function MadeId<S, U>(make: (S, U) -> U, embed: U -> Id, stamp: int -> S, ms: int, random: U): Id {
    embed(make(stamp(LastSix(ms)), random))
  }

  /** How the call makes the ids of the copied turns: each at its turn's start, moved by the call's days,
      from random bits of its own. */
  ghost predicate TurnIdsBy<S(!new), U(!new)>(from: Database, call: Call, make: (S, U) -> U, embed: U -> Id,
                                              stamp: int -> S) {
    forall id :: HasStart(from, call, id) ==>
      MadeAt(make, embed, stamp, CopyStart(from, call, id), NewId(call, Turns, id))
  }

  ghost predicate MadeAt<S, U(!new)>(make: (S, U) -> U, embed: U -> Id, stamp: int -> S, ms: int, id: Id) {
    exists random: U :: id == MadeId(make, embed, stamp, ms, random)
  }

  lemma EarlierTurnSmallerId<S(!new), U(!new)>(from: Database, call: Call, make: (S, U) -> U, embed: U -> Id,
                                               stamp: int -> S, a: Id, b: Id)
    requires IdsKeepTime(make, embed, stamp) && TurnIdsBy(from, call, make, embed, stamp)
    requires HasStart(from, call, a) && HasStart(from, call, b)
    requires LastSix(CopyStart(from, call, a)) < LastSix(CopyStart(from, call, b))
    ensures NewId(call, Turns, a) < NewId(call, Turns, b)
  {
    var r: U :| NewId(call, Turns, a) == MadeId(make, embed, stamp, CopyStart(from, call, a), r);
    var s: U :| NewId(call, Turns, b) == MadeId(make, embed, stamp, CopyStart(from, call, b), s);
  }

  /** `uuid_v7_at` makes such ids. */
  lemma V7KeepsTime(embed: Ids.Uuid -> Id, stamp: int -> bv128)
    requires KeepsOrder(embed) && KeepsTime(stamp)
    ensures IdsKeepTime(Ids.UuidV7At, embed, stamp)
  {
    forall x, y, r, s | LastSix(x) < LastSix(y)
      ensures MadeId(Ids.UuidV7At, embed, stamp, x, r) < MadeId(Ids.UuidV7At, embed, stamp, y, s) {
      V7InOrder(embed, stamp, x, y, r, s);
    }
  }

  lemma V7InOrder(embed: Ids.Uuid -> Id, stamp: int -> bv128, x: int, y: int, r: Ids.Uuid, s: Ids.Uuid)
    requires KeepsOrder(embed) && KeepsTime(stamp) && LastSix(x) < LastSix(y)
    ensures MadeId(Ids.UuidV7At, embed, stamp, x, r) < MadeId(Ids.UuidV7At, embed, stamp, y, s)
  {
    var e, l := stamp(LastSix(x)), stamp(LastSix(y));
    assert Before(e, l) && InRange(l);
    V7Order(e, l, r, s);
  }

  lemma V7Order(e: bv128, l: bv128, r: Ids.Uuid, s: Ids.Uuid)
    requires Before(e, l) && InRange(l)
    ensures Before(Ids.UuidV7At(e, r), Ids.UuidV7At(l, s))
  {
    Ids.UuidV7AtOrder(e, l, r, s);
  }

  lemma CopiedStart(from: Database, call: Call, db: Database, id: Id)
    requires Copied(from, call, db) && HasStart(from, call, id)
    ensures NewId(call, Turns, id) in Rows(db, Turns)
    ensures TimeIn(Rows(db, Turns)[NewId(call, Turns, id)], StartedAt) == Some(CopyStart(from, call, id))
  {
    CopiedTimeOf(from, call, db, Turns, id, StartedAt);
    CallClocksShift(Turns, StartedAt);
  }

  lemma SameWindow(x: int, y: int)
    requires x / MS_RANGE == y / MS_RANGE
    ensures LastSix(x) < LastSix(y) <==> x < y
  {
    assert x == x / MS_RANGE * MS_RANGE + LastSix(x) && y == y / MS_RANGE * MS_RANGE + LastSix(y);
  }

  lemma TurnIdsSort(from: Database, call: Call, embed: Ids.Uuid -> Id, stamp: int -> bv128, a: Id, b: Id)
    requires KeepsOrder(embed) && KeepsTime(stamp) && TurnIdsBy(from, call, Ids.UuidV7At, embed, stamp)
    requires HasStart(from, call, a) && HasStart(from, call, b)
    requires LastSix(CopyStart(from, call, a)) != LastSix(CopyStart(from, call, b))
    ensures NewId(call, Turns, a) < NewId(call, Turns, b)
        <==> LastSix(CopyStart(from, call, a)) < LastSix(CopyStart(from, call, b))
  {
    V7KeepsTime(embed, stamp);
    if LastSix(CopyStart(from, call, a)) < LastSix(CopyStart(from, call, b)) {
      EarlierTurnSmallerId(from, call, Ids.UuidV7At, embed, stamp, a, b);
    } else {
      EarlierTurnSmallerId(from, call, Ids.UuidV7At, embed, stamp, b, a);
    }
  }

  /** The history of a copy is paged by id, and its ids are made by `uuid_v7_at`, whatever random bits
      each draws. They sort as the six bytes of the copied starts do: so past turns that started in
      different milliseconds, on the same side of 1970 and of 10889, sort by id as they started. */
  lemma CopiedTurnsKeepTheirOrder(from: Database, call: Call, db: Database, embed: Ids.Uuid -> Id, stamp: int -> bv128,
                                  a: Id, b: Id)
    requires Copied(from, call, db) && KeepsOrder(embed) && KeepsTime(stamp)
    requires TurnIdsBy(from, call, Ids.UuidV7At, embed, stamp) && HasStart(from, call, a) && HasStart(from, call, b)
    requires LastSix(CopyStart(from, call, a)) != LastSix(CopyStart(from, call, b))
    ensures NewId(call, Turns, a) in Rows(db, Turns) && NewId(call, Turns, b) in Rows(db, Turns)
    ensures var x := TimeIn(Rows(db, Turns)[NewId(call, Turns, a)], StartedAt);
      var y := TimeIn(Rows(db, Turns)[NewId(call, Turns, b)], StartedAt);
      && x.Some? && y.Some?
      && (NewId(call, Turns, a) < NewId(call, Turns, b) <==> LastSix(x.value) < LastSix(y.value))
      && (x.value / MS_RANGE == y.value / MS_RANGE ==>
            (NewId(call, Turns, a) < NewId(call, Turns, b) <==> x.value < y.value))
  {
    CopiedStart(from, call, db, a);
    CopiedStart(from, call, db, b);
    TurnIdsSort(from, call, embed, stamp, a, b);
    if CopyStart(from, call, a) / MS_RANGE == CopyStart(from, call, b) / MS_RANGE {
      SameWindow(CopyStart(from, call, a), CopyStart(from, call, b));
    }
  }
}
