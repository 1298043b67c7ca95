// The one-off paging job that indexes a workspace's past conversation, newest turn first.

module Backfill {
  import opened Basics

  predicate Older(id: nat, before: Option<nat>) {
    before.None? || id < before.value
  }

  function OlderThan(ids: set<nat>, before: Option<nat>): set<nat> {
    set id | id in ids && Older(id, before)
  }

  predicate Descending(s: seq<nat>) {
    forall i, j :: 0 <= i < j < |s| ==> s[i] > s[j]
  }

  /** What `recent` promises: the newest `limit` turns older than the cursor, newest first. */
  ghost predicate IsPage(page: seq<nat>, ids: set<nat>, limit: nat, before: Option<nat>) {
    && Descending(page)
    && |page| <= limit
    && (forall id :: id in page ==> id in OlderThan(ids, before))
    && (forall id :: id in OlderThan(ids, before) && id !in page ==>
          |page| == limit && forall i :: 0 <= i < |page| ==> id < page[i])
  }

  function Count(wanted: set<nat>, turns: seq<nat>): nat {
    if turns == [] then 0 else (if turns[0] in wanted then 1 else 0) + Count(wanted, turns[1..])
  }

  lemma {:induction false} CountAppend(wanted: set<nat>, a: seq<nat>, b: seq<nat>)
    ensures Count(wanted, a + b) == Count(wanted, a) + Count(wanted, b)
  {
    if a == [] {
      assert a + b == b;
    } else {
      assert (a + b)[1..] == a[1..] + b && (a + b)[0] == a[0];
      CountAppend(wanted, a[1..], b);
    }
  }

  function Wanted(wanted: set<nat>, turns: seq<nat>): set<nat> {
    set id | id in wanted && id in turns
  }

  lemma WantedStep(wanted: set<nat>, head: nat, rest: seq<nat>)
    ensures Wanted(wanted, [head] + rest) == Wanted(wanted, rest) + (if head in wanted then {head} else {})
  {
  }

  /** Over turns visited once each, the count is the size of what was wanted among them. */
  lemma {:induction false} CountIsSize(wanted: set<nat>, turns: seq<nat>)
    requires Descending(turns)
    ensures Count(wanted, turns) == |Wanted(wanted, turns)|
  {
    if turns == [] {
      assert Wanted(wanted, turns) == {};
    } else {
      var head, rest := turns[0], turns[1..];
      CountIsSize(wanted, rest);
      assert turns == [head] + rest;
      WantedStep(wanted, head, rest);
      assert head !in rest;
    }
  }

  /** What has been visited when the cursor is here: every turn there was at the start that is not older. */
  ghost predicate VisitedTo(visited: seq<nat>, start: set<nat>, before: Option<nat>) {
    && Descending(visited)
    && (forall id :: id in visited <==> id in start && !Older(id, before))
  }

  lemma PageVisits(start: set<nat>, ids: set<nat>, before: Option<nat>, visited: seq<nat>, turns: seq<nat>, limit: nat)
    requires IsPage(turns, ids, limit, before) && turns != [] && VisitedTo(visited, start, before)
    requires OlderThan(ids, before) == OlderThan(start, before)
    ensures var next := Some(turns[|turns| - 1]);
      && turns[|turns| - 1] in OlderThan(start, before)
      && VisitedTo(visited + turns, start, next)
  {
    var last := turns[|turns| - 1];
    assert forall i :: 0 <= i < |turns| ==> turns[i] >= last;
    forall id ensures id in visited + turns <==> id in start && !Older(id, Some(last)) {
      if id in start && Older(id, before) && !Older(id, Some(last)) {
        assert id in OlderThan(ids, before);
        assert turns[|turns| - 1] == last;
      }
      if id in turns {
        assert id in OlderThan(ids, before);
      }
      if id in visited && before.Some? {
        assert last in OlderThan(ids, before);
      }
    }
    forall i, j | 0 <= i < |visited| && 0 <= j < |turns| ensures visited[i] > turns[j] {
      assert visited[i] in visited && turns[j] in turns;
      assert turns[j] in OlderThan(ids, before);
    }
  }

  lemma CursorMoves(start: set<nat>, ids: set<nat>, before: Option<nat>, last: nat)
    requires OlderThan(ids, before) == OlderThan(start, before) && last in OlderThan(start, before)
    ensures OlderThan(ids, Some(last)) == OlderThan(start, Some(last))
    ensures OlderThan(ids, Some(last)) < OlderThan(ids, before)
  {
    forall id ensures id in OlderThan(ids, Some(last)) <==> id in OlderThan(start, Some(last)) {
      assert id in OlderThan(ids, before) <==> id in OlderThan(start, before);
    }
    assert last !in OlderThan(ids, Some(last));
  }

  /** Newer turns do not show in what is older than the cursor. */
  lemma NewerTurnsDoNotShow(ids: set<nat>, more: set<nat>, start: set<nat>, before: nat)
    requires before in start && forall new_, id :: new_ in more && id in start ==> new_ > id
    ensures OlderThan(ids + more, Some(before)) == OlderThan(ids, Some(before))
  {
  }

  lemma NothingOlder(start: set<nat>, ids: set<nat>, before: Option<nat>, visited: seq<nat>, limit: nat,
                     pending: set<nat>)
    requires IsPage([], ids, limit, before) && limit >= 1 && VisitedTo(visited, start, before)
    requires OlderThan(ids, before) == OlderThan(start, before)
    ensures forall id :: id in visited <==> id in start
    ensures Wanted(pending, visited) == pending * start
  {
    forall id | id in start ensures !Older(id, before) {
      assert id in OlderThan(start, before) <==> id in start && Older(id, before);
      assert id !in OlderThan(ids, before);
    }
  }

  class TurnIds {
    var ids: set<nat>

    constructor (ids: set<nat>)
      ensures this.ids == ids
    {
      this.ids := ids;
    }

    /** `select ... where id < before order by id desc limit :limit` */
    method Recent(limit: nat, before: Option<nat>) returns (page: seq<nat>)
      ensures IsPage(page, ids, limit, before)
    {
      page := [];
      var left := OlderThan(ids, before);
      while |page| < limit && left != {}
        invariant |page| <= limit && Descending(page)
        invariant forall id :: id in page <==> id in OlderThan(ids, before) && id !in left
        invariant left <= OlderThan(ids, before)
        invariant forall id, i :: id in left && 0 <= i < |page| ==> id < page[i]
        decreases limit - |page|
      {
        var top := Newest(left);
        page := page + [top];
        left := left - {top};
      }
    }

    method Newest(from: set<nat>) returns (top: nat)
      requires from != {}
      ensures top in from && forall id :: id in from ==> id <= top
    {
      top :| top in from;
      var left := from - {top};
      while left != {}
        invariant left < from && top in from
        invariant forall id :: id in from && id !in left ==> id <= top
        decreases left
      {
        var id :| id in left;
        left := left - {id};
        if id > top { top := id; }
      }
    }

    /** `backfill_conversation`: page after page until one is empty. `inserted[k]` are the turns other
        work adds after page k; `pending` are the turns the indexer has not indexed yet. */
    method Run(page: nat, inserted: seq<set<nat>>, pending: set<nat>) returns (total: nat, visited: seq<nat>)
      requires forall k, new_, id :: 0 <= k < |inserted| && new_ in inserted[k] && id in ids ==> new_ > id
      modifies this
      ensures Descending(visited)
      ensures page >= 1 ==> forall id :: id in visited <==> id in old(ids)
      ensures page >= 1 ==> total == |pending * old(ids)|
      ensures page == 0 ==> visited == [] && total == 0
    {
      ghost var start := ids;
      total, visited := 0, [];
      var before: Option<nat>, k := None, 0;
      while true
        invariant before.Some? ==> before.value in start
        invariant OlderThan(ids, before) == OlderThan(start, before)
        invariant VisitedTo(visited, start, before)
        invariant total == Count(pending, visited)
        invariant page == 0 ==> visited == []
        decreases OlderThan(ids, before)
      {
        var turns := Recent(page, before);
        if turns == [] {
          CountIsSize(pending, visited);
          if page >= 1 {
            NothingOlder(start, ids, before, visited, page, pending);
          }
          return;
        }
        var last := turns[|turns| - 1];
        CountAppend(pending, visited, turns);
        PageVisits(start, ids, before, visited, turns, page);
        CursorMoves(start, ids, before, last);
        total := total + Count(pending, turns);
        visited := visited + turns;
        before := Some(last);
        if k < |inserted| {
          NewerTurnsDoNotShow(ids, inserted[k], start, last);
          ids := ids + inserted[k];
          k := k + 1;
        }
      }
    }
  }
}
