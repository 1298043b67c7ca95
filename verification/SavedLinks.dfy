// A turn that saves links: the one merged fetch row at every prefix of its stream, and exactly when that row
// never goes back on a state it has shown.

module SavedLinks {
  import opened Basics
  import opened Events
  import opened TrailModel
  import opened Protocol

  /** The goal a client has after reading these items, at this time of day. */
  function GoalAt(items: seq<StreamItem>, now: int): seq<StepView> {
    MergeFetches(LiveRows(items), now)
  }

  predicate Orderly(items: seq<StreamItem>) {
    !PhaseOf(items).Broken? && Numbered(RecordedOf(items))
  }

  // ------------------------------------------------------------------ one fetch row

  predicate OneFetchStart(starts: seq<StepStart>) {
    forall i, j :: 0 <= i < j < |starts| ==> starts[i].step != Fetch || starts[j].step != Fetch
  }

  /** The place of the fetch step among the started ones; their number when there is none. */
  function FetchPlace(starts: seq<StepStart>): (k: nat)
    ensures k <= |starts|
    ensures k < |starts| ==> starts[k].step == Fetch
    ensures forall i :: 0 <= i < k ==> starts[i].step != Fetch
  {
    if starts == [] then 0
    else if starts[0].step == Fetch then 0
    else 1 + FetchPlace(starts[1..])
  }

  predicate OnlyFetchAt(views: seq<StepView>, k: nat) {
    k < |views| && views[k].step == Fetch && forall i :: 0 <= i < |views| && i != k ==> views[i].step != Fetch
  }

  lemma {:induction false} NoFetchRows(views: seq<StepView>)
    requires forall i :: 0 <= i < |views| ==> views[i].step != Fetch
    ensures FetchRows(views) == [] && OtherRows(views) == views
  {
    if views != [] {
      NoFetchRows(views[1..]);
      assert views == [views[0]] + views[1..];
    }
  }

  lemma {:induction false} OneFetchRow(views: seq<StepView>, k: nat, merged: StepView)
    requires OnlyFetchAt(views, k)
    ensures FetchRows(views) == [views[k]] && InFirstPlace(views, merged) == views[k := merged]
  {
    assert views == [views[0]] + views[1..];
    if k == 0 {
      NoFetchRows(views[1..]);
    } else {
      OneFetchRow(views[1..], k - 1, merged);
    }
  }

  /** With one fetch row the merge changes that row only. */
  lemma OneRowMerged(views: seq<StepView>, k: nat, now: int)
    requires OnlyFetchAt(views, k)
    ensures MergeFetches(views, now) == views[k := MergedRow([views[k]], now)]
    ensures MergedRow([views[k]], now).state == MergedState(views[k], views[k].own, now)
  {
    OneFetchRow(views, k, MergedRow([views[k]], now));
    OwnOfAppend([], views[k]);
    assert [] + [views[k]] == [views[k]] && [] + views[k].own == views[k].own;
  }

  lemma RowSteps(items: seq<StreamItem>)
    requires Orderly(items)
    ensures |LiveRows(items)| == |StartsOf(items)|
    ensures forall i :: 0 <= i < |StartsOf(items)| ==>
      LiveRows(items)[i].step == StartsOf(items)[i].step && LiveRows(items)[i].startedAt == StartsOf(items)[i].at
  {
    RowCounts(items);
    forall i | 0 <= i < |StartsOf(items)|
      ensures LiveRows(items)[i].step == StartsOf(items)[i].step
          && LiveRows(items)[i].startedAt == StartsOf(items)[i].at {
      LiveRowAt(items, i);
    }
  }

  // ------------------------------------------------------------------ the links of the fetch row

  function FetchesIn(events: seq<Event>): (r: seq<Event>)
    ensures forall f :: f in r ==> f.FetchEvent?
  {
    if events == [] then []
    else
      var init, last := events[..|events| - 1], events[|events| - 1];
      if last.FetchEvent? then FetchesIn(init) + [last] else FetchesIn(init)
  }

  function StatusesIn(events: seq<Event>): (r: seq<FetchStatus>)
    ensures |r| == |FetchesIn(events)|
    ensures forall i :: 0 <= i < |r| ==>
      FetchesIn(events)[i] in FetchesIn(events) && r[i] == FetchesIn(events)[i].fetch
  {
    var all := FetchesIn(events);
    seq(|all|, i requires 0 <= i < |all| => assert all[i] in all; all[i].fetch)
  }

  lemma FetchesSnoc(events: seq<Event>, e: Event)
    ensures FetchesIn(events + [e]) == if e.FetchEvent? then FetchesIn(events) + [e] else FetchesIn(events)
    ensures StatusesIn(events + [e]) == if e.FetchEvent? then StatusesIn(events) + [e.fetch] else StatusesIn(events)
  {
    assert (events + [e])[..|events|] == events;
  }

  lemma {:induction false} FetchesGrow(events: seq<Event>, n: nat)
    requires n <= |events|
    ensures FetchesIn(events[..n]) <= FetchesIn(events) && StatusesIn(events[..n]) <= StatusesIn(events)
  {
    if n == |events| {
      assert events[..n] == events;
    } else {
      var init, last := events[..|events| - 1], events[|events| - 1];
      assert init[..n] == events[..n] && events == init + [last];
      FetchesGrow(init, n);
      FetchesSnoc(init, last);
    }
  }

  lemma {:induction false} AddsNewLink(list: seq<Event>, e: Event)
    requires e.FetchEvent? && (forall f :: f in list ==> f.FetchEvent?)
        && (forall f :: f in list ==> f.itemId != e.itemId)
    ensures Upsert(list, e) == list + [e]
  {
    if list != [] {
      AddsNewLink(list[1..], e);
      assert list == [list[0]] + list[1..];
    }
  }

  lemma LastLinkIsNew(list: seq<Event>, e: Event)
    requires (forall f :: f in list + [e] ==> f.FetchEvent?) && DistinctItems(list + [e])
    ensures (forall f :: f in list ==> f.FetchEvent?) && DistinctItems(list)
    ensures e.FetchEvent? && forall f :: f in list ==> f.itemId != e.itemId
  {
    var all := list + [e];
    assert e == all[|list|] && e in all;
    forall f | f in list ensures f.FetchEvent? && f.itemId != e.itemId {
      var i :| 0 <= i < |list| && list[i] == f;
      assert f == all[i] && f in all;
    }
    assert forall i :: 0 <= i < |list| ==> all[i] == list[i];
  }

  /** When every link has one event, all of them are the latest. */
  lemma {:induction false} EveryFetchIsLatest(events: seq<Event>)
    requires DistinctItems(FetchesIn(events))
    ensures LatestFetches(events) == FetchesIn(events)
  {
    if events != [] {
      var init, last := events[..|events| - 1], events[|events| - 1];
      assert events == init + [last];
      FetchesSnoc(init, last);
      if last.FetchEvent? {
        LastLinkIsNew(FetchesIn(init), last);
        EveryFetchIsLatest(init);
        AddsNewLink(FetchesIn(init), last);
      } else {
        EveryFetchIsLatest(init);
      }
    }
  }

  predicate AllStatus(statuses: seq<FetchStatus>, status: FetchStatus) {
    forall i :: 0 <= i < |statuses| ==> statuses[i] == status
  }

  /** The state of a fetch row with these links, this long after its start. */
  function SavedState(state: RowState, statuses: seq<FetchStatus>, age: int): RowState {
    if Pending in statuses then (if age < FETCH_RUNNING_MS then Running else RowDone)
    else if statuses == [] then state
    else if AllStatus(statuses, ReadRefused) then RowRefused
    else if AllStatus(statuses, ReadFailed) then RowFailed
    else RowDone
  }

  lemma StatusOf(events: seq<Event>, status: FetchStatus)
    ensures status in StatusesIn(events) <==> exists f :: f in FetchesIn(events) && f.fetch == status
    ensures AllStatus(StatusesIn(events), status) <==> AllAre(FetchesIn(events), status)
  {
    var all, statuses := FetchesIn(events), StatusesIn(events);
    forall f | f in all ensures f.fetch in statuses {
      var i :| 0 <= i < |all| && all[i] == f;
      assert statuses[i] == f.fetch;
    }
    forall i | 0 <= i < |all| ensures all[i] in all && statuses[i] == all[i].fetch {
    }
  }

  /** With one event for each link the merged state is a function of the statuses alone. */
  lemma MergedStateByStatus(head: StepView, own: seq<Event>, now: int)
    requires DistinctItems(FetchesIn(own))
    ensures MergedState(head, own, now) == SavedState(head.state, StatusesIn(own), now - head.startedAt)
  {
    EveryFetchIsLatest(own);
    StatusOf(own, Pending);
    StatusOf(own, ReadRefused);
    StatusOf(own, ReadFailed);
  }

  // ------------------------------------------------------------------ which links never go back

  /** No link, or the first is still to be read, or none is: then either every one was refused, or every
      one failed, or the first was read. */
  predicate NeverGoesBack(statuses: seq<FetchStatus>) {
    || statuses == []
    || statuses[0] == Pending
    || (Pending !in statuses
        && (AllStatus(statuses, ReadRefused) || AllStatus(statuses, ReadFailed)
            || statuses[0] == Full || statuses[0] == Partial))
  }

  /** A state that is over is the later one too. */
  predicate Stays(early: RowState, late: RowState) {
    early != Running ==> late == early
  }

  /** While links are added one by one and time passes, no state goes back. */
  lemma StatesStay(all: seq<FetchStatus>, a: seq<FetchStatus>, b: seq<FetchStatus>, early: RowState, late: RowState,
                   ageEarly: int, ageLate: int)
    requires NeverGoesBack(all) && a <= b <= all && ageEarly <= ageLate
    requires Stays(early, late) && (early != Running ==> a == b)
    ensures Stays(SavedState(early, a, ageEarly), SavedState(late, b, ageLate))
  {
    if a != [] {
      assert a[0] == b[0] == all[0];
      if all[0] == Pending {
        assert Pending in a && Pending in b;
      } else {
        assert Pending !in a && Pending !in b;
      }
    }
  }

  /** Otherwise the first link alone gives a state that all of them together take back. */
  lemma StateGoesBack(statuses: seq<FetchStatus>, early: RowState, late: RowState)
    requires !NeverGoesBack(statuses)
    ensures |statuses| > 1
    ensures !Stays(SavedState(early, statuses[..1], 0), SavedState(late, statuses, 0))
  {
    var first := statuses[..1];
    assert first == [statuses[0]] && Pending !in first;
  }

  // ------------------------------------------------------------------ the stream of such a turn

  function FetchIndex(items: seq<StreamItem>): nat {
    FetchPlace(StartsOf(items))
  }

  predicate HasFetch(items: seq<StreamItem>) {
    FetchIndex(items) < |StartsOf(items)|
  }

  /** The fetch row's own events after these items. */
  function FetchOwn(items: seq<StreamItem>): seq<Event> {
    if HasFetch(items) then OwnAt(Unnumbered(RecordedOf(items)), FetchIndex(items)) else []
  }

  /** What the fetch row says of its links, in order. */
  function Statuses(items: seq<StreamItem>): seq<FetchStatus> {
    StatusesIn(FetchOwn(items))
  }

  predicate SavedInside(items: seq<StreamItem>) {
    forall i :: 0 <= i < |items| && items[i].StepStarted? && items[i].step == Fetch ==> Statuses(items[..i + 1]) == []
  }

  /** A turn saves its links at most once: one fetch step, whose links are reported inside it, each one
      once. A turn without a fetch step is one too. */
  predicate SavesOnce(items: seq<StreamItem>) {
    OneFetchStart(StartsOf(items)) && SavedInside(items) && DistinctItems(FetchesIn(FetchOwn(items)))
  }

  lemma PlaceStays(a: seq<StepStart>, b: seq<StepStart>)
    requires FetchPlace(a) < |a|
    ensures FetchPlace(a + b) == FetchPlace(a)
  {
    var k, j := FetchPlace(a), FetchPlace(a + b);
    assert (a + b)[k] == a[k];
  }

  lemma StartsOfPrefix(items: seq<StreamItem>, n: nat)
    requires n <= |items|
    ensures StartsOf(items[..n]) <= StartsOf(items)
    ensures OneFetchStart(StartsOf(items)) ==> OneFetchStart(StartsOf(items[..n]))
    ensures HasFetch(items[..n]) ==> HasFetch(items) && FetchIndex(items) == FetchIndex(items[..n])
  {
    assert items == items[..n] + items[n..];
    ProjectionsConcat(items[..n], items[n..]);
    if HasFetch(items[..n]) {
      PlaceStays(StartsOf(items[..n]), StartsOf(items[n..]));
    }
  }

  lemma OrderlyPrefix(items: seq<StreamItem>, n: nat)
    requires Orderly(items) && n <= |items|
    ensures Orderly(items[..n]) && Grows(LiveRows(items[..n]), LiveRows(items))
  {
    LiveRowsGrow(items, n);
  }

  /** The goal at any prefix: the rows themselves, but for the one fetch row. */
  lemma GoalIs(items: seq<StreamItem>, now: int)
    requires Orderly(items) && OneFetchStart(StartsOf(items))
    ensures |LiveRows(items)| == |StartsOf(items)| == |GoalAt(items, now)|
    ensures forall i :: 0 <= i < |LiveRows(items)| && !(HasFetch(items) && i == FetchIndex(items)) ==>
      GoalAt(items, now)[i] == LiveRows(items)[i]
    ensures HasFetch(items) ==>
      var k := FetchIndex(items);
      GoalAt(items, now)[k].state == MergedState(LiveRows(items)[k], FetchOwn(items), now)
  {
    RowSteps(items);
    var k, rows := FetchIndex(items), LiveRows(items);
    if HasFetch(items) {
      OneRowMerged(rows, k, now);
      LiveOwn(items, k);
    } else {
      NoFetchRows(rows);
    }
  }

  lemma GoalByStatus(items: seq<StreamItem>, now: int)
    requires Orderly(items) && OneFetchStart(StartsOf(items)) && DistinctItems(FetchesIn(FetchOwn(items)))
        && HasFetch(items)
    ensures FetchIndex(items) < |LiveRows(items)| == |GoalAt(items, now)|
    ensures var head := LiveRows(items)[FetchIndex(items)];
      GoalAt(items, now)[FetchIndex(items)].state == SavedState(head.state, Statuses(items), now - head.startedAt)
  {
    GoalIs(items, now);
    MergedStateByStatus(LiveRows(items)[FetchIndex(items)], FetchOwn(items), now);
  }

  lemma DistinctPrefix(a: seq<Event>, b: seq<Event>)
    requires (forall f :: f in b ==> f.FetchEvent?) && a <= b && DistinctItems(b)
    ensures (forall f :: f in a ==> f.FetchEvent?) && DistinctItems(a)
  {
    forall f | f in a ensures f.FetchEvent? {
      var i :| 0 <= i < |a| && a[i] == f;
      assert b[i] == f;
    }
  }

  lemma OwnOfPrefix(items: seq<StreamItem>, n: nat)
    requires Orderly(items) && n <= |items| && HasFetch(items[..n])
    ensures HasFetch(items) && FetchOwn(items[..n]) <= FetchOwn(items)
  {
    OrderlyPrefix(items, n);
    StartsOfPrefix(items, n);
    RowCounts(items[..n]);
    RowCounts(items);
    assert items == items[..n] + items[n..];
    OwnEventsGrow(items[..n], items[n..], FetchIndex(items));
    LiveOwn(items[..n], FetchIndex(items));
    LiveOwn(items, FetchIndex(items));
  }

  lemma StatusesGrow(early: seq<Event>, late: seq<Event>)
    requires early <= late && DistinctItems(FetchesIn(late))
    ensures StatusesIn(early) <= StatusesIn(late) && DistinctItems(FetchesIn(early))
  {
    assert early == late[..|early|];
    FetchesGrow(late, |early|);
    DistinctPrefix(FetchesIn(early), FetchesIn(late));
  }

  /** A prefix has seen some of the links, the first ones. */
  lemma StatusesOfPrefix(items: seq<StreamItem>, n: nat)
    requires Orderly(items) && n <= |items| && SavesOnce(items)
    ensures Statuses(items[..n]) <= Statuses(items) && DistinctItems(FetchesIn(FetchOwn(items[..n])))
    ensures Orderly(items[..n]) && OneFetchStart(StartsOf(items[..n]))
  {
    OrderlyPrefix(items, n);
    StartsOfPrefix(items, n);
    if HasFetch(items[..n]) {
      OwnOfPrefix(items, n);
      StatusesGrow(FetchOwn(items[..n]), FetchOwn(items));
    }
  }

  // ------------------------------------------------------------------ goals of the stream

  /** What two prefixes that have the fetch step see of it. */
  lemma FetchStepSeen(items: seq<StreamItem>, m: nat, n: nat)
    requires m <= n <= |items| && Orderly(items) && SavesOnce(items) && HasFetch(items[..m])
    ensures HasFetch(items[..n]) && FetchIndex(items[..n]) == FetchIndex(items[..m])
    ensures Statuses(items[..m]) <= Statuses(items[..n]) <= Statuses(items)
    ensures FetchIndex(items[..m]) < |LiveRows(items[..m])| && FetchIndex(items[..m]) < |LiveRows(items[..n])|
    ensures var x, y := LiveRows(items[..m])[FetchIndex(items[..m])], LiveRows(items[..n])[FetchIndex(items[..m])];
      && x.startedAt == y.startedAt && Stays(x.state, y.state)
      && (x.state != Running ==> Statuses(items[..m]) == Statuses(items[..n]))
  {
    StatusesOfPrefix(items, n);
    assert items[..n][..m] == items[..m];
    StartsOfPrefix(items[..n], m);
    OwnOfPrefix(items[..n], m);
    OrderlyPrefix(items[..n], m);
    FinishedOwnStays(items[..n], m);
    StatusesGrow(FetchOwn(items[..m]), FetchOwn(items[..n]));
  }

  /** The fetch row between two prefixes. */
  lemma FetchRowStays(items: seq<StreamItem>, m: nat, n: nat, early: int, late: int)
    requires m <= n <= |items| && early <= late && Orderly(items) && SavesOnce(items) && NeverGoesBack(Statuses(items))
    requires HasFetch(items[..m])
    ensures HasFetch(items[..n]) && FetchIndex(items[..n]) == FetchIndex(items[..m])
    ensures FetchIndex(items[..m]) < |GoalAt(items[..m], early)| && FetchIndex(items[..m]) < |GoalAt(items[..n], late)|
    ensures Stays(GoalAt(items[..m], early)[FetchIndex(items[..m])].state,
        GoalAt(items[..n], late)[FetchIndex(items[..m])].state)
  {
    StatusesOfPrefix(items, m);
    StatusesOfPrefix(items, n);
    FetchStepSeen(items, m, n);
    GoalByStatus(items[..m], early);
    GoalByStatus(items[..n], late);
    var x, y := LiveRows(items[..m])[FetchIndex(items[..m])], LiveRows(items[..n])[FetchIndex(items[..m])];
    StatesStay(Statuses(items), Statuses(items[..m]), Statuses(items[..n]), x.state, y.state, early - x.startedAt,
        late - y.startedAt);
  }

  lemma FinishedOwnStays(items: seq<StreamItem>, m: nat)
    requires Orderly(items) && m <= |items| && HasFetch(items[..m])
    ensures Orderly(items[..m]) && HasFetch(items) && FetchIndex(items[..m]) < |LiveRows(items[..m])|
    ensures LiveRows(items[..m])[FetchIndex(items[..m])].state != Running ==> FetchOwn(items[..m]) == FetchOwn(items)
  {
    OrderlyPrefix(items, m);
    StartsOfPrefix(items, m);
    RowCounts(items[..m]);
    LiveOwn(items[..m], FetchIndex(items));
    LiveOwn(items, FetchIndex(items));
  }

  /** While the links never go back, neither does any row. */
  lemma RowsStay(items: seq<StreamItem>, m: nat, n: nat, early: int, late: int, i: nat)
    requires m <= n <= |items| && early <= late && Orderly(items) && SavesOnce(items) && NeverGoesBack(Statuses(items))
    requires i < |GoalAt(items[..m], early)|
    ensures |GoalAt(items[..m], early)| <= |GoalAt(items[..n], late)|
    ensures Stays(GoalAt(items[..m], early)[i].state, GoalAt(items[..n], late)[i].state)
  {
    StatusesOfPrefix(items, m);
    StatusesOfPrefix(items, n);
    assert items[..n][..m] == items[..m];
    OrderlyPrefix(items[..n], m);
    StartsOfPrefix(items[..n], m);
    GoalIs(items[..m], early);
    GoalIs(items[..n], late);
    if HasFetch(items[..m]) && i == FetchIndex(items[..m]) {
      FetchRowStays(items, m, n, early, late);
    } else {
      PlaceIsNew(StartsOf(items[..m]), StartsOf(items[..n]), i);
    }
  }

  lemma PlaceIsNew(early: seq<StepStart>, late: seq<StepStart>, i: nat)
    requires early <= late && OneFetchStart(late) && i < |early| && i != FetchPlace(early)
    ensures i != FetchPlace(late)
  {
    assert early[i] == late[i];
    if FetchPlace(early) < |early| {
      assert late[FetchPlace(early)] == early[FetchPlace(early)];
    }
  }

  // ------------------------------------------------------------------ a stream that goes back

  lemma OwnAfterItem(items: seq<StreamItem>, item: StreamItem)
    requires Orderly(items + [item]) && HasFetch(items)
    ensures HasFetch(items + [item])
    ensures FetchOwn(items + [item]) == FetchOwn(items)
         || (item.Recorded? && FetchOwn(items + [item]) == FetchOwn(items) + [item.stored.event])
  {
    var all := items + [item];
    assert all[..|items|] == items;
    OrderlyPrefix(all, |items|);
    StartsOfPrefix(all, |items|);
    RowCounts(items);
    LiveOwn(items, FetchIndex(items));
    if item.Recorded? {
      assert Unnumbered(RecordedOf(all)) == Unnumbered(RecordedOf(items)) + [item.stored.event];
      OwnAtSnoc(Unnumbered(RecordedOf(items)), item.stored.event, FetchIndex(items));
    }
  }

  /** One item shows at most one more link. */
  lemma OneMoreStatus(items: seq<StreamItem>, item: StreamItem)
    requires Orderly(items + [item]) && SavedInside(items + [item])
    ensures |Statuses(items + [item])| <= |Statuses(items)| + 1
  {
    var all := items + [item];
    assert all[..|items|] == items;
    if HasFetch(items) {
      OwnAfterItem(items, item);
      if item.Recorded? {
        FetchesSnoc(FetchOwn(items), item.stored.event);
      }
    } else if item.StepStarted? && item.step == Fetch {
      assert all[..|items| + 1] == all && all[|items|] == item;
    } else {
      NewStartOnly(items, item);
    }
  }

  lemma NewStartOnly(items: seq<StreamItem>, item: StreamItem)
    requires !HasFetch(items) && !(item.StepStarted? && item.step == Fetch)
    ensures !HasFetch(items + [item])
  {
    assert (items + [item])[..|items|] == items;
  }

  /** There is a moment when exactly one link has been reported. */
  lemma {:induction false} FirstLink(items: seq<StreamItem>) returns (m: nat)
    requires Orderly(items) && SavedInside(items) && |Statuses(items)| >= 1
    ensures m <= |items| && |Statuses(items[..m])| == 1
  {
    var init, last := items[..|items| - 1], items[|items| - 1];
    assert items == init + [last];
    OrderlyPrefix(items, |items| - 1);
    SavedBefore(items);
    if |Statuses(init)| >= 1 {
      m := FirstLink(init);
      assert init[..m] == items[..m];
    } else {
      OneMoreStatus(init, last);
      m := |items|;
      assert items[..m] == items;
    }
  }

  lemma SavedBefore(items: seq<StreamItem>)
    requires SavedInside(items) && |items| > 0
    ensures SavedInside(items[..|items| - 1])
  {
    var init := items[..|items| - 1];
    forall i | 0 <= i < |init| && init[i].StepStarted? && init[i].step == Fetch ensures Statuses(init[..i + 1]) == [] {
      assert init[i] == items[i] && init[..i + 1] == items[..i + 1];
    }
  }
}
