// From a turn's events to the rows of its Trail: one function for a live turn and a stored one.

module TrailModel {
  import opened Basics
  import opened Events

  datatype TrailEvent = TrailEvent(number: int, event: Event)
  datatype StepStart = StepStart(step: AgentStep, at: int)
  datatype RowState = Running | RowDone | RowHeld | RowRefused | RowFailed

  /** One row: `own` are the events written since the previous step's event. Times are milliseconds. */
  datatype StepView = StepView(
    key: string, step: AgentStep, state: RowState, startedAt: int, latencyMs: Option<int>, own: seq<Event>)

  const FETCH_RUNNING_MS := 15 * 60_000

  function StateOf(status: StepStatus): (state: RowState)
    ensures state != Running
  {
    match status
    case Done => RowDone
    case Held => RowHeld
    case Refused => RowRefused
    case Failed => RowFailed
  }

  // ------------------------------------------------------------------ row keys

  function StepName(step: AgentStep): string {
    match step
    case Understand => "understand" case Extract => "extract" case Dates => "dates"
    case Entities => "entities" case Reconcile => "reconcile" case Enrich => "enrich"
    case Guard => "guard" case Save => "save" case Answer => "answer" case Undo => "undo"
    case Confirm => "confirm" case Plan => "plan" case Search => "search" case Rank => "rank"
    case Triggers => "triggers" case Fetch => "fetch" case Blocked => "blocked"
  }

  function Key(step: AgentStep, index: nat): string {
    StepName(step) + "-" + NatText(index)
  }

  lemma StepNames(a: AgentStep, b: AgentStep)
    ensures Lacks(StepName(a), '-')
    ensures StepName(a) == StepName(b) ==> a == b
  {
    if StepName(a) == StepName(b) {
      assert |StepName(a)| == |StepName(b)| && StepName(a)[0] == StepName(b)[0];
    }
  }

  lemma KeyParts(step: AgentStep, index: nat)
    ensures Split(Key(step, index), '-') == [StepName(step), NatText(index)]
  {
    StepNames(step, step);
    assert Lacks(NatText(index), '-');
    SplitWhole(StepName(step), '-');
    SplitWhole(NatText(index), '-');
    SplitAt(StepName(step), NatText(index), '-');
    assert StepName(step) + ['-'] + NatText(index) == Key(step, index);
  }

  /** A row's key determines both its step and its position. */
  lemma KeysDiffer(a: AgentStep, i: nat, b: AgentStep, j: nat)
    requires Key(a, i) == Key(b, j)
    ensures a == b && i == j
  {
    KeyParts(a, i);
    KeyParts(b, j);
    var parts := Split(Key(a, i), '-');
    assert parts[0] == StepName(a) == StepName(b) && parts[1] == NatText(i) == NatText(j);
    StepNames(a, b);
    ParseNatText(i);
    ParseNatText(j);
  }

  // ------------------------------------------------------------------ sorting by number

  function Insert(e: TrailEvent, sorted: seq<TrailEvent>): seq<TrailEvent> {
    if sorted == [] || sorted[|sorted| - 1].number <= e.number then sorted + [e]
    else Insert(e, sorted[..|sorted| - 1]) + [sorted[|sorted| - 1]]
  }

  /** `[...events].sort((a, b) => a.seq - b.seq)`: a stable ascending sort. */
  function SortByNumber(events: seq<TrailEvent>): seq<TrailEvent> {
    if events == [] then []
    else Insert(events[|events| - 1], SortByNumber(events[..|events| - 1]))
  }

  predicate Ascending(events: seq<TrailEvent>) {
    forall i, j :: 0 <= i < j < |events| ==> events[i].number <= events[j].number
  }

  predicate StrictlyAscending(events: seq<TrailEvent>) {
    forall i, j :: 0 <= i < j < |events| ==> events[i].number < events[j].number
  }

  predicate DistinctNumbers(events: seq<TrailEvent>) {
    forall i, j :: 0 <= i < j < |events| ==> events[i].number != events[j].number
  }

  lemma LastIsLargest(sorted: seq<TrailEvent>, last: TrailEvent)
    requires Ascending(sorted) && forall x :: x in sorted ==> x.number <= last.number
    ensures Ascending(sorted + [last])
  {
    forall i | 0 <= i < |sorted| ensures sorted[i].number <= last.number {
      assert sorted[i] in sorted;
    }
  }

  lemma FirstAreSmaller(sorted: seq<TrailEvent>, last: TrailEvent)
    requires Ascending(sorted + [last])
    ensures Ascending(sorted) && forall x :: x in sorted ==> x.number <= last.number
  {
    var all := sorted + [last];
    forall i, j | 0 <= i < j < |sorted| ensures sorted[i].number <= sorted[j].number {
      assert all[i] == sorted[i] && all[j] == sorted[j];
    }
    forall x | x in sorted ensures x.number <= last.number {
      var i :| 0 <= i < |sorted| && sorted[i] == x;
      assert all[i] == x && all[|sorted|] == last;
    }
  }

  lemma {:induction false} InsertSorts(e: TrailEvent, sorted: seq<TrailEvent>)
    requires Ascending(sorted)
    ensures Ascending(Insert(e, sorted))
    ensures multiset(Insert(e, sorted)) == multiset(sorted) + multiset{e}
  {
    if sorted == [] || sorted[|sorted| - 1].number <= e.number {
      assert forall x :: x in sorted ==> x.number <= e.number;
      LastIsLargest(sorted, e);
    } else {
      var init, last := sorted[..|sorted| - 1], sorted[|sorted| - 1];
      assert sorted == init + [last];
      FirstAreSmaller(init, last);
      InsertSorts(e, init);
      forall x | x in Insert(e, init) ensures x.number <= last.number {
        assert x in multiset(Insert(e, init));
        assert x == e || x in init;
      }
      LastIsLargest(Insert(e, init), last);
    }
  }

  lemma {:induction false} SortSorts(events: seq<TrailEvent>)
    ensures Ascending(SortByNumber(events))
    ensures multiset(SortByNumber(events)) == multiset(events)
  {
    if events != [] {
      var init, last := events[..|events| - 1], events[|events| - 1];
      assert events == init + [last];
      SortSorts(init);
      SortSnoc(init, last);
      InsertSorts(last, SortByNumber(init));
    }
  }

  lemma SortSnoc(events: seq<TrailEvent>, e: TrailEvent)
    ensures SortByNumber(events + [e]) == Insert(e, SortByNumber(events))
  {
    assert (events + [e])[..|events|] == events;
  }

  lemma {:induction false} SortedStays(events: seq<TrailEvent>)
    requires Ascending(events)
    ensures SortByNumber(events) == events
  {
    if events != [] {
      var init, last := events[..|events| - 1], events[|events| - 1];
      assert events == init + [last];
      FirstAreSmaller(init, last);
      SortedStays(init);
      SortSnoc(init, last);
      assert init != [] ==> init[|init| - 1] in init;
    }
  }

  lemma SameHead(a: seq<TrailEvent>, b: seq<TrailEvent>)
    requires StrictlyAscending(a) && StrictlyAscending(b) && a != [] && b != []
    requires a[0] in b && b[0] in a
    ensures a[0] == b[0]
  {
    var i :| 0 <= i < |b| && b[i] == a[0];
    var j :| 0 <= j < |a| && a[j] == b[0];
    assert i == 0;
  }

  lemma TailMultiset(a: seq<TrailEvent>)
    requires a != []
    ensures multiset(a[1..]) == multiset(a) - multiset{a[0]}
  {
    assert a == [a[0]] + a[1..];
  }

  /** Two ascending lists of the same events with distinct numbers are the same list. */
  lemma {:induction false} AscendingIsUnique(a: seq<TrailEvent>, b: seq<TrailEvent>)
    requires StrictlyAscending(a) && StrictlyAscending(b)
    requires multiset(a) == multiset(b)
    ensures a == b
  {
    assert |multiset(a)| == |a| && |multiset(b)| == |b|;
    if a != [] {
      assert a[0] in multiset(b) && b[0] in multiset(a);
      SameHead(a, b);
      TailMultiset(a);
      TailMultiset(b);
      AscendingIsUnique(a[1..], b[1..]);
      assert a == [a[0]] + a[1..] && b == [b[0]] + b[1..];
    }
  }

  lemma DistinctIsStrict(sorted: seq<TrailEvent>, events: seq<TrailEvent>)
    requires Ascending(sorted) && DistinctNumbers(events) && multiset(sorted) == multiset(events)
    ensures StrictlyAscending(sorted)
  {
    forall i, j | 0 <= i < j < |sorted| ensures sorted[i].number != sorted[j].number {
      if sorted[i].number == sorted[j].number {
        assert sorted[i] in multiset(events) && sorted[j] in multiset(events);
        var x :| 0 <= x < |events| && events[x] == sorted[i];
        var y :| 0 <= y < |events| && events[y] == sorted[j];
        assert x == y;
        TwiceCounts(sorted, i, j);
        OnceCounts(events, x);
      }
    }
  }

  lemma TwiceCounts(s: seq<TrailEvent>, i: nat, j: nat)
    requires i < j < |s| && s[i] == s[j]
    ensures multiset(s)[s[i]] >= 2
  {
    assert s == s[..j] + s[j..];
    assert s[i] in s[..j] && s[j] in s[j..];
  }

  lemma OnceCounts(s: seq<TrailEvent>, x: nat)
    requires x < |s| && DistinctNumbers(s)
    ensures multiset(s)[s[x]] == 1
  {
    assert s == s[..x] + [s[x]] + s[x + 1..];
    assert s[x] !in s[..x] && s[x] !in s[x + 1..];
  }

  /** Events with distinct numbers sort to one list, in whatever order they arrived. */
  lemma SortIgnoresOrder(a: seq<TrailEvent>, b: seq<TrailEvent>)
    requires DistinctNumbers(a) && multiset(a) == multiset(b)
    ensures SortByNumber(a) == SortByNumber(b)
  {
    SortSorts(a);
    SortSorts(b);
    DistinctIsStrict(SortByNumber(a), a);
    DistinctIsStrict(SortByNumber(b), a);
    AscendingIsUnique(SortByNumber(a), SortByNumber(b));
  }

  // ------------------------------------------------------------------ rows before the fetch merge

  datatype Rows = Rows(rows: seq<StepView>, pending: seq<Event>)

  function StepRow(index: nat, e: Event, own: seq<Event>): StepView
    requires e.StepEvent?
  {
    StepView(Key(e.step, index), e.step, StateOf(e.status), e.startedAt, Some(e.latencyMs), own)
  }

  function RunningRow(index: nat, start: StepStart, own: seq<Event>): StepView {
    StepView(Key(start.step, index), start.step, Running, start.at, None, own)
  }

  function AddEvent(r: Rows, e: Event): Rows {
    if e.StepEvent? then Rows(r.rows + [StepRow(|r.rows|, e, r.pending)], [])
    else r.(pending := r.pending + [e])
  }

  function Replay(events: seq<Event>): Rows {
    if events == [] then Rows([], [])
    else AddEvent(Replay(events[..|events| - 1]), events[|events| - 1])
  }

  /** Steps the server started that have not reported their end yet are running. */
  function AddStarts(r: Rows, starts: seq<StepStart>): seq<StepView>
    decreases |starts| - |r.rows|
  {
    if |starts| <= |r.rows| then r.rows
    else AddStarts(Rows(r.rows + [RunningRow(|r.rows|, starts[|r.rows|], r.pending)], []), starts)
  }

  function EventsOf(events: seq<TrailEvent>): (r: seq<Event>)
    ensures |r| == |events| && forall i :: 0 <= i < |r| ==> r[i] == events[i].event
  {
    seq(|events|, i requires 0 <= i < |events| => events[i].event)
  }

  function RawRows(events: seq<TrailEvent>, starts: seq<StepStart>): seq<StepView> {
    AddStarts(Replay(EventsOf(SortByNumber(events))), starts)
  }

  function StepViews(events: seq<TrailEvent>, starts: seq<StepStart>, now: int): seq<StepView> {
    MergeFetches(RawRows(events, starts), now)
  }

  /** The rows depend on the events and their numbers, not on the order they arrived in. */
  lemma StepViewsIgnoreArrivalOrder(a: seq<TrailEvent>, b: seq<TrailEvent>, starts: seq<StepStart>, now: int)
    requires DistinctNumbers(a) && multiset(a) == multiset(b)
    ensures StepViews(a, starts, now) == StepViews(b, starts, now)
  {
    SortIgnoresOrder(a, b);
  }

  function StepsIn(events: seq<Event>): (r: seq<Event>)
    ensures forall i :: 0 <= i < |r| ==> r[i].StepEvent?
  {
    if events == [] then []
    else
      var init, last := events[..|events| - 1], events[|events| - 1];
      if last.StepEvent? then StepsIn(init) + [last] else StepsIn(init)
  }

  function NonSteps(events: seq<Event>): seq<Event> {
    if events == [] then []
    else
      var init, last := events[..|events| - 1], events[|events| - 1];
      if last.StepEvent? then NonSteps(init) else NonSteps(init) + [last]
  }

  /** Every row's own events, row after row. */
  function OwnOf(rows: seq<StepView>): seq<Event> {
    if rows == [] then [] else OwnOf(rows[..|rows| - 1]) + rows[|rows| - 1].own
  }

  lemma OwnOfAppend(rows: seq<StepView>, row: StepView)
    ensures OwnOf(rows + [row]) == OwnOf(rows) + row.own
  {
    assert (rows + [row])[..|rows|] == rows;
  }

  /** One row per recorded step, in order and with that step's outcome. */
  lemma {:induction false} ReplayRows(events: seq<Event>)
    ensures |Replay(events).rows| == |StepsIn(events)|
    ensures forall i :: 0 <= i < |StepsIn(events)| ==>
      Replay(events).rows[i] == StepRow(i, StepsIn(events)[i], Replay(events).rows[i].own)
  {
    if events != [] {
      ReplayRows(events[..|events| - 1]);
    }
  }

  /** No event is lost or moved: the rows' own events and then the trailing ones are all the
      non-step events, in order. */
  lemma {:induction false} ReplayKeepsEvents(events: seq<Event>)
    ensures OwnOf(Replay(events).rows) + Replay(events).pending == NonSteps(events)
  {
    if events != [] {
      var init, last := events[..|events| - 1], events[|events| - 1];
      ReplayKeepsEvents(init);
      var r := Replay(init);
      if last.StepEvent? {
        OwnOfAppend(r.rows, StepRow(|r.rows|, last, r.pending));
      } else {
        assert (OwnOf(r.rows) + r.pending) + [last] == OwnOf(r.rows) + (r.pending + [last]);
      }
    }
  }

  lemma ReplaySnoc(events: seq<Event>, e: Event)
    ensures Replay(events + [e]) == AddEvent(Replay(events), e)
    ensures StepsIn(events + [e]) == StepsIn(events) + (if e.StepEvent? then [e] else [])
  {
    assert (events + [e])[..|events|] == events;
  }

  /** The later replay keeps the earlier one's rows, and its trailing events until a row takes them. */
  predicate Replayed(early: Rows, late: Rows) {
    early.rows <= late.rows && (|early.rows| == |late.rows| ==> early.pending <= late.pending)
  }

  lemma ReplayedMore(early: Rows, late: Rows, e: Event)
    requires Replayed(early, late)
    ensures Replayed(early, AddEvent(late, e))
  {
  }

  /** Recorded rows never change again: replaying more events only adds to them. */
  lemma {:induction false} ReplayGrows(events: seq<Event>, more: seq<Event>)
    ensures Replayed(Replay(events), Replay(events + more))
  {
    if more == [] {
      assert events + more == events;
    } else {
      var init, last := more[..|more| - 1], more[|more| - 1];
      ReplayGrows(events, init);
      assert events + more == (events + init) + [last];
      ReplaySnoc(events + init, last);
      ReplayedMore(Replay(events), Replay(events + init), last);
    }
  }

  lemma {:induction false} PendingSince(before: seq<Event>, own: seq<Event>)
    requires NoSteps(own) && (before == [] || before[|before| - 1].StepEvent?)
    ensures Replay(before + own) == Rows(Replay(before).rows, own)
  {
    if own == [] {
      assert before + own == before;
    } else {
      var init, last := own[..|own| - 1], own[|own| - 1];
      assert before + own == (before + init) + [last] && own == init + [last];
      PendingSince(before, init);
      ReplaySnoc(before + init, last);
    }
  }

  /** The row of a recorded step, whatever came before it and comes after: the step's own name and times,
      the state its status stands for, and exactly the events since the step before it. */
  lemma RowOfAStep(before: seq<Event>, own: seq<Event>, record: Event, after: seq<Event>)
    requires record.StepEvent? && NoSteps(own) && (before == [] || before[|before| - 1].StepEvent?)
    ensures var events, k := before + own + [record] + after, |StepsIn(before)|;
      k < |Replay(events).rows| && Replay(events).rows[k] == StepView(
        StepName(record.step) + "-" + NatText(k), record.step,
        if record.status == Done then RowDone else if record.status == Held then RowHeld
        else if record.status == Refused then RowRefused else RowFailed,
        record.startedAt, Some(record.latencyMs), own)
  {
    PendingSince(before, own);
    ReplaySnoc(before + own, record);
    ReplayRows(before);
    ReplayGrows(before + own + [record], after);
  }

  // ------------------------------------------------------------------ the latest read of each link

  function Upsert(list: seq<Event>, e: Event): (r: seq<Event>)
    requires e.FetchEvent? && forall f :: f in list ==> f.FetchEvent?
    ensures forall f :: f in r ==> f.FetchEvent?
  {
    if list == [] then [e]
    else if list[0].itemId == e.itemId then [e] + list[1..]
    else [list[0]] + Upsert(list[1..], e)
  }

  /** `byItem.set(...)` per fetch event, then the map's values: a link keeps its first place. */
  function LatestFetches(events: seq<Event>): (r: seq<Event>)
    ensures forall f :: f in r ==> f.FetchEvent?
  {
    if events == [] then []
    else
      var init, last := events[..|events| - 1], events[|events| - 1];
      if last.FetchEvent? then Upsert(LatestFetches(init), last) else LatestFetches(init)
  }

  /** The last fetch event of one link. */
  function LastFetch(events: seq<Event>, itemId: string): Option<Event> {
    if events == [] then None
    else
      var init, last := events[..|events| - 1], events[|events| - 1];
      if last.FetchEvent? && last.itemId == itemId then Some(last) else LastFetch(init, itemId)
  }

  predicate DistinctItems(list: seq<Event>)
    requires forall f :: f in list ==> f.FetchEvent?
  {
    forall i, j :: 0 <= i < j < |list| ==> list[i].itemId != list[j].itemId
  }

  lemma {:induction false} UpsertMeaning(list: seq<Event>, e: Event)
    requires e.FetchEvent? && forall f :: f in list ==> f.FetchEvent?
    requires DistinctItems(list)
    ensures DistinctItems(Upsert(list, e))
    ensures forall f :: f in Upsert(list, e) <==> f == e || (f in list && f.itemId != e.itemId)
  {
    if list != [] {
      assert list == [list[0]] + list[1..];
      if list[0].itemId == e.itemId {
        forall f | f in list[1..] ensures f.itemId != e.itemId {
          var i :| 0 <= i < |list[1..]| && list[1..][i] == f;
          assert list[i + 1] == f;
        }
      } else {
        UpsertMeaning(list[1..], e);
        var rest := Upsert(list[1..], e);
        forall f | f in rest ensures f.itemId != list[0].itemId {
          if f != e {
            var i :| 0 <= i < |list[1..]| && list[1..][i] == f;
            assert list[i + 1] == f;
          }
        }
        forall i, j | 0 <= i < j < |Upsert(list, e)|
          ensures Upsert(list, e)[i].itemId != Upsert(list, e)[j].itemId {
          if i == 0 { assert rest[j - 1] in rest; }
        }
      }
    }
  }

  /** `latestFetches` holds exactly the last event of each link, once. */
  lemma {:induction false} LatestIsLast(events: seq<Event>)
    ensures DistinctItems(LatestFetches(events))
    ensures forall f :: f in LatestFetches(events) <==> f.FetchEvent? && LastFetch(events, f.itemId) == Some(f)
  {
    if events != [] {
      var init, last := events[..|events| - 1], events[|events| - 1];
      LatestIsLast(init);
      if last.FetchEvent? {
        UpsertMeaning(LatestFetches(init), last);
      }
    }
  }

  function Seen(items: seq<string>, item: string): seq<string> {
    if item in items then items else items + [item]
  }

  /** The links read, each where it first occurs. */
  function FirstSeen(events: seq<Event>): seq<string> {
    if events == [] then []
    else
      var init, last := events[..|events| - 1], events[|events| - 1];
      if last.FetchEvent? then Seen(FirstSeen(init), last.itemId) else FirstSeen(init)
  }

  predicate Lists(list: seq<Event>, items: seq<string>)
    requires forall f :: f in list ==> f.FetchEvent?
  {
    |list| == |items| && forall i :: 0 <= i < |list| ==> list[i].itemId == items[i]
  }

  lemma ListsCons(head: Event, list: seq<Event>, items: seq<string>)
    requires head.FetchEvent? && (forall f :: f in list ==> f.FetchEvent?) && Lists(list, items)
    ensures Lists([head] + list, [head.itemId] + items)
  {
  }

  lemma ListsTail(list: seq<Event>, items: seq<string>)
    requires (forall f :: f in list ==> f.FetchEvent?) && Lists(list, items) && list != []
    ensures Lists(list[1..], items[1..]) && items == [list[0].itemId] + items[1..]
  {
  }

  lemma SeenCons(head: string, items: seq<string>, item: string)
    requires head != item
    ensures Seen([head] + items, item) == [head] + Seen(items, item)
  {
    assert item in [head] + items <==> item in items;
    assert ([head] + items) + [item] == [head] + (items + [item]);
  }

  lemma {:induction false} UpsertPlace(list: seq<Event>, items: seq<string>, e: Event)
    requires e.FetchEvent? && (forall f :: f in list ==> f.FetchEvent?) && Lists(list, items)
    ensures Lists(Upsert(list, e), Seen(items, e.itemId))
  {
    if list != [] {
      ListsTail(list, items);
      if list[0].itemId == e.itemId {
        ListsCons(e, list[1..], items[1..]);
      } else {
        UpsertPlace(list[1..], items[1..], e);
        ListsCons(list[0], Upsert(list[1..], e), Seen(items[1..], e.itemId));
        SeenCons(list[0].itemId, items[1..], e.itemId);
      }
    }
  }

  /** `latestFetches` lists the links in the order they were first read. */
  lemma {:induction false} LatestInFirstOrder(events: seq<Event>)
    ensures Lists(LatestFetches(events), FirstSeen(events))
  {
    if events != [] {
      var init, last := events[..|events| - 1], events[|events| - 1];
      LatestInFirstOrder(init);
      if last.FetchEvent? {
        UpsertPlace(LatestFetches(init), FirstSeen(init), last);
      }
    }
  }

  // ------------------------------------------------------------------ the fetch merge

  function FetchRows(views: seq<StepView>): (r: seq<StepView>)
    ensures forall v :: v in r ==> v.step == Fetch
  {
    if views == [] then []
    else if views[0].step == Fetch then [views[0]] + FetchRows(views[1..])
    else FetchRows(views[1..])
  }

  function OtherRows(views: seq<StepView>): seq<StepView> {
    if views == [] then []
    else if views[0].step == Fetch then OtherRows(views[1..])
    else [views[0]] + OtherRows(views[1..])
  }

  predicate Waiting(latest: seq<Event>)
    requires forall f :: f in latest ==> f.FetchEvent?
  {
    exists f :: f in latest && f.fetch == Pending
  }

  predicate AllAre(latest: seq<Event>, status: FetchStatus)
    requires forall f :: f in latest ==> f.FetchEvent?
  {
    forall f :: f in latest ==> f.fetch == status
  }

  function MergedState(head: StepView, own: seq<Event>, now: int): RowState {
    var latest := LatestFetches(own);
    if Waiting(latest) then (if now - head.startedAt < FETCH_RUNNING_MS then Running else RowDone)
    else if latest == [] then head.state
    else if AllAre(latest, ReadRefused) then RowRefused
    else if AllAre(latest, ReadFailed) then RowFailed
    else RowDone
  }

  function MergedRow(fetches: seq<StepView>, now: int): StepView
    requires fetches != []
  {
    var head, own := fetches[0], OwnOf(fetches);
    var waiting := Waiting(LatestFetches(own));
    var settled := fetches[|fetches| - 1];
    head.(state := MergedState(head, own, now),
          own := own,
          startedAt := if waiting || |fetches| == 1 then head.startedAt else settled.startedAt,
          latencyMs := if waiting then None else settled.latencyMs)
  }

  /** The rows with `merged` where the first fetch row was and the other fetch rows gone. */
  function InFirstPlace(views: seq<StepView>, merged: StepView): seq<StepView> {
    if views == [] then []
    else if views[0].step == Fetch then [merged] + OtherRows(views[1..])
    else [views[0]] + InFirstPlace(views[1..], merged)
  }

  function MergeFetches(views: seq<StepView>, now: int): seq<StepView> {
    if FetchRows(views) == [] then views
    else InFirstPlace(views, MergedRow(FetchRows(views), now))
  }

  lemma {:induction false} OthersHaveNoFetch(views: seq<StepView>)
    ensures FetchRows(OtherRows(views)) == [] && OtherRows(OtherRows(views)) == OtherRows(views)
  {
    if views != [] {
      OthersHaveNoFetch(views[1..]);
      if views[0].step != Fetch {
        assert OtherRows(views)[1..] == OtherRows(views[1..]);
      }
    }
  }

  lemma {:induction false} NoFetchIsOthers(views: seq<StepView>)
    requires FetchRows(views) == []
    ensures OtherRows(views) == views
  {
    if views != [] {
      NoFetchIsOthers(views[1..]);
      assert views == [views[0]] + views[1..];
    }
  }

  lemma {:induction false} InFirstPlaceShape(views: seq<StepView>, merged: StepView)
    requires merged.step == Fetch && FetchRows(views) != []
    ensures OtherRows(InFirstPlace(views, merged)) == OtherRows(views)
    ensures FetchRows(InFirstPlace(views, merged)) == [merged]
    ensures forall i :: 0 <= i < |views| && FetchRows(views[..i]) == [] && views[i].step == Fetch ==>
      i < |InFirstPlace(views, merged)| && InFirstPlace(views, merged)[..i] == views[..i]
      && InFirstPlace(views, merged)[i] == merged
  {
    var out := InFirstPlace(views, merged);
    if views[0].step == Fetch {
      OthersHaveNoFetch(views[1..]);
      assert out[1..] == OtherRows(views[1..]);
      forall i | 0 < i < |views| ensures FetchRows(views[..i]) != [] {
        assert views[..i][0] == views[0];
      }
    } else {
      InFirstPlaceShape(views[1..], merged);
      assert out[1..] == InFirstPlace(views[1..], merged);
      forall i | 0 <= i < |views| && FetchRows(views[..i]) == [] && views[i].step == Fetch
        ensures i < |out| && out[..i] == views[..i] && out[i] == merged
      {
        assert views[..i][1..] == views[1..][..i - 1];
        assert FetchRows(views[1..][..i - 1]) == [];
        assert views[1..][i - 1] == views[i];
        assert out[..i] == [views[0]] + out[1..][..i - 1];
        assert views[..i] == [views[0]] + views[1..][..i - 1];
      }
    }
  }

  /** The merge leaves every other row as it is and in order, and puts one fetch row, owning every
      fetch row's events, where the first one was. */
  lemma MergeShape(views: seq<StepView>, now: int)
    ensures OtherRows(MergeFetches(views, now)) == OtherRows(views)
    ensures FetchRows(views) == [] ==> MergeFetches(views, now) == views
    ensures FetchRows(views) != [] ==> FetchRows(MergeFetches(views, now)) == [MergedRow(FetchRows(views), now)]
    ensures OwnOf(FetchRows(MergeFetches(views, now))) == OwnOf(FetchRows(views))
    ensures forall i :: 0 <= i < |views| && FetchRows(views[..i]) == [] && views[i].step == Fetch ==>
      i < |MergeFetches(views, now)| && MergeFetches(views, now)[..i] == views[..i]
      && MergeFetches(views, now)[i].key == views[i].key
  {
    var fetches := FetchRows(views);
    if fetches != [] {
      var merged := MergedRow(fetches, now);
      InFirstPlaceShape(views, merged);
      assert OwnOf([merged]) == OwnOf([]) + merged.own by { OwnOfAppend([], merged); assert [] + [merged] == [merged]; }
      forall i | 0 <= i < |views| && FetchRows(views[..i]) == [] && views[i].step == Fetch
        ensures fetches[0] == views[i] {
        FirstFetch(views, i);
      }
    }
  }

  lemma {:induction false} FirstFetch(views: seq<StepView>, i: nat)
    requires i < |views| && FetchRows(views[..i]) == [] && views[i].step == Fetch
    ensures FetchRows(views) != [] && FetchRows(views)[0] == views[i]
  {
    if i > 0 {
      assert views[..i][0] == views[0] && views[..i][1..] == views[1..][..i - 1];
      FirstFetch(views[1..], i - 1);
    }
  }

  /** Merging what is merged changes nothing. */
  lemma MergeIsIdempotent(views: seq<StepView>, now: int)
    ensures MergeFetches(MergeFetches(views, now), now) == MergeFetches(views, now)
  {
    MergeShape(views, now);
    var fetches := FetchRows(views);
    if fetches != [] {
      var merged := MergedRow(fetches, now);
      OwnOfAppend([], merged);
      assert [] + [merged] == [merged];
      assert OwnOf([merged]) == merged.own;
      assert MergedRow([merged], now) == merged;
      ReplaceWithSame(MergeFetches(views, now), merged);
    }
  }

  lemma {:induction false} ReplaceWithSame(views: seq<StepView>, merged: StepView)
    requires FetchRows(views) == [merged]
    ensures InFirstPlace(views, merged) == views
  {
    assert views == [views[0]] + views[1..];
    if views[0].step == Fetch {
      assert FetchRows(views)[1..] == FetchRows(views[1..]);
      NoFetchIsOthers(views[1..]);
    } else {
      ReplaceWithSame(views[1..], merged);
    }
  }

  /** The merged state depends on nothing but the clock, the head row and each link's last event, so
      reads that finish in any interleaving give the same state. */
  lemma StateDependsOnLastFetches(head: StepView, a: seq<Event>, b: seq<Event>, now: int)
    requires forall item :: LastFetch(a, item) == LastFetch(b, item)
    ensures MergedState(head, a, now) == MergedState(head, b, now)
    ensures Waiting(LatestFetches(a)) == Waiting(LatestFetches(b))
  {
    LatestIsLast(a);
    LatestIsLast(b);
    assert forall f :: f in LatestFetches(a) <==> f in LatestFetches(b);
    EmptyOrNot(LatestFetches(a));
    EmptyOrNot(LatestFetches(b));
  }

  lemma EmptyOrNot(list: seq<Event>)
    ensures list == [] <==> forall f :: f !in list
  {
    if list != [] {
      assert list[0] in list;
    }
  }

  /** Some link's last event is in this state. */
  ghost predicate SomeLast(own: seq<Event>, status: FetchStatus) {
    exists item :: LastFetch(own, item).Some? && LastFetch(own, item).value.FetchEvent?
      && LastFetch(own, item).value.fetch == status
  }

  ghost predicate EveryLast(own: seq<Event>, status: FetchStatus) {
    forall item :: LastFetch(own, item).Some? ==>
      LastFetch(own, item).value.FetchEvent? && LastFetch(own, item).value.fetch == status
  }

  lemma {:induction false} LastFetchOfLink(events: seq<Event>, item: string)
    ensures LastFetch(events, item).Some? ==>
      LastFetch(events, item).value.FetchEvent? && LastFetch(events, item).value.itemId == item
  {
    if events != [] {
      LastFetchOfLink(events[..|events| - 1], item);
    }
  }

  lemma LatestByLink(own: seq<Event>, status: FetchStatus)
    ensures (exists f :: f in LatestFetches(own) && f.fetch == status) <==> SomeLast(own, status)
    ensures AllAre(LatestFetches(own), status) <==> EveryLast(own, status)
    ensures LatestFetches(own) == [] <==> forall item :: LastFetch(own, item).None?
  {
    LatestIsLast(own);
    forall item ensures LastFetch(own, item).Some? ==>
      LastFetch(own, item).value.FetchEvent? && LastFetch(own, item).value.itemId == item
      && LastFetch(own, item).value in LatestFetches(own) {
      LastFetchOfLink(own, item);
    }
    forall f | f in LatestFetches(own) ensures LastFetch(own, f.itemId) == Some(f) {
    }
    if LatestFetches(own) != [] {
      var first := LatestFetches(own)[0];
      assert first in LatestFetches(own);
      assert LastFetch(own, first.itemId) == Some(first);
    }
  }

  /** The merged state, said by links: while one still waits the row runs for a quarter of an hour and is
      done after it; once none waits it is refused when every link was, failed when every link did, and
      done otherwise; with no links it is the head row's own. */
  lemma MergedStateMeaning(head: StepView, own: seq<Event>, now: int)
    ensures MergedState(head, own, now) ==
      if SomeLast(own, Pending) then (if now - head.startedAt < 900_000 then Running else RowDone)
      else if forall item :: LastFetch(own, item).None? then head.state
      else if EveryLast(own, ReadRefused) then RowRefused
      else if EveryLast(own, ReadFailed) then RowFailed
      else RowDone
  {
    LatestByLink(own, Pending);
    LatestByLink(own, ReadRefused);
    LatestByLink(own, ReadFailed);
  }

  /** While a link waits the merged row is timed from the save; afterwards it reports the last read, at
      the time that read happened. */
  lemma MergedRowReportsTheLastRead(fetches: seq<StepView>, now: int)
    requires fetches != []
    ensures var row, last := MergedRow(fetches, now), fetches[|fetches| - 1];
      if SomeLast(OwnOf(fetches), Pending) then row.startedAt == fetches[0].startedAt && row.latencyMs == None
      else row.startedAt == last.startedAt && row.latencyMs == last.latencyMs
  {
    LatestByLink(OwnOf(fetches), Pending);
  }

  /** The fetch events of one link, in order. */
  function OfLink(events: seq<Event>, itemId: string): seq<Event> {
    if events == [] then []
    else
      var init, last := events[..|events| - 1], events[|events| - 1];
      if last.FetchEvent? && last.itemId == itemId then OfLink(init, itemId) + [last] else OfLink(init, itemId)
  }

  lemma {:induction false} LastOfLink(events: seq<Event>, itemId: string)
    ensures var own := OfLink(events, itemId);
      LastFetch(events, itemId) == if own == [] then None else Some(own[|own| - 1])
  {
    if events != [] {
      LastOfLink(events[..|events| - 1], itemId);
    }
  }

  lemma ReadsInterleaveFreely(head: StepView, a: seq<Event>, b: seq<Event>, now: int)
    requires forall item :: OfLink(a, item) == OfLink(b, item)
    ensures MergedState(head, a, now) == MergedState(head, b, now)
  {
    forall item ensures LastFetch(a, item) == LastFetch(b, item) {
      LastOfLink(a, item);
      LastOfLink(b, item);
    }
    StateDependsOnLastFetches(head, a, b, now);
  }

  // ------------------------------------------------------------------ waiting for a page

  function HasPendingFetch(events: Option<seq<TrailEvent>>): bool {
    match events
    case None => false
    case Some(es) => Waiting(LatestFetches(EventsOf(es)))
  }

  /** A turn is polled exactly while the last event of one of its links says that it is still to be read. */
  lemma PolledWhileALinkWaits(events: Option<seq<TrailEvent>>)
    ensures HasPendingFetch(events) <==>
      events.Some? && SomeLast(EventsOf(events.value), Pending)
  {
    if events.Some? {
      LatestByLink(EventsOf(events.value), Pending);
    }
  }

  predicate NoFetchEvents(events: seq<Event>) {
    forall e :: e in events ==> !e.FetchEvent?
  }

  lemma {:induction false} LastFetchConcat(a: seq<Event>, b: seq<Event>, item: string)
    ensures LastFetch(a + b, item) == if LastFetch(b, item).Some? then LastFetch(b, item) else LastFetch(a, item)
  {
    if b == [] {
      assert a + b == a;
    } else {
      var init, last := b[..|b| - 1], b[|b| - 1];
      LastFetchConcat(a, init, item);
      assert (a + b)[..|a + b| - 1] == a + init;
    }
  }

  lemma {:induction false} LastFetchNone(events: seq<Event>, item: string)
    requires NoFetchEvents(events)
    ensures LastFetch(events, item) == None
  {
    if events != [] {
      assert events[|events| - 1] in events;
      LastFetchNone(events[..|events| - 1], item);
    }
  }

  lemma {:induction false} LastFetchNonSteps(events: seq<Event>, item: string)
    ensures LastFetch(NonSteps(events), item) == LastFetch(events, item)
  {
    if events != [] {
      var init, last := events[..|events| - 1], events[|events| - 1];
      LastFetchNonSteps(init, item);
      if !last.StepEvent? {
        assert NonSteps(events)[..|NonSteps(events)| - 1] == NonSteps(init);
      }
    }
  }

  /** Fetch events occur only in fetch rows. */
  predicate FetchesInFetchRows(views: seq<StepView>) {
    forall i :: 0 <= i < |views| && views[i].step != Fetch ==> NoFetchEvents(views[i].own)
  }

  lemma {:induction false} FetchRowsSnoc(views: seq<StepView>, row: StepView)
    ensures FetchRows(views + [row]) == if row.step == Fetch then FetchRows(views) + [row] else FetchRows(views)
  {
    if views == [] {
      assert views + [row] == [row];
    } else {
      assert (views + [row])[1..] == views[1..] + [row];
      FetchRowsSnoc(views[1..], row);
    }
  }

  lemma {:induction false} LastFetchInFetchRows(views: seq<StepView>, item: string)
    requires FetchesInFetchRows(views)
    ensures LastFetch(OwnOf(FetchRows(views)), item) == LastFetch(OwnOf(views), item)
  {
    if views != [] {
      var init, last := views[..|views| - 1], views[|views| - 1];
      assert views == init + [last];
      LastFetchInFetchRows(init, item);
      FetchRowsSnoc(init, last);
      LastFetchConcat(OwnOf(init), last.own, item);
      if last.step == Fetch {
        OwnOfAppend(FetchRows(init), last);
        LastFetchConcat(OwnOf(FetchRows(init)), last.own, item);
      } else {
        LastFetchNone(last.own, item);
      }
    }
  }

  /** When fetch events occur only inside fetch steps, the merged row is waiting exactly when the
      conversation still polls for the turn, at every number of events and whatever the clock. */
  lemma WaitingIsPolling(events: seq<TrailEvent>)
    requires StrictlyAscending(events)
    requires FetchesInFetchRows(RawRows(events, [])) && NoFetchEvents(Replay(EventsOf(events)).pending)
    ensures Waiting(LatestFetches(OwnOf(FetchRows(RawRows(events, []))))) == HasPendingFetch(Some(events))
  {
    SortedStays(events);
    var es := EventsOf(events);
    var r := Replay(es);
    ReplayKeepsEvents(es);
    var fetched := OwnOf(FetchRows(r.rows));
    forall item ensures LastFetch(fetched, item) == LastFetch(es, item) {
      LastFetchInFetchRows(r.rows, item);
      LastFetchConcat(OwnOf(r.rows), r.pending, item);
      LastFetchNone(r.pending, item);
      LastFetchNonSteps(es, item);
    }
    StateDependsOnLastFetches(StepView("", Fetch, Running, 0, None, []), fetched, es, 0);
  }

  // ------------------------------------------------------------------ everything a turn said

  datatype Facts = Facts(
    intent: Option<Event>, decision: Option<Event>, diff: Option<seq<string>>, retrieval: Option<Event>,
    citations: Option<Event>, tools: seq<Event>, fetches: seq<Event>, policies: seq<Event>, calls: seq<Event>,
    error: Option<Event>, blocked: Option<Event>, quota: Option<Event>)

  const NO_FACTS := Facts(None, None, None, None, None, [], [], [], [], None, None, None)

  function AddFact(f: Facts, e: Event): Facts {
    match e
    case IntentEvent(_) => f.(intent := Some(e))
    case DecisionEvent(_) => f.(decision := Some(e))
    case MemoryDiffEvent(entries) => f.(diff := Some((if f.diff.Some? then f.diff.value else []) + entries))
    case RetrievalEvent(_) => f.(retrieval := Some(e))
    case CitationsEvent(_) => f.(citations := Some(e))
    case ToolCallEvent(_) => f.(tools := f.tools + [e])
    case PolicyEvent(_) => f.(policies := f.policies + [e])
    case ModelCallEvent(_) => f.(calls := f.calls + [e])
    case ErrorEvent(_, _) => f.(error := Some(e))
    case BlockedEvent(_) => f.(blocked := Some(e))
    case QuotaEvent(_) => f.(quota := Some(e))
    case _ => f
  }

  function FoldFacts(events: seq<Event>): Facts {
    if events == [] then NO_FACTS else AddFact(FoldFacts(events[..|events| - 1]), events[|events| - 1])
  }

  /** `factsOf`: the events are taken in the order given; unlike the rows they are not sorted. */
  function FactsOf(events: seq<TrailEvent>): Facts {
    FoldFacts(EventsOf(events)).(fetches := LatestFetches(EventsOf(events)))
  }

  function LastWhere(events: seq<Event>, p: Event -> bool): Option<Event> {
    if events == [] then None
    else if p(events[|events| - 1]) then Some(events[|events| - 1])
    else LastWhere(events[..|events| - 1], p)
  }

  function AllWhere(events: seq<Event>, p: Event -> bool): seq<Event> {
    if events == [] then []
    else if p(events[|events| - 1]) then AllWhere(events[..|events| - 1], p) + [events[|events| - 1]]
    else AllWhere(events[..|events| - 1], p)
  }

  function DiffEntries(events: seq<Event>): seq<string> {
    if events == [] then []
    else
      var init, last := events[..|events| - 1], events[|events| - 1];
      if last.MemoryDiffEvent? then DiffEntries(init) + last.entries else DiffEntries(init)
  }

  lemma {:induction false} IntentFacts(events: seq<Event>)
    ensures var f := FoldFacts(events);
      && f.intent == LastWhere(events, (e: Event) => e.IntentEvent?)
      && f.decision == LastWhere(events, (e: Event) => e.DecisionEvent?)
  {
    if events != [] {
      IntentFacts(events[..|events| - 1]);
    }
  }

  lemma {:induction false} RecallFacts(events: seq<Event>)
    ensures var f := FoldFacts(events);
      && f.retrieval == LastWhere(events, (e: Event) => e.RetrievalEvent?)
      && f.citations == LastWhere(events, (e: Event) => e.CitationsEvent?)
  {
    if events != [] {
      RecallFacts(events[..|events| - 1]);
    }
  }

  lemma {:induction false} OutcomeFacts(events: seq<Event>)
    ensures var f := FoldFacts(events);
      && f.error == LastWhere(events, (e: Event) => e.ErrorEvent?)
      && f.blocked == LastWhere(events, (e: Event) => e.BlockedEvent?)
      && f.quota == LastWhere(events, (e: Event) => e.QuotaEvent?)
  {
    if events != [] {
      OutcomeFacts(events[..|events| - 1]);
    }
  }

  lemma {:induction false} ListFacts(events: seq<Event>)
    ensures var f := FoldFacts(events);
      && f.tools == AllWhere(events, (e: Event) => e.ToolCallEvent?)
      && f.policies == AllWhere(events, (e: Event) => e.PolicyEvent?)
      && f.calls == AllWhere(events, (e: Event) => e.ModelCallEvent?)
  {
    if events != [] {
      ListFacts(events[..|events| - 1]);
    }
  }

  lemma {:induction false} DiffFacts(events: seq<Event>)
    ensures var f := FoldFacts(events);
      && (f.diff.None? <==> LastWhere(events, (e: Event) => e.MemoryDiffEvent?).None?)
      && (if f.diff.Some? then f.diff.value else []) == DiffEntries(events)
  {
    if events != [] {
      DiffFacts(events[..|events| - 1]);
    }
  }

  /** Single facts are the last event of their kind, lists are every event of their kind in order, the
      diff is every diff's entries put together, and the reads are the last event of each link, in the order
      the links were first read. */
  lemma FactsMeaning(trail: seq<TrailEvent>)
    ensures var f, events := FactsOf(trail), EventsOf(trail);
      && f.intent == LastWhere(events, (e: Event) => e.IntentEvent?)
      && f.decision == LastWhere(events, (e: Event) => e.DecisionEvent?)
      && f.retrieval == LastWhere(events, (e: Event) => e.RetrievalEvent?)
      && f.citations == LastWhere(events, (e: Event) => e.CitationsEvent?)
      && f.error == LastWhere(events, (e: Event) => e.ErrorEvent?)
      && f.blocked == LastWhere(events, (e: Event) => e.BlockedEvent?)
      && f.quota == LastWhere(events, (e: Event) => e.QuotaEvent?)
      && f.tools == AllWhere(events, (e: Event) => e.ToolCallEvent?)
      && f.policies == AllWhere(events, (e: Event) => e.PolicyEvent?)
      && f.calls == AllWhere(events, (e: Event) => e.ModelCallEvent?)
      && (f.diff.None? <==> LastWhere(events, (e: Event) => e.MemoryDiffEvent?).None?)
      && (if f.diff.Some? then f.diff.value else []) == DiffEntries(events)
      && (forall e :: e in f.fetches <==> e.FetchEvent? && LastFetch(events, e.itemId) == Some(e))
      && Lists(LatestFetches(events), FirstSeen(events)) && f.fetches == LatestFetches(events)
  {
    var events := EventsOf(trail);
    LatestIsLast(events);
    LatestInFirstOrder(events);
    IntentFacts(events);
    RecallFacts(events);
    OutcomeFacts(events);
    ListFacts(events);
    DiffFacts(events);
  }

  /** The facts, unlike the rows, depend on the order the events are given in. */
  lemma FactsDependOnArrivalOrder(first: string, second: string)
    requires first != second
    ensures var a := [TrailEvent(1, IntentEvent(first)), TrailEvent(2, IntentEvent(second))];
      var b := [a[1], a[0]];
      && DistinctNumbers(a) && multiset(a) == multiset(b)
      && FactsOf(a).intent == Some(IntentEvent(second)) && FactsOf(b).intent == Some(IntentEvent(first))
  {
    var a := [TrailEvent(1, IntentEvent(first)), TrailEvent(2, IntentEvent(second))];
    var b := [a[1], a[0]];
    assert EventsOf(a) == [IntentEvent(first), IntentEvent(second)];
    assert EventsOf(b) == [IntentEvent(second), IntentEvent(first)];
    assert EventsOf(a)[..1] == [IntentEvent(first)] && EventsOf(b)[..1] == [IntentEvent(second)];
  }

  // ------------------------------------------------------------------ the loops themselves

  method ComputeStepViews(events: seq<TrailEvent>, starts: seq<StepStart>, now: int) returns (rows: seq<StepView>)
    ensures rows == StepViews(events, starts, now)
  {
    var views: seq<StepView>, pending: seq<Event> := [], [];
    var sorted := SortByNumber(events);
    ghost var all := EventsOf(sorted);
    for i := 0 to |sorted|
      invariant Rows(views, pending) == Replay(all[..i])
    {
      var event := sorted[i].event;
      assert all[..i + 1] == all[..i] + [event];
      ReplaySnoc(all[..i], event);
      if !event.StepEvent? {
        pending := pending + [event];
      } else {
        views := views + [StepRow(|views|, event, pending)];
        pending := [];
      }
    }
    assert all[..|sorted|] == all;
    ghost var replayed := Rows(views, pending);
    var first := |views|;
    if first < |starts| {
      for i := first to |starts|
        invariant |views| == i
        invariant AddStarts(Rows(views, pending), starts) == AddStarts(replayed, starts)
      {
        views := views + [RunningRow(|views|, starts[i], pending)];
        pending := [];
      }
    }
    rows := MergeFetches(views, now);
  }

  method ComputeLatestFetches(events: seq<Event>) returns (latest: seq<Event>)
    ensures latest == LatestFetches(events)
  {
    latest := [];
    for i := 0 to |events|
      invariant latest == LatestFetches(events[..i])
    {
      assert events[..i + 1][..i] == events[..i];
      if events[i].FetchEvent? {
        latest := Upsert(latest, events[i]);
      }
    }
    assert events[..|events|] == events;
  }

  method ComputeFacts(events: seq<TrailEvent>) returns (facts: Facts)
    ensures facts == FactsOf(events)
  {
    var latest := ComputeLatestFetches(EventsOf(events));
    facts := NO_FACTS;
    for i := 0 to |events|
      invariant facts == FoldFacts(EventsOf(events)[..i])
    {
      assert EventsOf(events)[..i + 1][..i] == EventsOf(events)[..i];
      facts := AddFact(facts, events[i].event);
    }
    assert EventsOf(events)[..|events|] == EventsOf(events);
    facts := facts.(fetches := latest);
  }
}
