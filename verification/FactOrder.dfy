// Facts and the order of events: `factsOf` does not sort, and needs only that events of one kind are in order.

module FactOrder {
  import opened Basics
  import opened Events
  import opened TrailModel

  datatype Kind = StepKind | FetchKind | CallKind | IntentKind | DecisionKind | DiffKind | RetrievalKind | CitationsKind
                | ToolKind | PolicyKind | ErrorKind | BlockedKind | QuotaKind | OtherKind

  function KindOf(e: Event): Kind {
    match e
    case StepEvent(_, _, _, _) => StepKind
    case FetchEvent(_, _, _) => FetchKind
    case ModelCallEvent(_) => CallKind
    case IntentEvent(_) => IntentKind
    case DecisionEvent(_) => DecisionKind
    case MemoryDiffEvent(_) => DiffKind
    case RetrievalEvent(_) => RetrievalKind
    case CitationsEvent(_) => CitationsKind
    case ToolCallEvent(_) => ToolKind
    case PolicyEvent(_) => PolicyKind
    case ErrorEvent(_, _) => ErrorKind
    case BlockedEvent(_) => BlockedKind
    case QuotaEvent(_) => QuotaKind
    case OtherEvent(_) => OtherKind
  }

  /** Events of one kind come in the order of their numbers; of different kinds, in any. */
  predicate KindsInOrder(events: seq<TrailEvent>) {
    forall i, j :: 0 <= i < j < |events| && KindOf(events[i].event) == KindOf(events[j].event) ==>
      events[i].number <= events[j].number
  }

  /** Events of different kinds may be told in either order. */
  lemma KindsCommute(f: Facts, a: Event, b: Event)
    requires KindOf(a) != KindOf(b)
    ensures AddFact(AddFact(f, a), b) == AddFact(AddFact(f, b), a)
  {
  }

  function AddLatest(latest: seq<Event>, e: Event): (r: seq<Event>)
    requires forall f :: f in latest ==> f.FetchEvent?
    ensures forall f :: f in r ==> f.FetchEvent?
  {
    if e.FetchEvent? then Upsert(latest, e) else latest
  }

  lemma OneMoreEvent(events: seq<TrailEvent>, e: TrailEvent)
    ensures FoldFacts(EventsOf(events + [e])) == AddFact(FoldFacts(EventsOf(events)), e.event)
    ensures LatestFetches(EventsOf(events + [e])) == AddLatest(LatestFetches(EventsOf(events)), e.event)
  {
    assert EventsOf(events + [e]) == EventsOf(events) + [e.event];
    assert (EventsOf(events) + [e.event])[..|events|] == EventsOf(events);
  }

  /** Every event that e is put before is of another kind. */
  predicate PassesOthers(e: TrailEvent, sorted: seq<TrailEvent>) {
    forall i :: 0 <= i < |sorted| && sorted[i].number > e.number ==> KindOf(sorted[i].event) != KindOf(e.event)
  }

  lemma {:induction false} InsertTells(e: TrailEvent, sorted: seq<TrailEvent>)
    requires PassesOthers(e, sorted)
    ensures FoldFacts(EventsOf(Insert(e, sorted))) == AddFact(FoldFacts(EventsOf(sorted)), e.event)
    ensures LatestFetches(EventsOf(Insert(e, sorted))) == AddLatest(LatestFetches(EventsOf(sorted)), e.event)
  {
    if sorted == [] || sorted[|sorted| - 1].number <= e.number {
      OneMoreEvent(sorted, e);
    } else {
      var init, last := sorted[..|sorted| - 1], sorted[|sorted| - 1];
      assert sorted == init + [last];
      InsertTells(e, init);
      OneMoreEvent(Insert(e, init), last);
      OneMoreEvent(init, last);
      KindsCommute(FoldFacts(EventsOf(init)), e.event, last.event);
    }
  }

  lemma LastPassesOthers(events: seq<TrailEvent>, e: TrailEvent)
    requires KindsInOrder(events + [e])
    ensures KindsInOrder(events) && PassesOthers(e, SortByNumber(events))
  {
    var all, sorted := events + [e], SortByNumber(events);
    assert forall i :: 0 <= i < |events| ==> all[i] == events[i];
    SortSorts(events);
    forall i | 0 <= i < |sorted| && sorted[i].number > e.number ensures KindOf(sorted[i].event) != KindOf(e.event) {
      assert sorted[i] in multiset(sorted);
      assert sorted[i] in events;
      var j :| 0 <= j < |events| && events[j] == sorted[i];
      assert all[j] == sorted[i] && all[|events|] == e;
    }
  }

  /** Facts are not sorted, and need not be: they are those of the sorted events whenever the events of
      each kind come in the order of their numbers, in whatever way the kinds are mixed. */
  lemma {:induction false} FactsNeedKindsInOrder(events: seq<TrailEvent>)
    requires KindsInOrder(events)
    ensures FactsOf(events) == FactsOf(SortByNumber(events))
  {
    FactsBySorting(events);
  }

  lemma {:induction false} FactsBySorting(events: seq<TrailEvent>)
    requires KindsInOrder(events)
    ensures FoldFacts(EventsOf(events)) == FoldFacts(EventsOf(SortByNumber(events)))
    ensures LatestFetches(EventsOf(events)) == LatestFetches(EventsOf(SortByNumber(events)))
  {
    if events != [] {
      var init, last := events[..|events| - 1], events[|events| - 1];
      assert events == init + [last];
      LastPassesOthers(init, last);
      FactsBySorting(init);
      OneMoreEvent(init, last);
      InsertTells(last, SortByNumber(init));
    }
  }

  /** So two arrangements of events with distinct numbers, each with its kinds in order, give the same facts. */
  lemma FactsIgnoreTheMixing(a: seq<TrailEvent>, b: seq<TrailEvent>)
    requires KindsInOrder(a) && KindsInOrder(b) && DistinctNumbers(a) && multiset(a) == multiset(b)
    ensures FactsOf(a) == FactsOf(b)
  {
    FactsNeedKindsInOrder(a);
    FactsNeedKindsInOrder(b);
    SortIgnoresOrder(a, b);
  }
}
