// The shape of a turn's stream, item by item, and what a reader can conclude from any prefix of it.

module Protocol {
  import opened Basics
  import opened Events
  import opened TrailModel

  /** Between two items a stream is idle, inside one started step, or has broken the discipline that
      steps are started and recorded one at a time. */
  datatype Phase = Idle | Inside(start: StepStart) | Broken

  function Advance(p: Phase, item: StreamItem): Phase {
    if p.Broken? then Broken
    else match item
      case StepStarted(step, at) => if p.Idle? then Inside(StepStart(step, at)) else Broken
      case Recorded(stored) =>
        if !stored.event.StepEvent? then p
        else if p == Inside(StepStart(stored.event.step, stored.event.startedAt)) then Idle
        else Broken
      case _ => p
  }

  function PhaseFrom(p: Phase, items: seq<StreamItem>): Phase {
    if items == [] then p else Advance(PhaseFrom(p, items[..|items| - 1]), items[|items| - 1])
  }

  function PhaseOf(items: seq<StreamItem>): Phase {
    PhaseFrom(Idle, items)
  }

  lemma {:induction false} PhaseFromConcat(p: Phase, a: seq<StreamItem>, b: seq<StreamItem>)
    ensures PhaseFrom(p, a + b) == PhaseFrom(PhaseFrom(p, a), b)
  {
    if b == [] {
      assert a + b == a;
    } else {
      PhaseFromConcat(p, a, b[..|b| - 1]);
      assert (a + b)[..|a + b| - 1] == a + b[..|b| - 1];
    }
  }

  lemma {:induction false} BrokenStaysBroken(items: seq<StreamItem>)
    ensures PhaseFrom(Broken, items) == Broken
  {
    if items != [] {
      BrokenStaysBroken(items[..|items| - 1]);
    }
  }

  /** A stream that keeps the discipline kept it at every prefix. */
  lemma PrefixKeepsDiscipline(items: seq<StreamItem>, n: nat)
    requires n <= |items| && PhaseOf(items) != Broken
    ensures PhaseOf(items[..n]) != Broken
  {
    PhaseFromConcat(Idle, items[..n], items[n..]);
    assert items == items[..n] + items[n..];
    BrokenStaysBroken(items[n..]);
  }

  // ------------------------------------------------------------------ what a reader keeps

  function StartsOf(items: seq<StreamItem>): seq<StepStart> {
    if items == [] then []
    else
      var init, last := items[..|items| - 1], items[|items| - 1];
      if last.StepStarted? then StartsOf(init) + [StepStart(last.step, last.at)] else StartsOf(init)
  }

  function RecordedOf(items: seq<StreamItem>): seq<StoredEvent> {
    if items == [] then []
    else
      var init, last := items[..|items| - 1], items[|items| - 1];
      if last.Recorded? then RecordedOf(init) + [last.stored] else RecordedOf(init)
  }

  function TextsOf(items: seq<StreamItem>): seq<string> {
    if items == [] then []
    else
      var init, last := items[..|items| - 1], items[|items| - 1];
      if last.Token? then TextsOf(init) + [last.text] else TextsOf(init)
  }

  lemma {:induction false} ProjectionsConcat(a: seq<StreamItem>, b: seq<StreamItem>)
    ensures StartsOf(a + b) == StartsOf(a) + StartsOf(b)
    ensures RecordedOf(a + b) == RecordedOf(a) + RecordedOf(b)
    ensures TextsOf(a + b) == TextsOf(a) + TextsOf(b)
  {
    if b == [] {
      assert a + b == a;
    } else {
      ProjectionsConcat(a, b[..|b| - 1]);
      assert (a + b)[..|a + b| - 1] == a + b[..|b| - 1];
    }
  }

  function AsTrail(log: seq<StoredEvent>): (r: seq<TrailEvent>)
    ensures |r| == |log|
    ensures forall i :: 0 <= i < |r| ==> r[i] == TrailEvent(log[i].number, log[i].event)
  {
    seq(|log|, i requires 0 <= i < |log| => TrailEvent(log[i].number, log[i].event))
  }

  predicate Numbered(log: seq<StoredEvent>) {
    forall i, j :: 0 <= i < j < |log| ==> log[i].number < log[j].number
  }

  // ------------------------------------------------------------------ the rows at any prefix

  /** The rows a client shows, before fetch rows are merged, after reading these items. */
  function LiveRows(items: seq<StreamItem>): seq<StepView> {
    RawRows(AsTrail(RecordedOf(items)), StartsOf(items))
  }

  function RecordedSteps(items: seq<StreamItem>): seq<Event> {
    StepsIn(Unnumbered(RecordedOf(items)))
  }

  predicate Matches(start: StepStart, e: Event) {
    e.StepEvent? && start == StepStart(e.step, e.startedAt)
  }

  lemma StepsAfter(items: seq<StreamItem>, item: StreamItem)
    ensures RecordedSteps(items + [item]) ==
      if item.Recorded? && item.stored.event.StepEvent? then RecordedSteps(items) + [item.stored.event]
      else RecordedSteps(items)
  {
    assert (items + [item])[..|items|] == items;
    if item.Recorded? {
      var before := Unnumbered(RecordedOf(items));
      assert Unnumbered(RecordedOf(items + [item])) == before + [item.stored.event];
      ReplaySnoc(before, item.stored.event);
    }
  }

  predicate Paired(starts: seq<StepStart>, steps: seq<Event>, p: Phase) {
    && |starts| == |steps| + (if p.Inside? then 1 else 0)
    && (forall i :: 0 <= i < |steps| ==> Matches(starts[i], steps[i]))
    && (p.Inside? ==> starts[|steps|] == p.start)
  }

  lemma OneMorePair(starts: seq<StepStart>, steps: seq<Event>, p: Phase, item: StreamItem)
    requires Paired(starts, steps, p) && !Advance(p, item).Broken?
    ensures Paired(if item.StepStarted? then starts + [StepStart(item.step, item.at)] else starts,
                   if item.Recorded? && item.stored.event.StepEvent? then steps + [item.stored.event] else steps,
                   Advance(p, item))
  {
  }

  /** Starts and recorded steps pair up one to one; at most one start is ahead of its record. */
  lemma {:induction false} StartsPairWithRecords(items: seq<StreamItem>)
    requires PhaseOf(items) != Broken
    ensures Paired(StartsOf(items), RecordedSteps(items), PhaseOf(items))
  {
    if items != [] {
      var init, last := items[..|items| - 1], items[|items| - 1];
      StartsPairWithRecords(init);
      StepsAfter(init, last);
      assert items == init + [last];
      OneMorePair(StartsOf(init), RecordedSteps(init), PhaseOf(init), last);
    }
  }

  lemma TrailEventsAre(log: seq<StoredEvent>)
    requires Numbered(log)
    ensures SortByNumber(AsTrail(log)) == AsTrail(log)
    ensures EventsOf(AsTrail(log)) == Unnumbered(log)
  {
    SortedStays(AsTrail(log));
  }

  /** At every prefix the rows are one per recorded step plus one running row for the open step. */
  lemma LiveRowsAre(items: seq<StreamItem>)
    requires PhaseOf(items) != Broken && Numbered(RecordedOf(items))
    ensures var r := Replay(Unnumbered(RecordedOf(items)));
      LiveRows(items) ==
        if PhaseOf(items).Inside? then r.rows + [RunningRow(|r.rows|, PhaseOf(items).start, r.pending)] else r.rows
  {
    TrailEventsAre(RecordedOf(items));
    var events := Unnumbered(RecordedOf(items));
    ReplayRows(events);
    StartsPairWithRecords(items);
    var r, starts := Replay(events), StartsOf(items);
    if PhaseOf(items).Inside? {
      var one := Rows(r.rows + [RunningRow(|r.rows|, starts[|r.rows|], r.pending)], []);
      assert AddStarts(r, starts) == AddStarts(one, starts) == one.rows;
    }
  }

  /** The rows' own events and then the trailing ones are the recorded non-step events, in order. */
  lemma LiveRowsKeepEvents(items: seq<StreamItem>)
    requires PhaseOf(items) != Broken && Numbered(RecordedOf(items))
    ensures var events := Unnumbered(RecordedOf(items));
      OwnOf(LiveRows(items)) + (if PhaseOf(items).Inside? then [] else Replay(events).pending) == NonSteps(events)
  {
    var events := Unnumbered(RecordedOf(items));
    LiveRowsAre(items);
    ReplayKeepsEvents(events);
    var r := Replay(events);
    if PhaseOf(items).Inside? {
      OwnOfAppend(r.rows, RunningRow(|r.rows|, PhaseOf(items).start, r.pending));
    }
  }

  /** The row of a recorded step is the one the recorded events alone give. */
  lemma RecordedRow(items: seq<StreamItem>, i: nat)
    requires PhaseOf(items) != Broken && Numbered(RecordedOf(items)) && i < |RecordedSteps(items)|
    ensures var r := Replay(Unnumbered(RecordedOf(items)));
      && i < |LiveRows(items)| && i < |r.rows| && LiveRows(items)[i] == r.rows[i]
      && r.rows[i] == StepRow(i, RecordedSteps(items)[i], r.rows[i].own)
  {
    LiveRowsAre(items);
    ReplayRows(Unnumbered(RecordedOf(items)));
  }

  /** A row past the recorded steps is the open step's. */
  lemma OpenRow(items: seq<StreamItem>, i: nat)
    requires PhaseOf(items) != Broken && Numbered(RecordedOf(items)) && |RecordedSteps(items)| <= i < |LiveRows(items)|
    ensures var r := Replay(Unnumbered(RecordedOf(items)));
      && PhaseOf(items).Inside? && i == |r.rows| == |RecordedSteps(items)|
      && LiveRows(items)[i] == RunningRow(i, PhaseOf(items).start, r.pending)
  {
    LiveRowsAre(items);
    ReplayRows(Unnumbered(RecordedOf(items)));
  }

  /** Row i belongs to the i-th started step; it is finished exactly when that step is recorded, and
      then it is the row the recorded events alone give. */
  lemma LiveRowAt(items: seq<StreamItem>, i: nat)
    requires PhaseOf(items) != Broken && Numbered(RecordedOf(items))
    requires i < |LiveRows(items)|
    ensures |LiveRows(items)| == |StartsOf(items)| && i < |StartsOf(items)|
    ensures var row := LiveRows(items)[i];
      && row.key == Key(row.step, i)
      && StartsOf(items)[i] == StepStart(row.step, row.startedAt)
      && (row.state == Running <==> i >= |RecordedSteps(items)|)
    ensures i < |RecordedSteps(items)| ==>
      i < |Replay(Unnumbered(RecordedOf(items))).rows|
      && LiveRows(items)[i] == Replay(Unnumbered(RecordedOf(items))).rows[i]
  {
    RowCounts(items);
    StartsPairWithRecords(items);
    if i < |RecordedSteps(items)| {
      RecordedRow(items, i);
      assert Matches(StartsOf(items)[i], RecordedSteps(items)[i]);
    } else {
      OpenRow(items, i);
    }
  }

  /** Row keys are unique. */
  lemma LiveRowKeysDiffer(items: seq<StreamItem>, i: nat, j: nat)
    requires PhaseOf(items) != Broken && Numbered(RecordedOf(items))
    requires i < |LiveRows(items)| && j < |LiveRows(items)| && i != j
    ensures LiveRows(items)[i].key != LiveRows(items)[j].key
  {
    LiveRowAt(items, i);
    LiveRowAt(items, j);
    if LiveRows(items)[i].key == LiveRows(items)[j].key {
      KeysDiffer(LiveRows(items)[i].step, i, LiveRows(items)[j].step, j);
    }
  }

  /** How rows may change while a stream is read: they are only added, a row keeps its key, step and
      start, and once it is finished it never changes. */
  predicate Grows(early: seq<StepView>, late: seq<StepView>) {
    && |early| <= |late|
    && forall i :: 0 <= i < |early| ==>
         && early[i].key == late[i].key && early[i].step == late[i].step && early[i].startedAt == late[i].startedAt
         && (early[i].state != Running ==> early[i] == late[i])
  }

  lemma NumberedPrefix(a: seq<StoredEvent>, b: seq<StoredEvent>)
    requires Numbered(a + b)
    ensures Numbered(a)
  {
    forall i, j | 0 <= i < j < |a| ensures a[i].number < a[j].number {
      assert (a + b)[i] == a[i] && (a + b)[j] == a[j];
    }
  }

  lemma LiveRowsGrow(items: seq<StreamItem>, n: nat)
    requires n <= |items| && PhaseOf(items) != Broken && Numbered(RecordedOf(items))
    ensures PhaseOf(items[..n]) != Broken && Numbered(RecordedOf(items[..n]))
    ensures Grows(LiveRows(items[..n]), LiveRows(items))
  {
    var early, rest := items[..n], items[n..];
    assert items == early + rest;
    PrefixKeepsDiscipline(items, n);
    ProjectionsConcat(early, rest);
    NumberedPrefix(RecordedOf(early), RecordedOf(rest));
    RowCounts(early);
    RowCounts(items);
    forall i | 0 <= i < |LiveRows(early)|
      ensures LiveRows(early)[i].key == LiveRows(items)[i].key
           && LiveRows(early)[i].step == LiveRows(items)[i].step
           && LiveRows(early)[i].startedAt == LiveRows(items)[i].startedAt
           && (LiveRows(early)[i].state != Running ==> LiveRows(early)[i] == LiveRows(items)[i])
    {
      RowGrows(early, rest, i);
    }
  }

  lemma RowCounts(items: seq<StreamItem>)
    requires PhaseOf(items) != Broken && Numbered(RecordedOf(items))
    ensures |LiveRows(items)| == |StartsOf(items)|
  {
    LiveRowsAre(items);
    ReplayRows(Unnumbered(RecordedOf(items)));
    StartsPairWithRecords(items);
  }

  lemma RowGrows(early: seq<StreamItem>, rest: seq<StreamItem>, i: nat)
    requires PhaseOf(early) != Broken && Numbered(RecordedOf(early))
    requires PhaseOf(early + rest) != Broken && Numbered(RecordedOf(early + rest))
    requires i < |LiveRows(early)| && i < |LiveRows(early + rest)|
    ensures var a, b := LiveRows(early)[i], LiveRows(early + rest)[i];
      && a.key == b.key && a.step == b.step && a.startedAt == b.startedAt
      && (a.state != Running ==> a == b)
  {
    LiveRowAt(early, i);
    LiveRowAt(early + rest, i);
    ProjectionsConcat(early, rest);
    if LiveRows(early)[i].state != Running {
      FinishedRowStays(early, rest, i);
    }
  }

  lemma RecordedConcat(early: seq<StreamItem>, rest: seq<StreamItem>)
    ensures Unnumbered(RecordedOf(early + rest)) == Unnumbered(RecordedOf(early)) + Unnumbered(RecordedOf(rest))
  {
    ProjectionsConcat(early, rest);
  }

  lemma ReplayedRowStays(before: seq<Event>, after: seq<Event>, i: nat)
    requires i < |StepsIn(before)|
    ensures i < |Replay(before).rows| && i < |Replay(before + after).rows|
    ensures i < |StepsIn(before + after)| && Replay(before).rows[i] == Replay(before + after).rows[i]
  {
    ReplayGrows(before, after);
    ReplayRows(before);
    ReplayRows(before + after);
  }

  lemma FinishedRowStays(early: seq<StreamItem>, rest: seq<StreamItem>, i: nat)
    requires PhaseOf(early) != Broken && Numbered(RecordedOf(early)) && i < |RecordedSteps(early)|
    requires PhaseOf(early + rest) != Broken && Numbered(RecordedOf(early + rest))
    ensures i < |LiveRows(early)| && i < |LiveRows(early + rest)| && LiveRows(early)[i] == LiveRows(early + rest)[i]
  {
    RecordedConcat(early, rest);
    ReplayedRowStays(Unnumbered(RecordedOf(early)), Unnumbered(RecordedOf(rest)), i);
    RecordedRow(early, i);
    RecordedRow(early + rest, i);
  }

  // ------------------------------------------------------------------ the events a row owns

  /** The events of row k, finished or open, after these recorded events. */
  function OwnAt(events: seq<Event>, k: nat): seq<Event> {
    var r := Replay(events);
    if k < |r.rows| then r.rows[k].own else if k == |r.rows| then r.pending else []
  }

  lemma LiveOwn(items: seq<StreamItem>, k: nat)
    requires PhaseOf(items) != Broken && Numbered(RecordedOf(items)) && k < |LiveRows(items)|
    ensures LiveRows(items)[k].own == OwnAt(Unnumbered(RecordedOf(items)), k)
    ensures k <= |Replay(Unnumbered(RecordedOf(items))).rows|
  {
    if k < |RecordedSteps(items)| {
      RecordedRow(items, k);
    } else {
      OpenRow(items, k);
    }
  }

  lemma OwnAtSnoc(events: seq<Event>, e: Event, k: nat)
    requires k <= |Replay(events).rows|
    ensures k <= |Replay(events + [e]).rows|
    ensures OwnAt(events + [e], k)
         == if k < |Replay(events).rows| || e.StepEvent? then OwnAt(events, k) else OwnAt(events, k) + [e]
  {
    ReplaySnoc(events, e);
  }

  lemma OwnAtOneMore(events: seq<Event>, e: Event, k: nat)
    requires k <= |Replay(events).rows|
    ensures k <= |Replay(events + [e]).rows| && OwnAt(events, k) <= OwnAt(events + [e], k)
  {
    OwnAtSnoc(events, e, k);
  }

  /** A row's own events only grow. */
  lemma {:induction false} OwnAtGrows(events: seq<Event>, n: nat, k: nat)
    requires n <= |events| && k <= |Replay(events[..n]).rows|
    ensures k <= |Replay(events).rows| && OwnAt(events[..n], k) <= OwnAt(events, k)
  {
    if n == |events| {
      assert events[..n] == events;
    } else {
      var init, last := events[..|events| - 1], events[|events| - 1];
      assert init[..n] == events[..n] && events == init + [last];
      OwnAtGrows(init, n, k);
      OwnAtOneMore(init, last, k);
    }
  }

  lemma OwnEventsGrow(early: seq<StreamItem>, rest: seq<StreamItem>, k: nat)
    requires PhaseOf(early) != Broken && Numbered(RecordedOf(early)) && k < |LiveRows(early)|
    requires PhaseOf(early + rest) != Broken && Numbered(RecordedOf(early + rest)) && k < |LiveRows(early + rest)|
    ensures LiveRows(early)[k].own <= LiveRows(early + rest)[k].own
  {
    RecordedConcat(early, rest);
    LiveOwn(early, k);
    LiveOwn(early + rest, k);
    var before, after := Unnumbered(RecordedOf(early)), Unnumbered(RecordedOf(rest));
    assert (before + after)[..|before|] == before;
    OwnAtGrows(before + after, |before|, k);
  }
}
