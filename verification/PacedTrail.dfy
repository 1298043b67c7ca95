// The pacer fed by a turn's stream: what the screen shows ends as what a reload shows.

module PacedTrail {
  import opened Basics
  import opened Events
  import opened TrailModel
  import opened Protocol
  import opened TurnTrail
  import opened TurnRunner
  import opened TurnLifecycle
  import opened Conversation
  import opened LiveReload
  import opened Pacing
  import opened SavedLinks

  // ------------------------------------------------------------------ the goals a stream makes

  /** From one prefix to a later one, read no earlier, goals only grow. */
  ghost predicate GoalsOnlyGrow(items: seq<StreamItem>) {
    forall m: nat, n: nat, early: int, late: int :: m <= n <= |items| && early <= late ==>
      Monotone(GoalAt(items[..m], early), GoalAt(items[..n], late))
  }

  lemma GoalsGrowBetween(items: seq<StreamItem>, m: nat, n: nat, early: int, late: int)
    requires Orderly(items) && SavesOnce(items) && NeverGoesBack(Statuses(items))
    requires m <= n <= |items| && early <= late
    ensures Monotone(GoalAt(items[..m], early), GoalAt(items[..n], late))
  {
    var a, b := GoalAt(items[..m], early), GoalAt(items[..n], late);
    forall i | 0 <= i < |a| ensures |a| <= |b| && Stays(a[i].state, b[i].state) {
      RowsStay(items, m, n, early, late, i);
    }
  }

  /** Otherwise there is a moment, when the first link has just been reported, that the whole takes back. */
  lemma GoalGoesBack(items: seq<StreamItem>) returns (m: nat, now: int)
    requires Orderly(items) && SavesOnce(items) && !NeverGoesBack(Statuses(items))
    ensures m <= |items| && !Monotone(GoalAt(items[..m], now), GoalAt(items, now))
  {
    m := FirstLink(items);
    assert items[..|items|] == items;
    StatusesOfPrefix(items, m);
    FetchStepSeen(items, m, |items|);
    var k := FetchIndex(items);
    now := LiveRows(items)[k].startedAt;
    GoalByStatus(items[..m], now);
    GoalByStatus(items, now);
    assert Statuses(items[..m]) == Statuses(items)[..1];
    StateGoesBack(Statuses(items), LiveRows(items[..m])[k].state, LiveRows(items)[k].state);
  }

  /** The goals of an orderly stream that saves its links at most once only grow exactly when it has no
      link, or its first link is still to be read, or none is and they end alike. */
  lemma GoalsOfAStreamGrow(items: seq<StreamItem>)
    requires Orderly(items) && SavesOnce(items)
    ensures GoalsOnlyGrow(items) <==> NeverGoesBack(Statuses(items))
  {
    if NeverGoesBack(Statuses(items)) {
      forall m: nat, n: nat, early: int, late: int | m <= n <= |items| && early <= late
        ensures Monotone(GoalAt(items[..m], early), GoalAt(items[..n], late)) {
        GoalsGrowBetween(items, m, n, early, late);
      }
    } else {
      var m, now := GoalGoesBack(items);
      assert items[..|items|] == items;
    }
  }

  // ------------------------------------------------------------------ the pacer that follows them

  /** The pacer's goals are the client's rows at these prefixes of the stream, later ones later and at no
      earlier time; it may skip prefixes, and timers may fire whenever they like in between. */
  predicate Follows(inputs: seq<Input>, items: seq<StreamItem>, read: seq<nat>, clock: seq<int>) {
    && |read| == |clock| == |inputs|
    && (forall i, j :: 0 <= i < j < |read| ==> read[i] <= read[j] && clock[i] <= clock[j])
    && forall i :: 0 <= i < |inputs| && inputs[i].NewGoal? ==>
         read[i] <= |items| && inputs[i].goal == GoalAt(items[..read[i]], clock[i])
  }

  /** The last thing the pacer was told is the finished stream's rows. */
  predicate ReadToEnd(inputs: seq<Input>, items: seq<StreamItem>, read: seq<nat>) {
    |inputs| == |read| > 0 && inputs[|inputs| - 1].NewGoal? && read[|inputs| - 1] == |items|
  }

  lemma FollowedGoalsGrow(inputs: seq<Input>, items: seq<StreamItem>, read: seq<nat>, clock: seq<int>)
    requires Follows(inputs, items, read, clock) && Orderly(items) && SavesOnce(items) && NeverGoesBack(Statuses(items))
    ensures GoalsGrow(inputs)
  {
    forall i, j | 0 <= i < j < |inputs| && inputs[i].NewGoal? && inputs[j].NewGoal?
      ensures Monotone(inputs[i].goal, inputs[j].goal) {
      GoalsGrowBetween(items, read[i], read[j], clock[i], clock[j]);
    }
  }

  /** However the stream is read and paced, the screen comes to show its rows as of the last reading. */
  ghost predicate EveryPacingArrives(items: seq<StreamItem>) {
    forall inputs, read, clock, at :: Follows(inputs, items, read, clock) && ReadToEnd(inputs, items, read) ==>
      Settle(RunPace(inputs), at).pace.shown == GoalAt(items, clock[|inputs| - 1])
  }

  lemma FirstGoalIsShown(goal: seq<StepView>)
    ensures Settle(RunPace([NewGoal(goal, 0.0)]), 0.0).pace.shown == goal
  {
    RunSnoc([], NewGoal(goal, 0.0));
    assert [] + [NewGoal(goal, 0.0)] == [NewGoal(goal, 0.0)];
    ShownInTheEnd([NewGoal(goal, 0.0)], 0.0);
  }

  lemma TakenBackIsNeverShown(inputs: seq<Input>, goal: seq<StepView>, at: real)
    requires !Monotone(RunPace(inputs).shown, goal)
    ensures Settle(RunPace(inputs + [NewGoal(goal, 0.0)]), at).pace.shown != goal
  {
    var all := inputs + [NewGoal(goal, 0.0)];
    RunSnoc(inputs, NewGoal(goal, 0.0));
    EveryRunIsSane(all);
    CatchesUpExactlyWhenCompatible(RunPace(all), at);
  }

  lemma TwoReadings(items: seq<StreamItem>, m: nat, now: int, fires: seq<Input>)
    returns (read: seq<nat>, clock: seq<int>)
    requires m <= |items| && forall i :: 0 <= i < |fires| ==> fires[i].Fires?
    ensures var inputs := [NewGoal(GoalAt(items[..m], now), 0.0)] + fires + [NewGoal(GoalAt(items, now), 0.0)];
      Follows(inputs, items, read, clock) && ReadToEnd(inputs, items, read) && clock[|inputs| - 1] == now
  {
    read := seq(|fires| + 1, _ => m) + [|items|];
    clock := seq(|fires| + 2, _ => now);
    assert items[..|items|] == items;
  }

  lemma FirstGoalTakenBack(first: seq<StepView>, goal: seq<StepView>) returns (fires: seq<Input>)
    requires !Monotone(first, goal)
    ensures forall i :: 0 <= i < |fires| ==> fires[i].Fires?
    ensures forall at :: Settle(RunPace([NewGoal(first, 0.0)] + fires + [NewGoal(goal, 0.0)]), at).pace.shown != goal
  {
    fires := SettleFires(RunPace([NewGoal(first, 0.0)]), 0.0);
    RunAfter([NewGoal(first, 0.0)], fires);
    FirstGoalIsShown(first);
    forall at ensures Settle(RunPace([NewGoal(first, 0.0)] + fires + [NewGoal(goal, 0.0)]), at).pace.shown != goal {
      TakenBackIsNeverShown([NewGoal(first, 0.0)] + fires, goal, at);
    }
  }

  /** A client that reads the first link, lets the pacer settle and then reads the rest. */
  lemma SomePacingSticks(items: seq<StreamItem>)
    returns (inputs: seq<Input>, read: seq<nat>, clock: seq<int>)
    requires Orderly(items) && SavesOnce(items) && !NeverGoesBack(Statuses(items))
    ensures Follows(inputs, items, read, clock) && ReadToEnd(inputs, items, read)
    ensures forall at :: Settle(RunPace(inputs), at).pace.shown != GoalAt(items, clock[|inputs| - 1])
  {
    var m, now := GoalGoesBack(items);
    var fires := FirstGoalTakenBack(GoalAt(items[..m], now), GoalAt(items, now));
    inputs := [NewGoal(GoalAt(items[..m], now), 0.0)] + fires + [NewGoal(GoalAt(items, now), 0.0)];
    read, clock := TwoReadings(items, m, now, fires);
  }

  /** Every pacing of such a stream arrives at its rows exactly when its links never go back. */
  lemma ArrivesExactlyWhen(items: seq<StreamItem>)
    requires Orderly(items) && SavesOnce(items)
    ensures EveryPacingArrives(items) <==> NeverGoesBack(Statuses(items))
  {
    if NeverGoesBack(Statuses(items)) {
      forall inputs, read, clock, at | Follows(inputs, items, read, clock) && ReadToEnd(inputs, items, read)
        ensures Settle(RunPace(inputs), at).pace.shown == GoalAt(items, clock[|inputs| - 1]) {
        FollowedGoalsGrow(inputs, items, read, clock);
        ShownInTheEnd(inputs, at);
        GoalIsTheLast(inputs);
        assert items[..|items|] == items;
      }
    } else {
      var inputs, read, clock := SomePacingSticks(items);
      assert Settle(RunPace(inputs), 0.0).pace.shown != GoalAt(items, clock[|inputs| - 1]);
    }
  }

  // ------------------------------------------------------------------ the whole turn

  /** End to end, for a turn whose writes succeed, whose reports come between steps, which nobody else
      writes to and whose links, if it saves any, never go back: however its stream was read and paced,
      once the pacer has the finished turn's rows the screen comes to show exactly the reloaded turn's
      rows, by the deadline. */
  lemma ScreenMeetsReload(turn: Turn, nodes: seq<Node>, answer: Option<string>, c: Closing, begun: ChatTurn,
                          quota: Option<string>, inputs: seq<Input>, read: seq<nat>, clock: seq<int>, now: int,
                          at: real)
    requires Created(turn) && Clean(nodes) && Uncancelled(c) && !c.traceFails && JustSent(begun)
    requires AllStored(nodes) && Alone(nodes) && ReportsBetweenSteps(nodes, false)
    requires SavesOnce(RunTurn(turn, nodes, answer, c).state.trail.queue)
    requires NeverGoesBack(Statuses(RunTurn(turn, nodes, answer, c).state.trail.queue))
    requires Follows(inputs, RunTurn(turn, nodes, answer, c).state.trail.queue, read, clock)
    requires RunPace(inputs).goal
          == RowsShown(LiveTurn(begun, RunTurn(turn, nodes, answer, c).state.trail.queue, quota), now)
    ensures Settle(RunPace(inputs), at).pace.shown == RowsShown(ReloadedTurn(RunTurn(turn, nodes, answer, c)), now)
    ensures RunPace(inputs).timer.Some? ==> Settle(RunPace(inputs), at).at <= Deadline(RunPace(inputs))
  {
    StreamKeepsDiscipline(turn, nodes, answer, c);
    LiveEqualsReload(turn, nodes, answer, c, begun, quota, now);
    FollowedGoalsGrow(inputs, RunTurn(turn, nodes, answer, c).state.trail.queue, read, clock);
    ShownInTheEnd(inputs, at);
  }

  /** However the stream is read and paced, the screen comes to show the reloaded turn's rows. */
  ghost predicate EveryPacingShowsReload(e: Ended) {
    forall inputs, read, clock, at ::
      Follows(inputs, e.state.trail.queue, read, clock) && ReadToEnd(inputs, e.state.trail.queue, read) ==>
      Settle(RunPace(inputs), at).pace.shown == RowsShown(ReloadedTurn(e), clock[|inputs| - 1])
  }

  lemma FinishedGoalIsTheReload(turn: Turn, nodes: seq<Node>, answer: Option<string>, c: Closing, now: int)
    requires Created(turn) && Clean(nodes) && Uncancelled(c) && !c.traceFails && AllStored(nodes) && Alone(nodes)
    ensures var e := RunTurn(turn, nodes, answer, c);
      GoalAt(e.state.trail.queue, now) == RowsShown(ReloadedTurn(e), now)
  {
    var e, begun := RunTurn(turn, nodes, answer, c), NewTurn("", "", 0);
    TurnEnds(turn, nodes, answer, c);
    LiveHolds(begun, e.state.trail.queue, turn, e.final, None);
    LiveEqualsReload(turn, nodes, answer, c, begun, None, now);
  }

  /** For such a turn that saves its links once the screen always meets the reload exactly when its links
      never go back. */
  lemma ScreenMeetsReloadExactlyWhen(turn: Turn, nodes: seq<Node>, answer: Option<string>, c: Closing)
    requires Created(turn) && Clean(nodes) && Uncancelled(c) && !c.traceFails
    requires AllStored(nodes) && Alone(nodes) && ReportsBetweenSteps(nodes, false)
    requires SavesOnce(RunTurn(turn, nodes, answer, c).state.trail.queue)
    ensures EveryPacingShowsReload(RunTurn(turn, nodes, answer, c))
        <==> NeverGoesBack(Statuses(RunTurn(turn, nodes, answer, c).state.trail.queue))
  {
    var e := RunTurn(turn, nodes, answer, c);
    StreamKeepsDiscipline(turn, nodes, answer, c);
    forall now ensures GoalAt(e.state.trail.queue, now) == RowsShown(ReloadedTurn(e), now) {
      FinishedGoalIsTheReload(turn, nodes, answer, c, now);
    }
    SameArrival(e);
    ArrivesExactlyWhen(e.state.trail.queue);
  }

  lemma SameArrival(e: Ended)
    requires forall now :: GoalAt(e.state.trail.queue, now) == RowsShown(ReloadedTurn(e), now)
    ensures EveryPacingArrives(e.state.trail.queue) <==> EveryPacingShowsReload(e)
  {
  }

  lemma ShownInTheEnd(inputs: seq<Input>, at: real)
    requires GoalsGrow(inputs)
    ensures Settle(RunPace(inputs), at).pace.shown == RunPace(inputs).goal
    ensures RunPace(inputs).timer.Some? ==> Settle(RunPace(inputs), at).at <= Deadline(RunPace(inputs))
  {
    if RunPace(inputs).timer.Some? {
      RunCatchesUp(inputs, at);
    } else {
      EveryRunIsSane(inputs);
      GrowingGoalsStayCompatible(inputs);
      AsleepMeansThere(RunPace(inputs));
    }
  }

  // ------------------------------------------------------------------ a save that goes back

  /** The stream of one fetch step over two links, one refused at once and one still to be read. */
  function FetchBatch(a: string, b: string, at: int, latencyMs: int): seq<StreamItem> {
    [StepStarted(Fetch, at),
     Recorded(StoredEvent(1, FetchEvent(a, ReadRefused, ""))),
     Recorded(StoredEvent(2, FetchEvent(b, Pending, ""))),
     Recorded(StoredEvent(3, StepEvent(Fetch, Done, at, latencyMs)))]
  }

  lemma OnlyFetchRow(row: StepView, now: int)
    requires row.step == Fetch
    ensures |MergeFetches([row], now)| == 1
    ensures MergeFetches([row], now)[0].state == MergedState(row, row.own, now)
  {
    OneRowMerged([row], 0, now);
  }

  lemma OneItemMore(items: seq<StreamItem>, item: StreamItem)
    ensures StartsOf(items + [item])
         == if item.StepStarted? then StartsOf(items) + [StepStart(item.step, item.at)] else StartsOf(items)
    ensures RecordedOf(items + [item])
         == if item.Recorded? then RecordedOf(items) + [item.stored] else RecordedOf(items)
  {
    assert (items + [item])[..|items|] == items;
  }

  lemma NoItems()
    ensures StartsOf([]) == [] && RecordedOf([]) == []
  {
  }

  lemma BatchPrefix1(a: string, b: string, at: int, latencyMs: int)
    ensures var seen := FetchBatch(a, b, at, latencyMs)[..1];
      StartsOf(seen) == [StepStart(Fetch, at)] && RecordedOf(seen) == []
  {
    var all := FetchBatch(a, b, at, latencyMs);
    NoItems();
    OneItemMore([], all[0]);
    assert all[..1] == [] + [all[0]];
  }

  lemma BatchPrefix2(a: string, b: string, at: int, latencyMs: int)
    ensures var seen := FetchBatch(a, b, at, latencyMs)[..2];
      StartsOf(seen) == [StepStart(Fetch, at)] && RecordedOf(seen) == [StoredEvent(1, FetchEvent(a, ReadRefused, ""))]
  {
    var all := FetchBatch(a, b, at, latencyMs);
    BatchPrefix1(a, b, at, latencyMs);
    OneItemMore(all[..1], all[1]);
    assert all[..2] == all[..1] + [all[1]];
  }

  lemma BatchPrefix3(a: string, b: string, at: int, latencyMs: int)
    ensures var seen := FetchBatch(a, b, at, latencyMs)[..3];
      && StartsOf(seen) == [StepStart(Fetch, at)]
      && RecordedOf(seen) == [StoredEvent(1, FetchEvent(a, ReadRefused, "")),
                              StoredEvent(2, FetchEvent(b, Pending, ""))]
  {
    var all := FetchBatch(a, b, at, latencyMs);
    BatchPrefix2(a, b, at, latencyMs);
    OneItemMore(all[..2], all[2]);
    assert all[..3] == all[..2] + [all[2]];
  }

  lemma BatchWhole(a: string, b: string, at: int, latencyMs: int)
    ensures var seen := FetchBatch(a, b, at, latencyMs);
      && StartsOf(seen) == [StepStart(Fetch, at)]
      && RecordedOf(seen) == [StoredEvent(1, FetchEvent(a, ReadRefused, "")),
                              StoredEvent(2, FetchEvent(b, Pending, "")),
                              StoredEvent(3, StepEvent(Fetch, Done, at, latencyMs))]
  {
    var all := FetchBatch(a, b, at, latencyMs);
    BatchPrefix3(a, b, at, latencyMs);
    OneItemMore(all[..3], all[3]);
    assert all == all[..3] + [all[3]];
  }

  /** A running fetch row of this time with these trailing events. */
  lemma RunningFetch(own: seq<Event>, starts: seq<StepStart>, at: int, log: seq<StoredEvent>)
    requires Numbered(log) && Unnumbered(log) == own && NoSteps(own) && starts == [StepStart(Fetch, at)]
    ensures RawRows(AsTrail(log), starts) == [RunningRow(0, starts[0], own)]
  {
    TrailEventsAre(log);
    NoStepsReplay(own);
    var r := Replay(own);
    var one := Rows(r.rows + [RunningRow(0, starts[0], r.pending)], []);
    assert AddStarts(r, starts) == AddStarts(one, starts) == one.rows;
  }

  lemma {:induction false} NoStepsReplay(events: seq<Event>)
    requires NoSteps(events)
    ensures Replay(events) == Rows([], events)
  {
    if |events| > 0 {
      var init, last := events[..|events| - 1], events[|events| - 1];
      assert events == init + [last];
      NoStepsReplay(init);
      ReplaySnoc(init, last);
    }
  }

  lemma Goal1(a: string, b: string, at: int, latencyMs: int, now: int)
    ensures var goal := GoalAt(FetchBatch(a, b, at, latencyMs)[..1], now); |goal| == 1 && goal[0].state == Running
  {
    BatchPrefix1(a, b, at, latencyMs);
    RunningFetch([], [StepStart(Fetch, at)], at, []);
    OnlyFetchRow(RunningRow(0, StepStart(Fetch, at), []), now);
    assert LatestFetches([]) == [];
  }

  lemma Goal2(a: string, b: string, at: int, latencyMs: int, now: int)
    ensures var goal := GoalAt(FetchBatch(a, b, at, latencyMs)[..2], now); |goal| == 1 && goal[0].state == RowRefused
  {
    var own := [FetchEvent(a, ReadRefused, "")];
    BatchPrefix2(a, b, at, latencyMs);
    RunningFetch(own, [StepStart(Fetch, at)], at, [StoredEvent(1, own[0])]);
    OnlyFetchRow(RunningRow(0, StepStart(Fetch, at), own), now);
    assert own[..0] == [];
    assert LatestFetches(own) == Upsert([], own[0]) == own;
  }

  /** The one row of a log of these events and then their step's record. */
  lemma RecordedFetch(own: seq<Event>, record: Event, log: seq<StoredEvent>, starts: seq<StepStart>)
    requires Numbered(log) && Unnumbered(log) == own + [record] && NoSteps(own) && record.StepEvent? && |starts| <= 1
    ensures RawRows(AsTrail(log), starts) == [StepRow(0, record, own)]
  {
    TrailEventsAre(log);
    ReplaySnoc(own, record);
    NoStepsReplay(own);
    assert [] + [StepRow(0, record, own)] == [StepRow(0, record, own)];
  }

  lemma SecondStillWaits(a: string, b: string)
    requires a != b
    ensures Waiting(LatestFetches([FetchEvent(a, ReadRefused, ""), FetchEvent(b, Pending, "")]))
  {
    var own := [FetchEvent(a, ReadRefused, ""), FetchEvent(b, Pending, "")];
    LatestIsLast(own);
    assert LastFetch(own, b) == Some(own[1]);
    assert own[1] in LatestFetches(own);
  }

  lemma GoalWhole(a: string, b: string, at: int, latencyMs: int, now: int)
    requires a != b && now - at < FETCH_RUNNING_MS
    ensures var goal := GoalAt(FetchBatch(a, b, at, latencyMs), now); |goal| == 1 && goal[0].state == Running
  {
    var own := [FetchEvent(a, ReadRefused, ""), FetchEvent(b, Pending, "")];
    var record := StepEvent(Fetch, Done, at, latencyMs);
    BatchWhole(a, b, at, latencyMs);
    RecordedFetch(own, record, RecordedOf(FetchBatch(a, b, at, latencyMs)), [StepStart(Fetch, at)]);
    OnlyFetchRow(StepRow(0, record, own), now);
    SecondStillWaits(a, b);
  }

  /** The goals of that stream are not monotone: the merged row is refused after the first event and
      runs again after the second. A pacer that has shown the row running for 240 ms and is handed the
      goals one by one finishes it as refused, and never shows the goal again. */
  lemma FetchBatchSticksThePacer(a: string, b: string, at: int, latencyMs: int, now: int, shownAt: real, later: real)
    requires a != b && now - at < FETCH_RUNNING_MS && later >= shownAt + STEP_DWELL_MS
    ensures var items := FetchBatch(a, b, at, latencyMs);
      var inputs := [NewGoal(GoalAt(items[..1], now), shownAt), Fires(shownAt), NewGoal(GoalAt(items[..2], now), later),
                     Fires(later), NewGoal(GoalAt(items, now), later)];
      && RunPace(inputs).goal == GoalAt(items, now)
      && Settle(RunPace(inputs), later).pace.shown != GoalAt(items, now)
  {
    var items := FetchBatch(a, b, at, latencyMs);
    var g1, g2, g3 := GoalAt(items[..1], now), GoalAt(items[..2], now), GoalAt(items, now);
    Goal1(a, b, at, latencyMs, now);
    Goal2(a, b, at, latencyMs, now);
    GoalWhole(a, b, at, latencyMs, now);
    StuckOnce(g1, g2, g3, shownAt, later);
  }

  lemma StuckOnce(g1: seq<StepView>, g2: seq<StepView>, g3: seq<StepView>, shownAt: real, later: real)
    requires |g1| == |g2| == |g3| == 1 && later >= shownAt + STEP_DWELL_MS
    requires g1[0].state == Running && g2[0].state == RowRefused && g3[0].state == Running
    ensures var inputs := [NewGoal(g1, shownAt), Fires(shownAt), NewGoal(g2, later), Fires(later), NewGoal(g3, later)];
      RunPace(inputs).goal == g3 && Settle(RunPace(inputs), later).pace.shown != g3
  {
    var i1 := [NewGoal(g1, shownAt)];
    var i2 := i1 + [Fires(shownAt)];
    var i3 := i2 + [NewGoal(g2, later)];
    var i4 := i3 + [Fires(later)];
    var i5 := i4 + [NewGoal(g3, later)];
    RunSnoc([], NewGoal(g1, shownAt));
    assert [] + i1 == i1;
    RunSnoc(i1, Fires(shownAt));
    RunSnoc(i2, NewGoal(g2, later));
    RunSnoc(i3, Fires(later));
    RunSnoc(i4, NewGoal(g3, later));
    var p1 := RunPace(i1);
    assert NextChange(p1.shown, p1.goal) == Some(Change(0, AddRow));
    var p2 := RunPace(i2);
    assert |p2.shown| == 1 && p2.shown[0].state == Running && p2.since[0] == shownAt && p2.due.None?;
    var p3 := RunPace(i3);
    assert NextChange(p3.shown, p3.goal) == Some(Change(0, FinishRow));
    var p4 := RunPace(i4);
    assert p4.shown == [g2[0]];
    EveryRunIsSane(i5);
    assert RunPace(i5).timer.Some?;
    CatchesUpExactlyWhenCompatible(RunPace(i5), later);
    assert i5 == [NewGoal(g1, shownAt), Fires(shownAt), NewGoal(g2, later), Fires(later), NewGoal(g3, later)];
  }
}
