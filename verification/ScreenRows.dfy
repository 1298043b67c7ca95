// What the rows on screen show while they are paced: at every moment, steps of the turn, each at its place
// and each as the server told it, finished or still running.

module ScreenRows {
  import opened Basics
  import opened Events
  import opened TrailModel
  import opened Protocol
  import opened SavedLinks
  import opened Pacing
  import opened PacedTrail

  // ------------------------------------------------------------------ what one tick does, in numbers

  /** Nothing is over that is shown running, and no row is missing. */
  predicate UpToDate(shown: seq<StepView>, goal: seq<StepView>, n: nat)
    requires n <= |shown| && n <= |goal|
  {
    forall j :: 0 <= j < n ==> shown[j].state != Running || goal[j].state == Running
  }

  /** With nothing to change the pacer goes to sleep, and the rows that agree in state show the goal's. */
  lemma NothingToChange(p: Pace, now: real)
    requires |p.goal| <= |p.shown| && UpToDate(p.shown, p.goal, |p.goal|)
    ensures var q := Ticked(p, now);
      && q.timer == None && q.due == None && q.goal == p.goal && q.budget == p.budget && q.since == p.since
      && |q.shown| == |p.shown|
      && forall i :: 0 <= i < |p.shown| ==>
           q.shown[i] == if i < |p.goal| && p.goal[i].state == p.shown[i].state then p.goal[i] else p.shown[i]
  {
    NextFromMeaning(p.shown, p.goal, 0);
  }

  /** The row after the last one shown is added, running and without a latency. Once the budget is spent
      every row but the first waits 40 ms for it. */
  lemma AddsTheNextRow(p: Pace, now: real)
    requires |p.shown| < |p.goal| && UpToDate(p.shown, p.goal, |p.shown|)
    ensures var q, i := Ticked(p, now), |p.shown|;
      var waits := p.due.Some? && p.due.value.change == Change(i, AddRow);
      if waits && now < p.due.value.at then q == p.(timer := Some(p.due.value.at))
      else if !waits && p.budget <= 0.0 && i > 0 then
        q == p.(due := Some(Due(Change(i, AddRow), now + 40.0)), timer := Some(now + 40.0))
      else
        && q.due == (if waits then None else p.due) && q.timer == Some(now) && q.goal == p.goal
        && q.budget == p.budget && q.since == p.since[i := now]
        && q.shown == p.shown + [StepView(p.goal[i].key, p.goal[i].step, Running, p.goal[i].startedAt, None,
                                          p.goal[i].own)]
  {
    NextFromMeaning(p.shown, p.goal, 0);
  }

  /** The first row that is over and shown running takes the goal's row. It waits for what is left of its
      240 ms, as far as the budget pays for them, and 40 ms when the budget is spent. */
  lemma FinishesTheFirstRow(p: Pace, now: real, i: nat)
    requires Sane(p) && i < |p.shown| && i < |p.goal| && UpToDate(p.shown, p.goal, i)
    requires p.shown[i].state == Running && p.goal[i].state != Running
    ensures var q, left := Ticked(p, now), 240.0 - (now - p.since[i]);
      var waits := p.due.Some? && p.due.value.change == Change(i, FinishRow);
      if waits && now < p.due.value.at then q == p.(timer := Some(p.due.value.at))
      else if !waits && left > 0.0 then
        var paid := if left < p.budget then left else p.budget;
        var at := now + (if paid == 0.0 then 40.0 else paid);
        q == p.(budget := p.budget - paid, due := Some(Due(Change(i, FinishRow), at)), timer := Some(at))
      else
        && q.due == (if waits then None else p.due) && q.timer == Some(now) && q.goal == p.goal
        && q.budget == p.budget && q.since == p.since && q.shown == p.shown[i := p.goal[i]]
  {
    NextFromMeaning(p.shown, p.goal, 0);
    assert Finishable(p.shown, p.goal, i);
    assert NextChange(p.shown, p.goal) == Some(Change(i, FinishRow));
  }

  lemma {:induction false} UnfinishedIsBounded(shown: seq<StepView>, goal: seq<StepView>, n: nat)
    requires n <= |goal|
    ensures Unfinished(shown, goal, n) <= n
  {
    if n > 0 {
      UnfinishedIsBounded(shown, goal, n - 1);
    }
  }

  /** In numbers: whatever came before, with on-time timers the pacer is done 400 ms and 80 ms for each
      row of the goal after the later of its timer and its pending change. */
  lemma DoneByThen(inputs: seq<Input>, clock: real)
    requires RunPace(inputs).timer.Some?
    ensures var p := RunPace(inputs);
      var start := if p.due.Some? && p.due.value.at > p.timer.value then p.due.value.at else p.timer.value;
      Settle(p, clock).at <= start + 400.0 + 80.0 * (|p.goal| as real)
  {
    var p := RunPace(inputs);
    EveryRunIsSane(inputs);
    SettlesInTime(p, clock);
    UnfinishedIsBounded(p.shown, p.goal, |p.goal|);
    assert Outstanding(p) <= 2 * |p.goal|;
    assert 40.0 * (Outstanding(p) as real) <= 40.0 * ((2 * |p.goal|) as real);
  }

  // ------------------------------------------------------------------ every row on screen is a goal's

  /** The row as this goal has it, or the same row still running. */
  predicate Shows(row: StepView, told: StepView) {
    row == told || row == told.(state := Running, latencyMs := None)
  }

  /** Some goal handed over so far has this row at this place. */
  predicate WasTold(inputs: seq<Input>, i: nat, row: StepView) {
    exists j :: 0 <= j < |inputs| && inputs[j].NewGoal? && i < |inputs[j].goal| && Shows(row, inputs[j].goal[i])
  }

  lemma TickShows(p: Pace, now: real, i: nat)
    requires i < |Ticked(p, now).shown|
    ensures (i < |p.shown| && Ticked(p, now).shown[i] == p.shown[i])
         || (i < |p.goal| && Shows(Ticked(p, now).shown[i], p.goal[i]))
  {
    NextFromMeaning(p.shown, p.goal, 0);
  }

  lemma StillTold(inputs: seq<Input>, n: nat, i: nat, row: StepView)
    requires n <= |inputs| && WasTold(inputs[..n], i, row)
    ensures WasTold(inputs, i, row)
  {
    var j :| 0 <= j < n && inputs[..n][j].NewGoal? && i < |inputs[..n][j].goal|
          && Shows(row, inputs[..n][j].goal[i]);
    assert inputs[j].NewGoal?;
  }

  lemma ToldByTheGoal(inputs: seq<Input>, i: nat, row: StepView)
    requires i < |RunPace(inputs).goal| && Shows(row, RunPace(inputs).goal[i])
    ensures WasTold(inputs, i, row)
  {
    GoalIsTheLast(inputs);
    var j :| 0 <= j < |inputs| && inputs[j].NewGoal? && inputs[j].goal == RunPace(inputs).goal;
  }

  /** In every reachable state, whatever the goals and the timers, row i on screen is row i of some goal
      handed over so far, as it was told or still running. */
  lemma {:induction false} EveryRowWasTold(inputs: seq<Input>, i: nat)
    requires i < |RunPace(inputs).shown|
    ensures WasTold(inputs, i, RunPace(inputs).shown[i])
  {
    if inputs != [] {
      var n := |inputs| - 1;
      var p := RunPace(inputs[..n]);
      if inputs[n].Fires? {
        TickShows(p, inputs[n].at, i);
      }
      if i < |p.shown| && RunPace(inputs).shown[i] == p.shown[i] {
        EveryRowWasTold(inputs[..n], i);
        StillTold(inputs, n, i, p.shown[i]);
      } else {
        ToldByTheGoal(inputs, i, RunPace(inputs).shown[i]);
      }
    }
  }

  /** The later rows are the same steps, and maybe more. */
  predicate SameSteps(early: seq<StepView>, late: seq<StepView>) {
    && |early| <= |late|
    && forall i :: 0 <= i < |early| ==>
         early[i].key == late[i].key && early[i].step == late[i].step && early[i].startedAt == late[i].startedAt
  }

  predicate GoalsKeepSteps(inputs: seq<Input>) {
    forall i, j :: 0 <= i < j < |inputs| && inputs[i].NewGoal? && inputs[j].NewGoal? ==>
      SameSteps(inputs[i].goal, inputs[j].goal)
  }

  lemma TickKeepsSteps(p: Pace, now: real)
    requires SameSteps(p.shown, p.goal)
    ensures SameSteps(Ticked(p, now).shown, Ticked(p, now).goal)
  {
    NextFromMeaning(p.shown, p.goal, 0);
  }

  /** While the goals keep their steps, the rows on screen are the first steps of the current goal. */
  lemma {:induction false} ScreenKeepsSteps(inputs: seq<Input>)
    requires GoalsKeepSteps(inputs)
    ensures SameSteps(RunPace(inputs).shown, RunPace(inputs).goal)
  {
    if inputs != [] {
      var n := |inputs| - 1;
      var p := RunPace(inputs[..n]);
      ScreenKeepsSteps(inputs[..n]);
      match inputs[n]
      case NewGoal(goal, at) =>
        GoalIsTheLast(inputs[..n]);
        if p.goal != [] {
          var j :| 0 <= j < n && inputs[..n][j].NewGoal? && inputs[..n][j].goal == p.goal;
          assert inputs[j].NewGoal?;
        }
      case Fires(at) => TickKeepsSteps(p, at);
    }
  }

  // ------------------------------------------------------------------ the steps a stream shows

  /** A started step has a row of its own unless it fetches and is not the first that does. */
  predicate HasRow(starts: seq<StepStart>, k: nat)
    requires k < |starts|
  {
    starts[k].step == Fetch ==> forall j :: 0 <= j < k ==> starts[j].step != Fetch
  }

  /** The started steps that have a row, in order. */
  function WithRow(starts: seq<StepStart>): (r: seq<nat>)
    ensures forall i :: 0 <= i < |r| ==> r[i] < |starts| && HasRow(starts, r[i])
    ensures forall i, j :: 0 <= i < j < |r| ==> r[i] < r[j]
  {
    if starts == [] then []
    else
      var n := |starts| - 1;
      var before := WithRow(starts[..n]);
      assert forall i :: 0 <= i < |before| ==> HasRow(starts, before[i]) by {
        forall i | 0 <= i < |before| ensures HasRow(starts, before[i]) {
          assert HasRow(starts[..n], before[i]);
          assert forall j :: 0 <= j < before[i] ==> starts[..n][j] == starts[j];
        }
      }
      if HasRow(starts, n) then before + [n] else before
  }

  lemma {:induction false} WithRowGrows(early: seq<StepStart>, late: seq<StepStart>)
    requires early <= late
    ensures WithRow(early) <= WithRow(late)
  {
    if early != late {
      assert early <= late[..|late| - 1];
      WithRowGrows(early, late[..|late| - 1]);
    } else {
      assert early == late;
    }
  }

  lemma {:induction false} MergedSnoc(views: seq<StepView>, row: StepView, merged: StepView)
    ensures OtherRows(views + [row]) == OtherRows(views) + (if row.step == Fetch then [] else [row])
    ensures InFirstPlace(views + [row], merged) == InFirstPlace(views, merged) +
      (if row.step != Fetch then [row] else if FetchRows(views) == [] then [merged] else [])
  {
    if views == [] {
      assert views + [row] == [row];
    } else {
      assert (views + [row])[1..] == views[1..] + [row];
      MergedSnoc(views[1..], row, merged);
    }
  }

  predicate StepsOf(views: seq<StepView>, starts: seq<StepStart>) {
    |views| == |starts| && forall i :: 0 <= i < |views| ==> views[i].step == starts[i].step
  }

  lemma {:induction false} AnyFetchRows(views: seq<StepView>)
    ensures FetchRows(views) == [] <==> forall i :: 0 <= i < |views| ==> views[i].step != Fetch
  {
    if views != [] {
      AnyFetchRows(views[1..]);
      assert forall i :: 0 < i < |views| ==> views[i] == views[1..][i - 1];
      assert forall i :: 0 <= i < |views| - 1 ==> views[1..][i] == views[i + 1];
    }
  }

  /** The merged rows, place by place. */
  lemma {:induction false} MergedPlaces(views: seq<StepView>, starts: seq<StepStart>, merged: StepView)
    requires StepsOf(views, starts)
    ensures var places, rows := WithRow(starts), InFirstPlace(views, merged);
      && |rows| == |places|
      && forall i :: 0 <= i < |rows| ==>
           rows[i] == if starts[places[i]].step == Fetch then merged else views[places[i]]
  {
    if views != [] {
      var n := |views| - 1;
      assert views == views[..n] + [views[n]];
      MergedPlaces(views[..n], starts[..n], merged);
      MergedSnoc(views[..n], views[n], merged);
      AnyFetchRows(views[..n]);
      assert FetchRows(views[..n]) == [] <==> forall j :: 0 <= j < n ==> starts[j].step != Fetch;
    }
  }

  lemma {:induction false} NothingMerged(views: seq<StepView>, merged: StepView)
    requires FetchRows(views) == []
    ensures InFirstPlace(views, merged) == views
  {
    if views != [] {
      NothingMerged(views[1..], merged);
      assert views == [views[0]] + views[1..];
    }
  }

  /** Row i of the goal is the i-th started step that has a row. */
  lemma GoalRowAt(items: seq<StreamItem>, now: int, i: nat)
    requires Orderly(items) && i < |GoalAt(items, now)|
    ensures i < |WithRow(StartsOf(items))|
    ensures var row, starts, k := GoalAt(items, now)[i], StartsOf(items), WithRow(StartsOf(items))[i];
      && row.step == starts[k].step && row.key == Key(starts[k].step, k)
      && (row.step != Fetch || OneFetchStart(starts) ==> row.startedAt == starts[k].at)
  {
    var views, starts := LiveRows(items), StartsOf(items);
    RowSteps(items);
    assert StepsOf(views, starts);
    var fetches := FetchRows(views);
    var merged := if fetches == [] then RunningRow(0, StepStart(Fetch, 0), []) else MergedRow(fetches, now);
    MergedPlaces(views, starts, merged);
    if fetches == [] {
      NothingMerged(views, merged);
    }
    var k := WithRow(starts)[i];
    LiveRowAt(items, k);
    if starts[k].step == Fetch {
      AnyFetchRows(views);
      AnyFetchRows(views[..k]);
      FirstFetch(views, k);
      if OneFetchStart(starts) {
        forall j | 0 <= j < |views| && j != k ensures views[j].step != Fetch {
          assert views[j].step == starts[j].step;
        }
        OneFetchRow(views, k, merged);
      }
    }
  }

  /** However a stream is read and paced, at every moment row i on screen is the i-th of the turn's steps
      that has a row: it bears that step's key and name, and its start, unless several steps fetch. */
  lemma ScreenRowsAreSteps(items: seq<StreamItem>, inputs: seq<Input>, read: seq<nat>, clock: seq<int>, i: nat)
    requires Orderly(items) && Follows(inputs, items, read, clock) && i < |RunPace(inputs).shown|
    ensures i < |WithRow(StartsOf(items))|
    ensures var row, starts, k := RunPace(inputs).shown[i], StartsOf(items), WithRow(StartsOf(items))[i];
      && row.step == starts[k].step && row.key == Key(starts[k].step, k)
      && (row.step != Fetch || OneFetchStart(starts) ==> row.startedAt == starts[k].at)
  {
    EveryRowWasTold(inputs, i);
    var j :| 0 <= j < |inputs| && inputs[j].NewGoal? && i < |inputs[j].goal|
          && Shows(RunPace(inputs).shown[i], inputs[j].goal[i]);
    var seen := items[..read[j]];
    OrderlyPrefix(items, read[j]);
    StartsOfPrefix(items, read[j]);
    GoalRowAt(seen, clock[j], i);
    WithRowGrows(StartsOf(seen), StartsOf(items));
  }

  /** So the keys on screen are distinct at every moment. */
  lemma KeysOnScreenDiffer(items: seq<StreamItem>, inputs: seq<Input>, read: seq<nat>, clock: seq<int>, i: nat, j: nat)
    requires Orderly(items) && Follows(inputs, items, read, clock)
    requires i < j < |RunPace(inputs).shown|
    ensures RunPace(inputs).shown[i].key != RunPace(inputs).shown[j].key
  {
    ScreenRowsAreSteps(items, inputs, read, clock, i);
    ScreenRowsAreSteps(items, inputs, read, clock, j);
    var starts, places := StartsOf(items), WithRow(StartsOf(items));
    if RunPace(inputs).shown[i].key == RunPace(inputs).shown[j].key {
      KeysDiffer(starts[places[i]].step, places[i], starts[places[j]].step, places[j]);
    }
  }
}
